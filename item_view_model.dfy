/** ItemViewModel: the signed-in user as the view model last saw it, the status
    of the last write, the loading flag and the item opened for editing. Each
    coroutine launch is one sequential step; the identity provider's current
    user, the API outcome and the clock are inputs of the step that uses them. */
module ItemViewModelModel {
  import opened Wrappers
  import opened ItemEntityModel
  import opened ItemStore
  import opened Text
  import opened ItemRepositoryModel

  /** The `Any` payload of `operationStatus`: an item or `Unit`. */
  datatype OpValue = ItemValue(item: ItemEntity) | UnitValue

  /** `_operationStatus.value = result` for a `ResultWrapper<ItemEntity>`: the
      same variant, the same payload, the same exception. */
  function ItemStatus(r: ResultWrapper<ItemEntity>): (s: ResultWrapper<OpValue>)
    ensures s.Success? <==> r.Success?
    ensures s.Error? <==> r.Error?
    ensures r.Success? ==> s.value == ItemValue(r.value)
    ensures r.Error? ==> s.exception == r.exception
  {
    match r
    case Success(e) => Success(ItemValue(e))
    case Error(x) => Error(x)
    case Loading => Loading
  }

  /** The same for a `ResultWrapper<Unit>`. */
  function UnitStatus(r: ResultWrapper<Unit>): (s: ResultWrapper<OpValue>)
    ensures s.Success? <==> r.Success?
    ensures s.Error? <==> r.Error?
    ensures r.Success? ==> s.value == UnitValue
    ensures r.Error? ==> s.exception == r.exception
  {
    match r
    case Success(_) => Success(UnitValue)
    case Error(x) => Error(x)
    case Loading => Loading
  }

  const NotLoggedIn: string := "Pengguna tidak login."
  const NotAllowed: string := "Operasi tidak diizinkan."

  /** The observable state of the view model. */
  datatype ViewState = ViewState(
    currentUserId: Option<string>,
    operationStatus: Option<ResultWrapper<OpValue>>,
    isLoading: bool,
    selectedItem: Option<ItemEntity>)

  /** The write guard of updateItem and deleteItem: a current user who owns the
      item. */
  predicate MayModify(currentUserId: Option<string>, item: ItemEntity) {
    currentUserId.Some? && item.userId == currentUserId.value
  }

  /** updateItem's request: all three fields of the entity, so the server
      receives a full overwrite rather than a partial one. */
  function UpdateRequestFor(item: ItemEntity): (req: ItemUpdateRequest)
    ensures req.name == Some(item.name) && req.description == item.description && req.quantity == Some(item.quantity)
  {
    ItemUpdateRequest(Some(item.name), item.description, Some(item.quantity))
  }

  class ItemViewModel {
    const repository: ItemRepository
    var currentUserId: Option<string>
    var operationStatus: Option<ResultWrapper<OpValue>>
    var isLoading: bool
    var selectedItem: Option<ItemEntity>
    /** Every value assigned to `isLoading`, in order. */
    ghost var loadingTrace: seq<bool>

    function State(): ViewState
      reads this
    {
      ViewState(currentUserId, operationStatus, isLoading, selectedItem)
    }

    predicate Valid()
      reads this, repository, repository.dao
    {
      repository.Valid()
    }

    /** `init`: take the identity provider's current uid and refresh when a user
        is signed in. */
    constructor (repository: ItemRepository, auth: Option<FirebaseUser>,
                 outcome: ApiOutcome<seq<ItemResponse>>, now: int)
      requires repository.Valid()
      modifies repository, repository.dao
      ensures Valid() && this.repository == repository
      ensures State() == ViewState(if auth.Some? then Some(auth.value.uid) else None, None, false, None)
      ensures auth.Some? ==>
                loadingTrace == [true, false] &&
                repository.dao.State() == RefreshTable(old(repository.dao.State()), auth, outcome, now) &&
                repository.calls == old(repository.calls) + Sent(auth, (tok: string) => GetItems(tok))
      ensures auth.None? ==>
                loadingTrace == [] && repository.dao.State() == old(repository.dao.State()) &&
                repository.calls == old(repository.calls)
    {
      this.repository := repository;
      currentUserId := if auth.Some? then Some(auth.value.uid) else None;
      operationStatus := None;
      isLoading := false;
      selectedItem := None;
      loadingTrace := [];
      new;
      if currentUserId.Some? {
        RefreshItems(auth, outcome, now);
      }
    }

    /** The AuthStateListener: act only when the uid changed; refresh only when
        a user is now signed in. */
    method OnAuthStateChanged(auth: Option<FirebaseUser>, outcome: ApiOutcome<seq<ItemResponse>>, now: int)
      requires Valid()
      modifies this, repository, repository.dao
      ensures Valid()
      ensures var newUid := if auth.Some? then Some(auth.value.uid) else None;
        && (old(currentUserId) == newUid ==>
              State() == old(State()) && loadingTrace == old(loadingTrace) &&
              repository.dao.State() == old(repository.dao.State()) && repository.calls == old(repository.calls))
        && (old(currentUserId) != newUid ==>
              State() == old(State()).(currentUserId := newUid, isLoading := if newUid.Some? then false else old(isLoading)))
        && (old(currentUserId) != newUid && newUid.Some? ==>
              loadingTrace == old(loadingTrace) + [true, false] &&
              repository.dao.State() == RefreshTable(old(repository.dao.State()), auth, outcome, now) &&
              repository.calls == old(repository.calls) + Sent(auth, (tok: string) => GetItems(tok)))
        && (newUid.None? ==> repository.dao.State() == old(repository.dao.State()) && repository.calls == old(repository.calls))
    {
      var newUid := if auth.Some? then Some(auth.value.uid) else None;
      if currentUserId != newUid {
        currentUserId := newUid;
        if newUid.Some? {
          RefreshItems(auth, outcome, now);
        }
      }
    }

    /** `refreshItems()`: loading on, refresh, loading off. The repository
        reports no failure, so `operationStatus` is never written. */
    method RefreshItems(auth: Option<FirebaseUser>, outcome: ApiOutcome<seq<ItemResponse>>, now: int)
      requires Valid()
      modifies this, repository, repository.dao
      ensures Valid()
      ensures State() == old(State()).(isLoading := false)
      ensures loadingTrace == old(loadingTrace) + [true, false]
      ensures repository.dao.State() == RefreshTable(old(repository.dao.State()), auth, outcome, now)
      ensures repository.calls == old(repository.calls) + Sent(auth, (tok: string) => GetItems(tok))
    {
      SetLoading(true);
      repository.RefreshItemsFromServer(auth, outcome, now);
      SetLoading(false);
    }

    method SetLoading(value: bool)
      modifies this
      ensures State() == old(State()).(isLoading := value)
      ensures loadingTrace == old(loadingTrace) + [value]
    {
      isLoading := value;
      loadingTrace := loadingTrace + [value];
    }

    /** `insertItem(name, description, quantity)`. */
    method InsertItem(name: string, description: Option<string>, quantity: Int32,
                      auth: Option<FirebaseUser>, outcome: ApiOutcome<ItemResponse>, now: int)
      requires Valid()
      modifies this, repository, repository.dao
      ensures Valid()
      ensures old(currentUserId).None? ==>
                State() == old(State()).(operationStatus := Some(Error(Fail(NotLoggedIn)))) &&
                loadingTrace == old(loadingTrace) &&
                repository.calls == old(repository.calls) &&
                repository.dao.State() == old(repository.dao.State())
      ensures old(currentUserId).Some? ==>
                var step := InsertItemStep(old(repository.dao.State()), auth, outcome, now);
                && State() == old(State()).(operationStatus := Some(ItemStatus(step.result)), isLoading := false)
                && loadingTrace == old(loadingTrace) + [true, false]
                && repository.dao.State() == step.table
                && repository.calls == old(repository.calls) +
                     Sent(auth, (tok: string) => PostItem(tok, ItemCreateRequest(name, description, Some(quantity))))
    {
      if currentUserId.None? {
        operationStatus := Some(Error(Fail(NotLoggedIn)));
        return;
      }
      SetLoading(true);
      var request := ItemCreateRequest(name, description, Some(quantity));
      var result := repository.InsertItem(request, auth, outcome, now);
      operationStatus := Some(ItemStatus(result));
      SetLoading(false);
    }

    /** `updateItem(itemEntity)`: only the owner may update, and the whole
        entity is sent. */
    method UpdateItem(item: ItemEntity, auth: Option<FirebaseUser>, outcome: ApiOutcome<ItemResponse>, now: int)
      requires Valid()
      modifies this, repository, repository.dao
      ensures Valid()
      ensures !MayModify(old(currentUserId), item) ==>
                State() == old(State()).(operationStatus := Some(Error(Fail(NotAllowed)))) &&
                loadingTrace == old(loadingTrace) &&
                repository.calls == old(repository.calls) &&
                repository.dao.State() == old(repository.dao.State())
      ensures MayModify(old(currentUserId), item) ==>
                var step := UpdateItemStep(old(repository.dao.State()), auth, outcome, now);
                && State() == old(State()).(operationStatus := Some(ItemStatus(step.result)), isLoading := false)
                && loadingTrace == old(loadingTrace) + [true, false]
                && repository.dao.State() == step.table
                && repository.calls == old(repository.calls) +
                     Sent(auth, (tok: string) => PutItem(tok, item.id, UpdateRequestFor(item)))
    {
      if currentUserId.None? || item.userId != currentUserId.value {
        operationStatus := Some(Error(Fail(NotAllowed)));
        return;
      }
      SetLoading(true);
      var request := UpdateRequestFor(item);
      var result := repository.UpdateItem(item.id, request, auth, outcome, now);
      operationStatus := Some(ItemStatus(result));
      SetLoading(false);
    }

    /** `deleteItem(itemEntity)`: only the owner may delete. */
    method DeleteItem(item: ItemEntity, auth: Option<FirebaseUser>, outcome: ApiOutcome<Unit>)
      requires Valid()
      modifies this, repository, repository.dao
      ensures Valid()
      ensures !MayModify(old(currentUserId), item) ==>
                State() == old(State()).(operationStatus := Some(Error(Fail(NotAllowed)))) &&
                loadingTrace == old(loadingTrace) &&
                repository.calls == old(repository.calls) &&
                repository.dao.State() == old(repository.dao.State())
      ensures MayModify(old(currentUserId), item) ==>
                var step := DeleteItemStep(old(repository.dao.State()), auth, item.id, outcome);
                && State() == old(State()).(operationStatus := Some(UnitStatus(step.result)), isLoading := false)
                && loadingTrace == old(loadingTrace) + [true, false]
                && repository.dao.State() == step.table
                && repository.calls == old(repository.calls) + Sent(auth, (tok: string) => DeleteItemCall(tok, item.id))
    {
      if currentUserId.None? || item.userId != currentUserId.value {
        operationStatus := Some(Error(Fail(NotAllowed)));
        return;
      }
      SetLoading(true);
      var result := repository.DeleteItem(item.id, auth, outcome);
      operationStatus := Some(UnitStatus(result));
      SetLoading(false);
    }

    /** `deleteAllItemsForCurrentUser()`: local only, always reported as success. */
    method DeleteAllItemsForCurrentUser()
      requires Valid()
      modifies this, repository.dao
      ensures Valid()
      ensures old(currentUserId).None? ==>
                State() == old(State()).(operationStatus := Some(Error(Fail(NotLoggedIn)))) &&
                loadingTrace == old(loadingTrace) &&
                repository.dao.State() == old(repository.dao.State())
      ensures old(currentUserId).Some? ==>
                && State() == old(State()).(operationStatus := Some(Success(UnitValue)), isLoading := false)
                && loadingTrace == old(loadingTrace) + [true, false]
                && repository.dao.State() == DeleteAllForUser(old(repository.dao.State()), old(currentUserId).value)
    {
      if currentUserId.None? {
        operationStatus := Some(Error(Fail(NotLoggedIn)));
        return;
      }
      SetLoading(true);
      repository.DeleteAllItemsForUser(currentUserId.value);
      operationStatus := Some(Success(UnitValue));
      SetLoading(false);
    }

    /** `loadItemById(itemId)`: the current user's row with that id, or null. */
    method LoadItemById(itemId: int)
      requires Valid()
      modifies this
      ensures Valid()
      ensures State() == old(State()).(selectedItem := selectedItem)
      ensures loadingTrace == old(loadingTrace)
      ensures currentUserId.None? ==> selectedItem.None?
      ensures currentUserId.Some? ==> selectedItem == ItemStore.GetItemById(repository.dao.State(), itemId, currentUserId.value)
    {
      if currentUserId.None? {
        selectedItem := None;
        return;
      }
      selectedItem := repository.GetItemById(itemId, currentUserId.value);
    }

    /** `clearSelectedItem()`. */
    method ClearSelectedItem()
      modifies this
      ensures State() == old(State()).(selectedItem := None)
      ensures loadingTrace == old(loadingTrace)
    {
      selectedItem := None;
    }

    /** `clearOperationStatus()`. */
    method ClearOperationStatus()
      modifies this
      ensures State() == old(State()).(operationStatus := None)
      ensures loadingTrace == old(loadingTrace)
    {
      operationStatus := None;
    }

    /** One snapshot of `allItems`: the current user's rows newest first, or
        the empty list with no user. */
    method AllItems() returns (r: seq<ItemEntity>)
      requires Valid()
      ensures currentUserId.None? ==> r == []
      ensures currentUserId.Some? ==> IsAllItemsResult(repository.dao.State(), currentUserId.value, r)
    {
      if currentUserId.None? {
        return [];
      }
      r := repository.GetAllItems(currentUserId.value);
    }

    /** One snapshot of `searchItems(query)`: with no user the empty list; for a
        blank query the same query as allItems; otherwise the name search. */
    method SearchItems(query: string) returns (r: seq<ItemEntity>)
      requires Valid()
      ensures currentUserId.None? ==> r == []
      ensures currentUserId.Some? && IsBlank(query) ==> IsAllItemsResult(repository.dao.State(), currentUserId.value, r)
      ensures currentUserId.Some? && !IsBlank(query) ==>
                IsSearchResult(repository.dao.State(), currentUserId.value, query, r)
    {
      if currentUserId.None? {
        return [];
      }
      if IsBlank(query) {
        r := repository.GetAllItems(currentUserId.value);
      } else {
        r := repository.SearchItemsByName(query, currentUserId.value);
      }
    }
  }

  /** The view model's copy of a repository result keeps its variant, payload
      and exception, and a repository result is never Loading. */
  lemma StatusIsVerbatim(t: Table, auth: Option<FirebaseUser>, outcome: ApiOutcome<ItemResponse>,
                         itemId: int, deleteOutcome: ApiOutcome<Unit>, now: int)
    ensures InsertItemStep(t, auth, outcome, now).result.IsTerminal()
    ensures UpdateItemStep(t, auth, outcome, now).result.IsTerminal()
    ensures DeleteItemStep(t, auth, itemId, deleteOutcome).result.IsTerminal()
    ensures ItemStatus(InsertItemStep(t, auth, outcome, now).result).IsTerminal()
    ensures ItemStatus(UpdateItemStep(t, auth, outcome, now).result).IsTerminal()
    ensures UnitStatus(DeleteItemStep(t, auth, itemId, deleteOutcome).result).IsTerminal()
    ensures var r := InsertItemStep(t, auth, outcome, now).result;
      r.Error? ==> ItemStatus(r) == Error(r.exception)
    ensures var r := UpdateItemStep(t, auth, outcome, now).result;
      r.Error? ==> ItemStatus(r) == Error(r.exception)
    ensures var r := DeleteItemStep(t, auth, itemId, deleteOutcome).result;
      r.Error? ==> UnitStatus(r) == Error(r.exception)
  {
  }
}
