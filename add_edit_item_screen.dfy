/** The add/edit item form: its remembered fields, the effects that fill and
    reset them, the digit filter on the quantity field, the submit decision
    (insert, update or nothing) and the reaction to the view model's
    operation status. */
module AddEditItemScreenModel {
  import opened Wrappers
  import opened Text
  import opened ItemEntityModel
  import opened ItemStore
  import opened ItemRepositoryModel
  import opened ItemViewModelModel

  /** `itemQuantity.toIntOrNull() ?: 0`. */
  function QuantityOf(field: string): (q: Int32)
    ensures ToIntOrNull(field).Some? ==> q == ToIntOrNull(field).value
    ensures ToIntOrNull(field).None? ==> q == 0
  {
    match ToIntOrNull(field)
    case Some(n) => n
    case None => 0
  }

  /** The form's fields. */
  datatype Form = Form(name: string, description: string, quantity: string,
                       isEditing: bool, current: Option<ItemEntity>)

  /** What pressing the button dispatches. */
  datatype Submission =
    | Rejected
    | Insert(name: string, description: Option<string>, quantity: Int32)
    | Update(item: ItemEntity)

  const BlankNameMessage: string := "Nama item tidak boleh kosong"

  /** The button's onClick: nothing for a blank name; an update of the loaded
      item when editing and it has loaded; otherwise an insert. */
  function SubmitDecision(f: Form): Submission {
    if IsBlank(f.name) then Rejected
    else if f.isEditing && f.current.Some? then
      Update(f.current.value.(name := f.name, description := BlankToNull(f.description), quantity := QuantityOf(f.quantity)))
    else Insert(f.name, BlankToNull(f.description), QuantityOf(f.quantity))
  }

  /** The submit rule in full: a blank name dispatches nothing; a loaded item
      in edit mode is updated with only its name, description and quantity
      replaced (id, owner and timestamps kept); in every other case, edit mode
      before the item has loaded included, an insert is dispatched. A blank
      description is sent as null. */
  lemma SubmitDecisionSpec(f: Form)
    ensures SubmitDecision(f).Rejected? <==> IsBlank(f.name)
    ensures SubmitDecision(f).Update? <==> !IsBlank(f.name) && f.isEditing && f.current.Some?
    ensures SubmitDecision(f).Insert? <==> !IsBlank(f.name) && !(f.isEditing && f.current.Some?)
    ensures SubmitDecision(f).Update? ==>
              var e := SubmitDecision(f).item;
              var c := f.current.value;
              && e.id == c.id && e.userId == c.userId && e.createdAt == c.createdAt && e.updatedAt == c.updatedAt
              && e.name == f.name && e.quantity == QuantityOf(f.quantity)
              && (e.description.None? <==> IsBlank(f.description))
              && (e.description.Some? ==> e.description.value == f.description)
    ensures SubmitDecision(f).Insert? ==>
              && SubmitDecision(f).name == f.name && SubmitDecision(f).quantity == QuantityOf(f.quantity)
              && (SubmitDecision(f).description.None? <==> IsBlank(f.description))
              && (SubmitDecision(f).description.Some? ==> SubmitDecision(f).description.value == f.description)
  {
  }

  /** A quantity field the user typed holds only digits, so the quantity sent
      is its value when it fits an Int and 0 otherwise (empty included); it is
      never negative. */
  lemma TypedQuantityIsNonNegative(field: string)
    requires AllDigits(field)
    ensures QuantityOf(field) >= 0
    ensures |field| > 0 && DigitsValue(field) <= MaxInt32 ==> QuantityOf(field) == DigitsValue(field)
    ensures field == [] || DigitsValue(field) > MaxInt32 ==> QuantityOf(field) == 0
  {
    DigitsParse(field);
  }

  /** The fields after the selected item is loaded into the form. */
  function Loaded(e: ItemEntity): Form {
    Form(e.name, e.description.GetOr(""), IntToString(e.quantity), true, Some(e))
  }

  /** Loading an item and submitting unchanged updates it to itself, except
      that a description that is empty or whitespace only comes back as null. */
  lemma {:induction false} LoadSubmitRoundTrip(e: ItemEntity)
    requires !IsBlank(e.name)
    ensures SubmitDecision(Loaded(e)) ==
              Update(e.(description := if e.description.Some? && IsBlank(e.description.value) then None else e.description))
  {
    IntToStringRoundTrip(e.quantity);
    if e.description.None? {
      assert IsBlank("");
    }
  }

  // ------------------------------------------------------ operation status

  /** What the screen does for one operation status: an optional message
      (toast or snackbar), whether it clears the status and whether it pops the
      screen. */
  datatype Reaction = Reaction(message: Option<string>, clearStatus: bool, popBack: bool)

  function SuccessMessage(isEditing: bool): string {
    if isEditing then "Item berhasil diperbarui!" else "Item berhasil ditambahkan!"
  }

  /** `"Error: ${status.exception.message ?: "Operasi gagal"}"`. */
  function ErrorMessage(e: Exception): string {
    "Error: " + e.message.GetOr("Operasi gagal")
  }

  /** `LaunchedEffect(operationStatus)`. */
  function StatusReaction(status: Option<ResultWrapper<OpValue>>, isEditing: bool): Reaction {
    match status
    case Some(Success(_)) => Reaction(Some(SuccessMessage(isEditing)), true, true)
    case Some(Error(e)) => Reaction(Some(ErrorMessage(e)), true, false)
    case Some(Loading) => Reaction(None, false, false)
    case None => Reaction(None, false, false)
  }

  /** Success clears the status and leaves the screen; Error shows the
      exception's message (or "Operasi gagal") and clears the status but stays;
      Loading and null do nothing. */
  lemma StatusReactionSpec(status: Option<ResultWrapper<OpValue>>, isEditing: bool)
    ensures StatusReaction(status, isEditing).popBack <==> status.Some? && status.value.Success?
    ensures StatusReaction(status, isEditing).clearStatus <==> status.Some? && status.value.IsTerminal()
    ensures StatusReaction(status, isEditing).message.None? <==> status.None? || status.value.Loading?
    ensures status.Some? && status.value.Error? ==>
              StartsWith(StatusReaction(status, isEditing).message.value, "Error: ")
  {
  }

  // ------------------------------------------------------------ the form

  class AddEditItemForm {
    var itemName: string
    var itemDescription: string
    var itemQuantity: string
    var isEditing: bool
    var currentItemState: Option<ItemEntity>

    function Fields(): Form
      reads this
    {
      Form(itemName, itemDescription, itemQuantity, isEditing, currentItemState)
    }

    /** The `remember`ed initial state: empty fields, add mode. */
    constructor ()
      ensures Fields() == Form("", "", "", false, None)
    {
      itemName := "";
      itemDescription := "";
      itemQuantity := "";
      isEditing := false;
      currentItemState := None;
    }

    /** `LaunchedEffect(itemId)`: an id enters edit mode and asks the view model
        for the item; no id resets the form to add mode and clears the
        selected item. On a malformed id `itemId.toInt()` throws and the
        exception escapes the effect; the model does not crash but reports
        `parsed` false and loads nothing. */
    method OnItemIdChanged(itemId: Option<string>, vm: ItemViewModel) returns (parsed: bool)
      requires vm.Valid()
      modifies this, vm
      ensures vm.Valid()
      ensures itemId.Some? ==>
                && Fields() == old(Fields()).(isEditing := true)
                && parsed == ToIntOrNull(itemId.value).Some?
                && (parsed ==> vm.State() == old(vm.State()).(selectedItem :=
                      if vm.currentUserId.Some?
                      then ItemStore.GetItemById(vm.repository.dao.State(), ToIntOrNull(itemId.value).value, vm.currentUserId.value)
                      else None))
                && (!parsed ==> vm.State() == old(vm.State()))
      ensures itemId.None? ==>
                Fields() == Form("", "", "", false, None) && parsed &&
                vm.State() == old(vm.State()).(selectedItem := None)
      ensures vm.loadingTrace == old(vm.loadingTrace)
    {
      parsed := true;
      if itemId.Some? {
        isEditing := true;
        var n := ToIntOrNull(itemId.value);
        if n.Some? {
          vm.LoadItemById(n.value);
        } else {
          parsed := false;
        }
      } else {
        isEditing := false;
        itemName := "";
        itemDescription := "";
        itemQuantity := "";
        currentItemState := None;
        vm.ClearSelectedItem();
      }
    }

    /** `LaunchedEffect(selectedItemFromVM)`: fill the form from the loaded item
        in edit mode; reset it in add mode. */
    method OnSelectedItemChanged(selected: Option<ItemEntity>, itemId: Option<string>)
      modifies this
      ensures old(isEditing) && selected.Some? ==> Fields() == Loaded(selected.value)
      ensures !old(isEditing) && itemId.None? ==> Fields() == Form("", "", "", false, None)
      ensures !(old(isEditing) && selected.Some?) && !(!old(isEditing) && itemId.None?) ==> Fields() == old(Fields())
    {
      if isEditing && selected.Some? {
        currentItemState := selected;
        itemName := selected.value.name;
        itemDescription := selected.value.description.GetOr("");
        itemQuantity := IntToString(selected.value.quantity);
      } else if !isEditing && itemId.None? {
        itemName := "";
        itemDescription := "";
        itemQuantity := "";
        currentItemState := None;
      }
    }

    method OnNameChange(text: string)
      modifies this
      ensures Fields() == old(Fields()).(name := text)
    {
      itemName := text;
    }

    method OnDescriptionChange(text: string)
      modifies this
      ensures Fields() == old(Fields()).(description := text)
    {
      itemDescription := text;
    }

    /** The quantity field's `onValueChange`: keep only the digits typed. */
    method OnQuantityChange(text: string)
      modifies this
      ensures Fields() == old(Fields()).(quantity := FilterDigits(text))
      ensures AllDigits(itemQuantity)
    {
      itemQuantity := FilterDigits(text);
    }

    /** The button's onClick: dispatch what SubmitDecision says to the view
        model (the API outcome and the clock are those of the dispatched call).
        The button is disabled while loading. */
    method Submit(vm: ItemViewModel, auth: Option<FirebaseUser>, outcome: ApiOutcome<ItemResponse>, now: int)
      returns (d: Submission)
      requires vm.Valid() && !vm.isLoading
      modifies vm, vm.repository, vm.repository.dao
      ensures vm.Valid()
      ensures d == SubmitDecision(Fields())
      ensures d.Rejected? ==>
                vm.State() == old(vm.State()) && vm.loadingTrace == old(vm.loadingTrace) &&
                vm.repository.dao.State() == old(vm.repository.dao.State()) &&
                vm.repository.calls == old(vm.repository.calls)
      ensures d.Insert? && old(vm.currentUserId).None? ==>
                vm.State() == old(vm.State()).(operationStatus := Some(Error(Fail(NotLoggedIn)))) &&
                vm.loadingTrace == old(vm.loadingTrace) &&
                vm.repository.dao.State() == old(vm.repository.dao.State()) &&
                vm.repository.calls == old(vm.repository.calls)
      ensures d.Insert? && old(vm.currentUserId).Some? ==>
                var step := InsertItemStep(old(vm.repository.dao.State()), auth, outcome, now);
                && vm.State() == old(vm.State()).(operationStatus := Some(ItemStatus(step.result)), isLoading := false)
                && vm.loadingTrace == old(vm.loadingTrace) + [true, false]
                && vm.repository.dao.State() == step.table
                && vm.repository.calls == old(vm.repository.calls) +
                     Sent(auth, (tok: string) => PostItem(tok, ItemCreateRequest(d.name, d.description, Some(d.quantity))))
      ensures d.Update? && !MayModify(old(vm.currentUserId), d.item) ==>
                vm.State() == old(vm.State()).(operationStatus := Some(Error(Fail(NotAllowed)))) &&
                vm.loadingTrace == old(vm.loadingTrace) &&
                vm.repository.dao.State() == old(vm.repository.dao.State()) &&
                vm.repository.calls == old(vm.repository.calls)
      ensures d.Update? && MayModify(old(vm.currentUserId), d.item) ==>
                var step := UpdateItemStep(old(vm.repository.dao.State()), auth, outcome, now);
                && vm.State() == old(vm.State()).(operationStatus := Some(ItemStatus(step.result)), isLoading := false)
                && vm.loadingTrace == old(vm.loadingTrace) + [true, false]
                && vm.repository.dao.State() == step.table
                && vm.repository.calls == old(vm.repository.calls) +
                     Sent(auth, (tok: string) => PutItem(tok, d.item.id, UpdateRequestFor(d.item)))
    {
      d := SubmitDecision(Fields());
      match d {
        case Rejected =>
        case Insert(name, description, quantity) =>
          vm.InsertItem(name, description, quantity, auth, outcome, now);
        case Update(item) =>
          vm.UpdateItem(item, auth, outcome, now);
      }
    }

    /** `LaunchedEffect(operationStatus)`, applied to the view model. */
    method HandleOperationStatus(vm: ItemViewModel) returns (r: Reaction)
      modifies vm
      ensures r == StatusReaction(old(vm.operationStatus), isEditing)
      ensures r.clearStatus ==> vm.State() == old(vm.State()).(operationStatus := None)
      ensures !r.clearStatus ==> vm.State() == old(vm.State())
      ensures vm.loadingTrace == old(vm.loadingTrace)
    {
      r := StatusReaction(vm.operationStatus, isEditing);
      if r.clearStatus {
        vm.ClearOperationStatus();
      }
    }
  }
}
