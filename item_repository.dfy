/** The sync repository: the local table is the source every read comes from;
    refresh replaces the signed-in user's rows with the server's list; create,
    update and delete go to the server first and touch the table only after a
    successful response. The identity provider and the REST API are inputs:
    each operation receives the signed-in user (with the outcome of fetching
    its ID token) and the outcome the API call would produce. */
module ItemRepositoryModel {
  import opened Wrappers
  import opened Text
  import opened ItemEntityModel
  import opened ItemStore
  import opened ItemDaoModel

  // ------------------------------------------------------------------ DTOs

  /** ItemResponse, the server's item. Server timestamps are kept as text and
      never read by the repository. */
  datatype ItemResponse = ItemResponse(
    id: Int32,
    userId: string,
    name: string,
    description: Option<string>,
    quantity: Int32,
    createdAt: Option<string>,
    updatedAt: Option<string>)

  /** ItemCreateRequest, the body of `POST items`. */
  datatype ItemCreateRequest = ItemCreateRequest(name: string, description: Option<string>, quantity: Option<Int32>)

  /** ItemUpdateRequest, the body of `PUT items/{id}`; every field is optional. */
  datatype ItemUpdateRequest = ItemUpdateRequest(name: Option<string>, description: Option<string>, quantity: Option<Int32>)

  // -------------------------------------------------------- the API as input

  /** What one Retrofit call yields: a successful response (with its possibly
      null body), a non-successful response (status code and reason phrase), or
      an exception thrown by the call. `Ok` stands for `response.isSuccessful`
      and `HttpError` for `!response.isSuccessful`, whatever number `code`
      holds: the repository branches on that flag, never on the code. The code
      is `response.code()`, a Kotlin Int. */
  datatype ApiOutcome<+T> = Ok(body: Option<T>) | HttpError(code: Int32, message: string) | Threw(exception: Exception)

  /** The requests the repository sends (`GET items`, `POST items`,
      `PUT items/{id}`, `DELETE items/{id}`); the token is the full
      Authorization header value. */
  datatype RemoteCall =
    | GetItems(token: string)
    | PostItem(token: string, createRequest: ItemCreateRequest)
    | PutItem(token: string, itemId: int, updateRequest: ItemUpdateRequest)
    | DeleteItemCall(token: string, itemId: int)

  // -------------------------------------------------- the identity provider

  /** The outcome of `getIdToken(false).await()`: a token result (whose token
      may be null) or an exception. */
  datatype TokenFetch = TokenIssued(token: Option<string>) | TokenFailed(exception: Exception)

  /** The signed-in Firebase user: its uid and what fetching its ID token gives. */
  datatype FirebaseUser = FirebaseUser(uid: string, idToken: TokenFetch)

  /** `getCurrentUserIdToken()`: the token of the current user, with no user, a
      null token and a failed fetch all giving null. */
  function CurrentUserIdToken(user: Option<FirebaseUser>): (r: Option<string>)
    ensures r.Some? <==> user.Some? && user.value.idToken.TokenIssued? && user.value.idToken.token.Some?
    ensures r.Some? ==> r == user.value.idToken.token
  {
    match user
    case None => None
    case Some(u) =>
      match u.idToken
      case TokenIssued(t) => t
      case TokenFailed(_) => None
  }

  const BearerPrefix: string := "Bearer "

  /** `getFormattedToken(idToken)`: the Authorization header for a token. */
  function FormatToken(idToken: Option<string>): (r: Option<string>)
    ensures r.Some? <==> idToken.Some?
    ensures r.Some? ==> StartsWith(r.value, BearerPrefix) && r.value[|BearerPrefix|..] == idToken.value
  {
    match idToken
    case None => None
    case Some(t) => Some(BearerPrefix + t)
  }

  /** The two credentials every remote operation needs. */
  datatype Session = Session(token: string, uid: string)

  /** The guard `formattedToken != null && currentFirebaseUid != null`. */
  function ResolveSession(user: Option<FirebaseUser>): Option<Session> {
    var token := FormatToken(CurrentUserIdToken(user));
    var uid := if user.Some? then Some(user.value.uid) else None;
    if token.Some? && uid.Some? then Some(Session(token.value, uid.value)) else None
  }

  /** There is a session exactly when a user is signed in and its token fetch
      produced a token; the header is "Bearer " + that token and the uid is the
      user's. A failed token fetch counts as no token. */
  lemma ResolveSessionSpec(user: Option<FirebaseUser>)
    ensures ResolveSession(user).Some? <==>
              user.Some? && user.value.idToken.TokenIssued? && user.value.idToken.token.Some?
    ensures ResolveSession(user).Some? ==>
              ResolveSession(user).value.token == BearerPrefix + user.value.idToken.token.value &&
              ResolveSession(user).value.uid == user.value.uid
    ensures user.Some? && user.value.idToken.TokenFailed? ==> ResolveSession(user).None?
  {
  }

  // --------------------------------------------------------------- messages

  const CreateUnauthenticated: string := "User tidak terautentikasi untuk membuat item."
  const UpdateUnauthenticated: string := "User tidak terautentikasi untuk update item."
  const DeleteUnauthenticated: string := "User tidak terautentikasi untuk hapus item."
  const CreateEmptyBody: string := "Gagal membuat item: Respons body kosong."
  const UpdateEmptyBody: string := "Gagal update item: Respons body kosong."
  const CreateServerFailure: string := "Gagal membuat item di server: "
  const UpdateServerFailure: string := "Gagal update item di server: "
  const DeleteServerFailure: string := "Gagal hapus item di server: "

  /** The message of a non-successful response: `"<prefix><code> - <message>"`. */
  function ServerFailure(prefix: string, code: Int32, message: string): string {
    prefix + IntToString(code) + " - " + message
  }

  /** A server failure message starts with its operation's prefix and carries
      the status code in decimal right after it. */
  lemma ServerFailureCarriesCode(prefix: string, code: Int32, message: string)
    ensures StartsWith(ServerFailure(prefix, code, message), prefix)
    ensures Contains(ServerFailure(prefix, code, message), IntToString(code))
    ensures ToIntOrNull(ServerFailure(prefix, code, message)[|prefix|..|prefix| + |IntToString(code)|]) == Some(code)
  {
    var m := ServerFailure(prefix, code, message);
    var c := IntToString(code);
    assert m[|prefix|..|prefix| + |c|] == c;
    assert OccursAt(m, c, |prefix|);
    IntToStringRoundTrip(code);
  }

  // ------------------------------------------------------- DTO -> entity

  /** The refresh mapping: server id, server user_id and the server's fields,
      with both timestamps set to the local clock. */
  function FromServer(dto: ItemResponse, now: int): (e: ItemEntity)
    ensures e.id == dto.id && e.userId == dto.userId
    ensures e.name == dto.name && e.description == dto.description && e.quantity == dto.quantity
    ensures e.createdAt == now && e.updatedAt == now
  {
    NewItemEntity(dto.userId, dto.name, dto.description, now, id := dto.id, quantity := dto.quantity,
                  createdAt := now, updatedAt := now)
  }

  /** `apiItems.map { ... }`. */
  function FromServerAll(dtos: seq<ItemResponse>, now: int): (es: seq<ItemEntity>)
    ensures |es| == |dtos|
    ensures forall i :: 0 <= i < |dtos| ==> es[i] == FromServer(dtos[i], now)
  {
    if dtos == [] then [] else [FromServer(dtos[0], now)] + FromServerAll(dtos[1..], now)
  }

  /** The entity insertItem and updateItem build from a server reply: the
      server id and fields, but the LOCAL uid rather than the reply's user_id.
      Both timestamps are the local clock (for updateItem `createdAt` is the
      constructor default, so the original creation time is not kept). */
  function FromReply(dto: ItemResponse, uid: string, now: int): (e: ItemEntity)
    ensures e.id == dto.id && e.userId == uid
    ensures e.name == dto.name && e.description == dto.description && e.quantity == dto.quantity
    ensures e.createdAt == now && e.updatedAt == now
  {
    NewItemEntity(uid, dto.name, dto.description, now, id := dto.id, quantity := dto.quantity)
  }

  // ----------------------------------------------------- the step functions

  /** What a step returns and the table it leaves. */
  datatype Step<+T> = Step(result: ResultWrapper<T>, table: Table)

  /** The table after `refreshItemsFromServer()`: only a successful response
      with a body changes it, by deleting the uid's rows and then inserting the
      mapped server list with REPLACE. */
  function RefreshTable(t: Table, user: Option<FirebaseUser>, outcome: ApiOutcome<seq<ItemResponse>>, now: int): Table {
    match ResolveSession(user)
    case None => t
    case Some(s) =>
      match outcome
      case Ok(Some(dtos)) => UpsertAll(DeleteAllForUser(t, s.uid), FromServerAll(dtos, now))
      case _ => t
  }

  function InsertItemStep(t: Table, user: Option<FirebaseUser>, outcome: ApiOutcome<ItemResponse>, now: int): Step<ItemEntity> {
    match ResolveSession(user)
    case None => Step(Error(Fail(CreateUnauthenticated)), t)
    case Some(s) =>
      match outcome
      case Ok(Some(dto)) => var e := FromReply(dto, s.uid, now); Step(Success(e), Upsert(t, e))
      case Ok(None) => Step(Error(Fail(CreateEmptyBody)), t)
      case HttpError(code, message) => Step(Error(Fail(ServerFailure(CreateServerFailure, code, message))), t)
      case Threw(e) => Step(Error(e), t)
  }

  function UpdateItemStep(t: Table, user: Option<FirebaseUser>, outcome: ApiOutcome<ItemResponse>, now: int): Step<ItemEntity> {
    match ResolveSession(user)
    case None => Step(Error(Fail(UpdateUnauthenticated)), t)
    case Some(s) =>
      match outcome
      case Ok(Some(dto)) => var e := FromReply(dto, s.uid, now); Step(Success(e), Update(t, e))
      case Ok(None) => Step(Error(Fail(UpdateEmptyBody)), t)
      case HttpError(code, message) => Step(Error(Fail(ServerFailure(UpdateServerFailure, code, message))), t)
      case Threw(e) => Step(Error(e), t)
  }

  function DeleteItemStep(t: Table, user: Option<FirebaseUser>, itemId: int, outcome: ApiOutcome<Unit>): Step<Unit> {
    match ResolveSession(user)
    case None => Step(Error(Fail(DeleteUnauthenticated)), t)
    case Some(s) =>
      match outcome
      case Ok(_) => Step(Success(Unit), DeleteById(t, itemId, s.uid))
      case HttpError(code, message) => Step(Error(Fail(ServerFailure(DeleteServerFailure, code, message))), t)
      case Threw(e) => Step(Error(e), t)
  }

  /** The request an operation sends: exactly one, and only with a session. */
  function Sent(user: Option<FirebaseUser>, call: string -> RemoteCall): (r: seq<RemoteCall>)
    ensures ResolveSession(user).None? <==> r == []
    ensures ResolveSession(user).Some? ==> r == [call(ResolveSession(user).value.token)]
  {
    match ResolveSession(user)
    case None => []
    case Some(s) => [call(s.token)]
  }

  // ------------------------------------------------------------ the class

  class ItemRepository {
    const dao: ItemDao
    /** Every request sent to the server so far. */
    ghost var calls: seq<RemoteCall>

    predicate Valid()
      reads this, dao
    {
      dao.Valid()
    }

    constructor (dao: ItemDao)
      ensures this.dao == dao && calls == []
    {
      this.dao := dao;
      calls := [];
    }

    /** `refreshItemsFromServer()`: never reports failure; only the table and
        the request log change. The delete and the insert are two separate
        DAO calls, in that order. */
    method RefreshItemsFromServer(user: Option<FirebaseUser>, outcome: ApiOutcome<seq<ItemResponse>>, now: int)
      requires Valid()
      modifies this, dao
      ensures Valid()
      ensures dao.State() == RefreshTable(old(dao.State()), user, outcome, now)
      ensures calls == old(calls) + Sent(user, (tok: string) => GetItems(tok))
    {
      var session := ResolveSession(user);
      if session.Some? {
        calls := calls + [GetItems(session.value.token)];
        match outcome {
          case Ok(body) =>
            if body.Some? {
              var entities := FromServerAll(body.value, now);
              dao.DeleteAllItemsForUser(session.value.uid);
              dao.InsertItems(entities);
            }
          case HttpError(_, _) =>
          case Threw(_) =>
        }
      }
    }

    /** `insertItem(request)`. */
    method InsertItem(request: ItemCreateRequest, user: Option<FirebaseUser>,
                      outcome: ApiOutcome<ItemResponse>, now: int) returns (result: ResultWrapper<ItemEntity>)
      requires Valid()
      modifies this, dao
      ensures Valid()
      ensures result == InsertItemStep(old(dao.State()), user, outcome, now).result
      ensures dao.State() == InsertItemStep(old(dao.State()), user, outcome, now).table
      ensures calls == old(calls) + Sent(user, (tok: string) => PostItem(tok, request))
    {
      var session := ResolveSession(user);
      if session.None? {
        return Error(Fail(CreateUnauthenticated));
      }
      calls := calls + [PostItem(session.value.token, request)];
      match outcome {
        case Ok(body) =>
          if body.Some? {
            var entity := FromReply(body.value, session.value.uid, now);
            var _ := dao.InsertItem(entity);
            result := Success(entity);
          } else {
            result := Error(Fail(CreateEmptyBody));
          }
        case HttpError(code, message) =>
          result := Error(Fail(ServerFailure(CreateServerFailure, code, message)));
        case Threw(e) =>
          result := Error(e);
      }
    }

    /** `updateItem(itemId, request)`. */
    method UpdateItem(itemId: int, request: ItemUpdateRequest, user: Option<FirebaseUser>,
                      outcome: ApiOutcome<ItemResponse>, now: int) returns (result: ResultWrapper<ItemEntity>)
      requires Valid()
      modifies this, dao
      ensures Valid()
      ensures result == UpdateItemStep(old(dao.State()), user, outcome, now).result
      ensures dao.State() == UpdateItemStep(old(dao.State()), user, outcome, now).table
      ensures calls == old(calls) + Sent(user, (tok: string) => PutItem(tok, itemId, request))
    {
      var session := ResolveSession(user);
      if session.None? {
        return Error(Fail(UpdateUnauthenticated));
      }
      calls := calls + [PutItem(session.value.token, itemId, request)];
      match outcome {
        case Ok(body) =>
          if body.Some? {
            var entity := FromReply(body.value, session.value.uid, now);
            var _ := dao.UpdateItem(entity);
            result := Success(entity);
          } else {
            result := Error(Fail(UpdateEmptyBody));
          }
        case HttpError(code, message) =>
          result := Error(Fail(ServerFailure(UpdateServerFailure, code, message)));
        case Threw(e) =>
          result := Error(e);
      }
    }

    /** `deleteItem(itemId)`. */
    method DeleteItem(itemId: int, user: Option<FirebaseUser>, outcome: ApiOutcome<Unit>) returns (result: ResultWrapper<Unit>)
      requires Valid()
      modifies this, dao
      ensures Valid()
      ensures result == DeleteItemStep(old(dao.State()), user, itemId, outcome).result
      ensures dao.State() == DeleteItemStep(old(dao.State()), user, itemId, outcome).table
      ensures calls == old(calls) + Sent(user, (tok: string) => DeleteItemCall(tok, itemId))
    {
      var session := ResolveSession(user);
      if session.None? {
        return Error(Fail(DeleteUnauthenticated));
      }
      calls := calls + [DeleteItemCall(session.value.token, itemId)];
      match outcome {
        case Ok(_) =>
          var _ := dao.DeleteItemById(itemId, session.value.uid);
          result := Success(Unit);
        case HttpError(code, message) =>
          result := Error(Fail(ServerFailure(DeleteServerFailure, code, message)));
        case Threw(e) =>
          result := Error(e);
      }
    }

    /** `getAllItems(userId)`: the DAO query, unchanged. */
    method GetAllItems(userId: string) returns (r: seq<ItemEntity>)
      requires Valid()
      ensures IsAllItemsResult(dao.State(), userId, r)
    {
      r := dao.GetAllItems(userId);
    }

    /** `getItemById(itemId, userId)`: the DAO query, unchanged. */
    method GetItemById(itemId: int, userId: string) returns (r: Option<ItemEntity>)
      requires Valid()
      ensures r == ItemStore.GetItemById(dao.State(), itemId, userId)
    {
      r := dao.GetItemById(itemId, userId);
    }

    /** `searchItemsByName(query, userId)`: the DAO query, unchanged. */
    method SearchItemsByName(query: string, userId: string) returns (r: seq<ItemEntity>)
      requires Valid()
      ensures IsSearchResult(dao.State(), userId, query, r)
    {
      r := dao.SearchItemsByName(query, userId);
    }

    /** `deleteAllItemsForUser(userId)`: local only, no request is sent. */
    method DeleteAllItemsForUser(userId: string)
      requires Valid()
      modifies dao
      ensures Valid()
      ensures dao.State() == DeleteAllForUser(old(dao.State()), userId)
    {
      dao.DeleteAllItemsForUser(userId);
    }
  }

  // -------------------------------------------------------------- lemmas

  /** With no token or no uid, every write returns its own "not authenticated"
      error, leaves the table as it was and (by Sent) sends nothing. */
  lemma UnauthenticatedWritesAreRejected(t: Table, user: Option<FirebaseUser>, itemId: int,
                                         created: ApiOutcome<ItemResponse>, deleted: ApiOutcome<Unit>, now: int)
    requires ResolveSession(user).None?
    ensures InsertItemStep(t, user, created, now) == Step(Error(Fail(CreateUnauthenticated)), t)
    ensures UpdateItemStep(t, user, created, now) == Step(Error(Fail(UpdateUnauthenticated)), t)
    ensures DeleteItemStep(t, user, itemId, deleted) == Step(Error(Fail(DeleteUnauthenticated)), t)
    ensures RefreshTable(t, user, Ok(None), now) == t
  {
  }

  /** insertItem succeeds exactly on a successful response with a body. Then
      it returns the server's item owned by the LOCAL uid, stamped now, and the
      table holds that entity under the server id (a server id of 0 would be
      replaced by a generated key); every other row is untouched. Otherwise the
      table is unchanged. */
  lemma InsertItemOutcome(t: Table, user: Option<FirebaseUser>, outcome: ApiOutcome<ItemResponse>, now: int)
    requires Valid(t)
    ensures var st := InsertItemStep(t, user, outcome, now);
      && (st.result.Success? <==> ResolveSession(user).Some? && outcome.Ok? && outcome.body.Some?)
      && (st.result.Success? ==>
            var dto := outcome.body.value;
            && st.result.value == FromReply(dto, ResolveSession(user).value.uid, now)
            && AssignedId(t, st.result.value) in st.table.rows
            && st.table.rows[AssignedId(t, st.result.value)] == st.result.value.(id := AssignedId(t, st.result.value))
            && (dto.id != UnassignedId ==> st.table.rows[dto.id] == st.result.value)
            && (forall k :: k in t.rows && k != AssignedId(t, st.result.value) ==> k in st.table.rows && st.table.rows[k] == t.rows[k]))
      && (!st.result.Success? ==> st.table == t)
  {
  }

  /** updateItem succeeds exactly on a successful response with a body. It
      then returns the server's item owned by the local uid, with createdAt
      re-stamped to now; the row with the server id is overwritten whoever owned
      it, and when no row has that id nothing is written although Success is
      still returned. Otherwise the table is unchanged. */
  lemma UpdateItemOutcome(t: Table, user: Option<FirebaseUser>, outcome: ApiOutcome<ItemResponse>, now: int)
    requires Valid(t)
    ensures var st := UpdateItemStep(t, user, outcome, now);
      && (st.result.Success? <==> ResolveSession(user).Some? && outcome.Ok? && outcome.body.Some?)
      && (st.result.Success? ==>
            var e := st.result.value;
            && e == FromReply(outcome.body.value, ResolveSession(user).value.uid, now)
            && e.createdAt == now
            && (e.id in t.rows ==> st.table.rows[e.id] == e)
            && (e.id !in t.rows ==> st.table == t)
            && st.table.rows.Keys == t.rows.Keys)
      && (!st.result.Success? ==> st.table == t)
  {
  }

  /** deleteItem succeeds exactly on a successful response; it then removes the
      row only if it belongs to the current uid. Otherwise the row stays. */
  lemma DeleteItemOutcome(t: Table, user: Option<FirebaseUser>, itemId: int, outcome: ApiOutcome<Unit>)
    ensures var st := DeleteItemStep(t, user, itemId, outcome);
      && (st.result.Success? <==> ResolveSession(user).Some? && outcome.Ok?)
      && (st.result.Success? ==> st.result.value == Unit && st.table == DeleteById(t, itemId, ResolveSession(user).value.uid))
      && (!st.result.Success? ==> st.table == t)
      && (ResolveSession(user).Some? && itemId in t.rows && t.rows[itemId].userId != ResolveSession(user).value.uid ==>
            itemId in st.table.rows && st.table.rows[itemId] == t.rows[itemId])
  {
  }

  /** A non-successful response is reported with a message that names the
      status code, for all three writes. */
  lemma ServerFailuresNameTheCode(t: Table, user: Option<FirebaseUser>, itemId: int, code: Int32, message: string, now: int)
    requires ResolveSession(user).Some?
    ensures InsertItemStep(t, user, HttpError(code, message), now).result ==
              Error(Fail(ServerFailure(CreateServerFailure, code, message)))
    ensures UpdateItemStep(t, user, HttpError(code, message), now).result ==
              Error(Fail(ServerFailure(UpdateServerFailure, code, message)))
    ensures DeleteItemStep(t, user, itemId, HttpError(code, message)).result ==
              Error(Fail(ServerFailure(DeleteServerFailure, code, message)))
    ensures Contains(ServerFailure(CreateServerFailure, code, message), IntToString(code))
    ensures Contains(ServerFailure(UpdateServerFailure, code, message), IntToString(code))
    ensures Contains(ServerFailure(DeleteServerFailure, code, message), IntToString(code))
  {
    ServerFailureCarriesCode(CreateServerFailure, code, message);
    ServerFailureCarriesCode(UpdateServerFailure, code, message);
    ServerFailureCarriesCode(DeleteServerFailure, code, message);
  }

  /** Refresh changes nothing unless it has a session and a successful response
      with a body. */
  lemma RefreshFailureKeepsTable(t: Table, user: Option<FirebaseUser>, outcome: ApiOutcome<seq<ItemResponse>>, now: int)
    requires ResolveSession(user).None? || !outcome.Ok? || outcome.body.None?
    ensures RefreshTable(t, user, outcome, now) == t
  {
  }

  /** After a successful refresh, each non-zero id the server listed holds the
      LAST server item with that id, mapped with its own user_id. */
  lemma {:induction false} RefreshInstallsServerItems(t: Table, uid: string, dtos: seq<ItemResponse>, now: int, k: int)
    requires Valid(t) && k != UnassignedId
    requires LastWithId(FromServerAll(dtos, now), k).Some?
    ensures var r := UpsertAll(DeleteAllForUser(t, uid), FromServerAll(dtos, now));
      k in r.rows && r.rows[k] == LastWithId(FromServerAll(dtos, now), k).value
  {
    UpsertAllAt(DeleteAllForUser(t, uid), FromServerAll(dtos, now), k);
  }

  /** A successful refresh keeps every other user's row whose id the server did
      not list, and drops every row of the uid whose id the server did not list
      (local-only rows do not survive). */
  lemma {:induction false} RefreshOutsideServerIds(t: Table, uid: string, dtos: seq<ItemResponse>, now: int, k: int)
    requires Valid(t) && k in t.rows
    requires forall i :: 0 <= i < |dtos| ==> dtos[i].id != k
    ensures var r := UpsertAll(DeleteAllForUser(t, uid), FromServerAll(dtos, now));
      && (t.rows[k].userId != uid ==> k in r.rows && r.rows[k] == t.rows[k])
      && (t.rows[k].userId == uid ==> k !in r.rows)
  {
    var es := FromServerAll(dtos, now);
    var d := DeleteAllForUser(t, uid);
    assert LastWithId(es, k).None?;
    assert k != UnassignedId;
    if t.rows[k].userId != uid {
      UpsertAllAt(d, es, k);
    } else {
      UpsertAllAbsent(d, es, k);
    }
  }

  /** Partition isolation of refresh, at the level of one key: another user's
      row can only be lost through an id the server listed. */
  lemma RefreshSparesOthers(t: Table, user: Option<FirebaseUser>, outcome: ApiOutcome<seq<ItemResponse>>, now: int, k: int)
    requires Valid(t) && k in t.rows && ResolveSession(user).Some?
    requires t.rows[k].userId != ResolveSession(user).value.uid
    requires outcome.Ok? && outcome.body.Some? ==> forall i :: 0 <= i < |outcome.body.value| ==> outcome.body.value[i].id != k
    ensures k in RefreshTable(t, user, outcome, now).rows
    ensures RefreshTable(t, user, outcome, now).rows[k] == t.rows[k]
  {
    if outcome.Ok? && outcome.body.Some? {
      RefreshOutsideServerIds(t, ResolveSession(user).value.uid, outcome.body.value, now, k);
    }
  }

  /** The REPLACE of refresh crosses partitions: a server item whose id equals
      another user's local row takes that row over. */
  lemma RefreshCanTakeOverForeignRow()
    ensures var other := ItemEntity(7, "B", "lamp", None, 1, 0, 0);
      var t := Table(map[7 := other], 7);
      var user := Some(FirebaseUser("A", TokenIssued(Some("tok"))));
      var dto := ItemResponse(7, "A", "desk", None, 2, None, None);
      var r := RefreshTable(t, user, Ok(Some([dto])), 5);
      7 in r.rows && r.rows[7].userId == "A" && r.rows[7] != other
  {
    var other := ItemEntity(7, "B", "lamp", None, 1, 0, 0);
    var t := Table(map[7 := other], 7);
    var dto := ItemResponse(7, "A", "desk", None, 2, None, None);
    var es := FromServerAll([dto], 5);
    assert es == [FromServer(dto, 5)];
    var d := DeleteAllForUser(t, "A");
    assert d.rows == t.rows;
    assert UpsertAll(d, es) == UpsertAll(Upsert(d, es[0]), []);
  }
}
