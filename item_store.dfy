/** The semantics of the local `items` table, as pure functions on its state.
    The table is a map from the primary key `id` to the row; `userId` is not part
    of the key, so a single id names at most one row across ALL users. The DAO
    class (module ItemDaoModel) is proved against these functions. */
module ItemStore {
  import opened Wrappers
  import opened Text
  import opened ItemEntityModel

  /** The table's rows together with the AUTOINCREMENT counter (the largest id
      the table has ever held), which decides the next generated key. */
  datatype Table = Table(rows: map<int, ItemEntity>, lastId: int)

  /** A freshly created, empty table. */
  const EmptyTable: Table := Table(map[], 0)

  /** Every row is stored under its own id; id 0 is never stored (it is the
      "assign a key" marker); the counter covers every key. */
  predicate Valid(t: Table) {
    && t.lastId >= 0
    && UnassignedId !in t.rows
    && forall k :: k in t.rows ==> t.rows[k].id == k && k <= t.lastId
  }

  /** The rows owned by one user, still keyed by id. */
  ghost function Partition(rows: map<int, ItemEntity>, userId: string): map<int, ItemEntity> {
    map k | k in rows && rows[k].userId == userId :: rows[k]
  }

  // ------------------------------------------------------------- insert

  /** The key a REPLACE insert writes: the item's own id, or the next counter
      value when the id is 0 (Room binds `nullif(id, 0)` for an autoGenerate key). */
  function AssignedId(t: Table, item: ItemEntity): (id: int)
    ensures item.id != UnassignedId ==> id == item.id
    ensures item.id == UnassignedId ==> id == t.lastId + 1
  {
    if item.id == UnassignedId then t.lastId + 1 else item.id
  }

  /** `@Insert(onConflict = REPLACE) insertItem`: the row under the assigned key
      is whatever the argument says, whichever user owned the previous row with
      that key; nothing else changes. */
  function Upsert(t: Table, item: ItemEntity): (r: Table)
    ensures Valid(t) ==> Valid(r)
    ensures r.rows.Keys == t.rows.Keys + {AssignedId(t, item)}
    ensures r.rows[AssignedId(t, item)] == item.(id := AssignedId(t, item))
    ensures forall k :: k in t.rows && k != AssignedId(t, item) ==> r.rows[k] == t.rows[k]
    ensures Valid(t) && item.id == UnassignedId ==> AssignedId(t, item) !in t.rows
    ensures r.lastId >= t.lastId
  {
    var id := AssignedId(t, item);
    Table(t.rows[id := item.(id := id)], if id > t.lastId then id else t.lastId)
  }

  /** `insertItems`: REPLACE each element in list order. */
  function UpsertAll(t: Table, items: seq<ItemEntity>): (r: Table)
    ensures Valid(t) ==> Valid(r)
    ensures r.lastId >= t.lastId
    decreases |items|
  {
    if items == [] then t else UpsertAll(Upsert(t, items[0]), items[1..])
  }

  /** The last element of `items` whose id is `k`, if any. */
  function LastWithId(items: seq<ItemEntity>, k: int): (r: Option<ItemEntity>)
    ensures r.None? <==> forall i :: 0 <= i < |items| ==> items[i].id != k
    ensures r.Some? ==> exists i :: 0 <= i < |items| && items[i] == r.value &&
                          forall j :: i < j < |items| ==> items[j].id != k
    ensures r.Some? ==> r.value.id == k
    decreases |items|
  {
    if items == [] then None
    else
      var rest := LastWithId(items[1..], k);
      if rest.Some? then
        assert forall i :: 0 <= i < |items[1..]| ==> items[1..][i] == items[i + 1];
        rest
      else if items[0].id == k then Some(items[0])
      else None
  }

  /** After a bulk REPLACE, a non-zero key holds the LAST listed element with
      that key; a key no element names keeps its old row. */
  lemma {:induction false} UpsertAllAt(t: Table, items: seq<ItemEntity>, k: int)
    requires Valid(t) && k != UnassignedId
    ensures LastWithId(items, k).Some? ==>
              k in UpsertAll(t, items).rows && UpsertAll(t, items).rows[k] == LastWithId(items, k).value
    ensures LastWithId(items, k).None? && k in t.rows ==>
              k in UpsertAll(t, items).rows && UpsertAll(t, items).rows[k] == t.rows[k]
    decreases |items|
  {
    if items != [] {
      var t1 := Upsert(t, items[0]);
      UpsertAllAt(t1, items[1..], k);
      assert UpsertAll(t, items) == UpsertAll(t1, items[1..]);
      if LastWithId(items[1..], k).None? {
        if items[0].id == k {
          assert t1.rows[k] == items[0];
        } else if k in t.rows {
          assert AssignedId(t, items[0]) != k;
          assert t1.rows[k] == t.rows[k];
        }
      }
    }
  }

  /** A bulk REPLACE never brings back a key that is absent and already covered
      by the counter, unless an element names it: generated keys are always
      above the counter. */
  lemma {:induction false} UpsertAllAbsent(t: Table, items: seq<ItemEntity>, k: int)
    requires Valid(t) && k !in t.rows && k <= t.lastId
    requires LastWithId(items, k).None?
    ensures k !in UpsertAll(t, items).rows
    decreases |items|
  {
    if items != [] {
      var t1 := Upsert(t, items[0]);
      assert items[0].id != k;
      assert LastWithId(items[1..], k).None?;
      UpsertAllAbsent(t1, items[1..], k);
    }
  }

  // ------------------------------------------------------------- update

  /** `@Update updateItem`: overwrite the row whose key equals the item's id
      (owner included), or do nothing when no row has that id. It never inserts. */
  function Update(t: Table, item: ItemEntity): (r: Table)
    ensures Valid(t) ==> Valid(r)
    ensures r.rows.Keys == t.rows.Keys && r.lastId == t.lastId
    ensures item.id in t.rows ==> r.rows[item.id] == item
    ensures forall k :: k in t.rows && k != item.id ==> r.rows[k] == t.rows[k]
  {
    if item.id in t.rows then Table(t.rows[item.id := item], t.lastId) else t
  }

  /** The count `updateItem` returns: 1 when a row had the key, else 0. */
  function UpdateCount(t: Table, item: ItemEntity): (n: int)
    ensures n == 1 <==> item.id in t.rows
    ensures n == 0 <==> item.id !in t.rows
  {
    if item.id in t.rows then 1 else 0
  }

  // ------------------------------------------------------------- delete

  /** `@Delete deleteItem(item)`: remove the row whose key is the item's id,
      whoever owns it. */
  function DeleteByKey(t: Table, id: int): (r: Table)
    ensures Valid(t) ==> Valid(r)
    ensures r.rows.Keys == t.rows.Keys - {id} && r.lastId == t.lastId
    ensures forall k :: k in r.rows ==> r.rows[k] == t.rows[k]
  {
    Table(t.rows - {id}, t.lastId)
  }

  /** Whether `DELETE FROM items WHERE id = :itemId AND userId = :userId`
      matches a row. */
  predicate OwnedRow(t: Table, id: int, userId: string) {
    id in t.rows && t.rows[id].userId == userId
  }

  /** `deleteItemById(itemId, userId)`: remove the row only when both the id and
      the owner match. */
  function DeleteById(t: Table, id: int, userId: string): (r: Table)
    ensures Valid(t) ==> Valid(r)
    ensures OwnedRow(t, id, userId) ==> r.rows.Keys == t.rows.Keys - {id}
    ensures !OwnedRow(t, id, userId) ==> r == t
    ensures forall k :: k in r.rows ==> r.rows[k] == t.rows[k]
    ensures r.lastId == t.lastId
  {
    if OwnedRow(t, id, userId) then Table(t.rows - {id}, t.lastId) else t
  }

  /** The count `deleteItemById` returns. */
  function DeleteByIdCount(t: Table, id: int, userId: string): (n: int)
    ensures n == 1 <==> OwnedRow(t, id, userId)
    ensures n == 0 <==> !OwnedRow(t, id, userId)
  {
    if OwnedRow(t, id, userId) then 1 else 0
  }

  /** `deleteAllItemsForUser(userId)`: remove exactly that user's rows. */
  function DeleteAllForUser(t: Table, userId: string): (r: Table)
    ensures Valid(t) ==> Valid(r)
    ensures forall k :: k in r.rows <==> k in t.rows && t.rows[k].userId != userId
    ensures forall k :: k in r.rows ==> r.rows[k] == t.rows[k]
    ensures r.lastId == t.lastId
  {
    Table(map k | k in t.rows && t.rows[k].userId != userId :: t.rows[k], t.lastId)
  }

  // ------------------------------------------------------------- reads

  /** `getItemById(itemId, userId)`: the row with that key, only if it belongs
      to the user; otherwise null. */
  function GetItemById(t: Table, id: int, userId: string): (r: Option<ItemEntity>)
    ensures r.Some? <==> OwnedRow(t, id, userId)
    ensures r.Some? ==> r.value == t.rows[id] && r.value.userId == userId
  {
    if OwnedRow(t, id, userId) then Some(t.rows[id]) else None
  }

  /** `le` is a total preorder: total and transitive. */
  ghost predicate TotalPreorder(le: (ItemEntity, ItemEntity) -> bool) {
    && (forall a, b :: le(a, b) || le(b, a))
    && (forall a, b, c :: le(a, b) && le(b, c) ==> le(a, c))
  }

  ghost predicate SortedBy(le: (ItemEntity, ItemEntity) -> bool, s: seq<ItemEntity>) {
    forall i, j :: 0 <= i < j < |s| ==> le(s[i], s[j])
  }

  ghost predicate DistinctIds(s: seq<ItemEntity>) {
    forall i, j :: 0 <= i < j < |s| ==> s[i].id != s[j].id
  }

  /** `ORDER BY createdAt DESC`. */
  predicate CreatedAtDesc(a: ItemEntity, b: ItemEntity) {
    a.createdAt >= b.createdAt
  }

  /** `ORDER BY name ASC` under the BINARY collation. */
  predicate NameAsc(a: ItemEntity, b: ItemEntity) {
    LexLe(a.name, b.name)
  }

  lemma CreatedAtDescIsTotalPreorder()
    ensures TotalPreorder(CreatedAtDesc)
  {
  }

  lemma NameAscIsTotalPreorder()
    ensures TotalPreorder(NameAsc)
  {
    forall a, b ensures NameAsc(a, b) || NameAsc(b, a) {
      LexLeTotal(a.name, b.name);
    }
    forall a, b, c | NameAsc(a, b) && NameAsc(b, c) ensures NameAsc(a, c) {
      LexLeTransitive(a.name, b.name, c.name);
    }
  }

  /** What a `SELECT * FROM items WHERE <sel> ORDER BY <le>` may return: every
      selected row exactly once, nothing else, in `le` order. Rows that tie
      under `le` may come in any order, as SQL leaves it open. */
  ghost predicate IsQueryResult(rows: map<int, ItemEntity>, sel: ItemEntity -> bool,
                                le: (ItemEntity, ItemEntity) -> bool, r: seq<ItemEntity>) {
    && (forall i :: 0 <= i < |r| ==> r[i].id in rows && rows[r[i].id] == r[i] && sel(r[i]))
    && (forall k :: k in rows && sel(rows[k]) ==> rows[k] in r)
    && DistinctIds(r)
    && SortedBy(le, r)
  }

  /** The user filter of every query. */
  function OwnedBy(userId: string): ItemEntity -> bool {
    (e: ItemEntity) => e.userId == userId
  }

  /** `name LIKE '%' || :query || '%'`. */
  predicate NameMatches(name: string, query: string) {
    Like("%" + query + "%", name)
  }

  /** The user and name filter of `searchItemsByName`. */
  function OwnedAndNamed(userId: string, query: string): ItemEntity -> bool {
    (e: ItemEntity) => e.userId == userId && NameMatches(e.name, query)
  }

  /** `getAllItems(userId)`: the user's rows, newest first. */
  ghost predicate IsAllItemsResult(t: Table, userId: string, r: seq<ItemEntity>) {
    IsQueryResult(t.rows, OwnedBy(userId), CreatedAtDesc, r)
  }

  /** `searchItemsByName(query, userId)`: the user's rows whose name matches
      the LIKE pattern, by name ascending. */
  ghost predicate IsSearchResult(t: Table, userId: string, query: string, r: seq<ItemEntity>) {
    IsQueryResult(t.rows, OwnedAndNamed(userId, query), NameAsc, r)
  }

  /** Where `x` goes in the sorted `s`: after every element it must follow. */
  function InsertPos(s: seq<ItemEntity>, x: ItemEntity, le: (ItemEntity, ItemEntity) -> bool): (p: nat)
    ensures p <= |s|
    ensures forall i :: 0 <= i < p ==> !le(x, s[i])
    ensures p < |s| ==> le(x, s[p])
    decreases |s|
  {
    if s == [] || le(x, s[0]) then 0 else 1 + InsertPos(s[1..], x, le)
  }

  /** `s` with `x` spliced in at InsertPos. */
  function Splice(s: seq<ItemEntity>, x: ItemEntity, le: (ItemEntity, ItemEntity) -> bool): (s': seq<ItemEntity>)
    ensures |s'| == |s| + 1
    ensures forall i :: 0 <= i < |s'| ==>
              s'[i] == if i < InsertPos(s, x, le) then s[i] else if i == InsertPos(s, x, le) then x else s[i - 1]
  {
    var p := InsertPos(s, x, le);
    s[..p] + [x] + s[p..]
  }

  /** Splicing a new element in at InsertPos keeps a sorted sequence sorted. */
  lemma InsertKeepsSorted(s: seq<ItemEntity>, x: ItemEntity, le: (ItemEntity, ItemEntity) -> bool)
    requires TotalPreorder(le) && SortedBy(le, s)
    ensures SortedBy(le, Splice(s, x, le))
  {
    var p := InsertPos(s, x, le);
    var s' := Splice(s, x, le);
    forall i, j | 0 <= i < j < |s'| ensures le(s'[i], s'[j]) {
      if j < p {
      } else if j == p {
        assert !le(x, s[i]);
      } else if i < p {
        assert !le(x, s[i]);
        assert le(s[i], x);
        if p < |s| { assert le(x, s[p]); }
      } else if i == p {
        assert le(x, s[p]);
      } else {
      }
    }
  }

  /** A non-empty set of keys has a key to pick. */
  lemma SomeMember(s: set<int>)
    requires s != {}
    ensures exists k :: k in s
  {
    if forall k :: k !in s {
      assert false;
    }
  }

  /** A query result restricted to the keys in `done`: what a single pass over
      the table has produced once it has visited exactly those keys. */
  ghost predicate IsPartialResult(rows: map<int, ItemEntity>, done: set<int>, sel: ItemEntity -> bool,
                                  le: (ItemEntity, ItemEntity) -> bool, r: seq<ItemEntity>) {
    && (forall i :: 0 <= i < |r| ==> r[i].id in done && r[i].id in rows && rows[r[i].id] == r[i] && sel(r[i]))
    && (forall k :: k in done && k in rows && sel(rows[k]) ==> rows[k] in r)
    && DistinctIds(r)
    && SortedBy(le, r)
  }

  /** The elements of a splice are the old elements and the new one. */
  lemma SpliceMembers(s: seq<ItemEntity>, x: ItemEntity, le: (ItemEntity, ItemEntity) -> bool)
    ensures forall e :: e in Splice(s, x, le) <==> e == x || e in s
  {
    var p := InsertPos(s, x, le);
    assert Splice(s, x, le) == s[..p] + [x] + s[p..];
    assert s == s[..p] + s[p..];
  }

  /** Splicing in a row whose id is new keeps the ids distinct. */
  lemma SpliceDistinct(s: seq<ItemEntity>, x: ItemEntity, le: (ItemEntity, ItemEntity) -> bool)
    requires DistinctIds(s) && forall i :: 0 <= i < |s| ==> s[i].id != x.id
    ensures DistinctIds(Splice(s, x, le))
  {
    var s' := Splice(s, x, le);
    var p := InsertPos(s, x, le);
    forall i, j | 0 <= i < j < |s'| ensures s'[i].id != s'[j].id {
      if j < p || i > p {
      } else if i == p {
        assert s'[j] == s[j - 1];
      } else if j == p {
        assert s'[i] == s[i];
      } else {
        assert s'[i] == s[i] && s'[j] == s[j - 1];
      }
    }
  }

  /** Visiting one more key (and splicing its row in when it is selected) keeps
      the partial result a partial result. */
  lemma {:induction false} VisitKey(t: Table, done: set<int>, sel: ItemEntity -> bool,
                                    le: (ItemEntity, ItemEntity) -> bool, r: seq<ItemEntity>, k: int)
    requires Valid(t) && TotalPreorder(le) && k in t.rows && k !in done
    requires IsPartialResult(t.rows, done, sel, le, r)
    ensures IsPartialResult(t.rows, done + {k}, sel, le, if sel(t.rows[k]) then Splice(r, t.rows[k], le) else r)
  {
    if sel(t.rows[k]) {
      var x := t.rows[k];
      assert x.id == k;
      InsertKeepsSorted(r, x, le);
      SpliceMembers(r, x, le);
      SpliceDistinct(r, x, le);
      var r' := Splice(r, x, le);
      forall i | 0 <= i < |r'|
        ensures r'[i].id in done + {k} && r'[i].id in t.rows && t.rows[r'[i].id] == r'[i] && sel(r'[i])
      {
        assert r'[i] in r';
        if r'[i] != x {
          var m :| 0 <= m < |r| && r[m] == r'[i];
        }
      }
    }
  }

  /** Once every key is visited the partial result is a full query result. */
  lemma PartialResultComplete(rows: map<int, ItemEntity>, sel: ItemEntity -> bool,
                              le: (ItemEntity, ItemEntity) -> bool, r: seq<ItemEntity>)
    requires IsPartialResult(rows, rows.Keys, sel, le, r)
    ensures IsQueryResult(rows, sel, le, r)
  {
  }

  // ----------------------------------------------- the Table-level properties

  /** Two results of the same query contain the same rows: the query determines
      its answer up to the order of tied rows. */
  lemma QueryResultsAgree(rows: map<int, ItemEntity>, sel: ItemEntity -> bool,
                          le: (ItemEntity, ItemEntity) -> bool, r1: seq<ItemEntity>, r2: seq<ItemEntity>)
    requires IsQueryResult(rows, sel, le, r1) && IsQueryResult(rows, sel, le, r2)
    ensures forall e :: e in r1 <==> e in r2
  {
    forall e | e in r1 ensures e in r2 {
      var i :| 0 <= i < |r1| && r1[i] == e;
      assert rows[e.id] == e;
    }
    forall e | e in r2 ensures e in r1 {
      var i :| 0 <= i < |r2| && r2[i] == e;
      assert rows[e.id] == e;
    }
  }

  /** Partition isolation of every read: a user's query never yields a row of
      another user, and searching only yields rows whose name matches the query,
      all of them among the user's rows. */
  lemma ReadsAreIsolated(t: Table, userId: string, query: string, all: seq<ItemEntity>, found: seq<ItemEntity>)
    requires IsAllItemsResult(t, userId, all) && IsSearchResult(t, userId, query, found)
    ensures forall e :: e in all ==> e.userId == userId
    ensures forall e :: e in found ==> e.userId == userId && NameMatches(e.name, query)
    ensures forall e :: e in found ==> e in all
  {
    forall e | e in all ensures e.userId == userId {
      var i :| 0 <= i < |all| && all[i] == e;
      assert OwnedBy(userId)(all[i]);
    }
    forall e | e in found ensures e.userId == userId && NameMatches(e.name, query) && e in all {
      var i :| 0 <= i < |found| && found[i] == e;
      assert OwnedAndNamed(userId, query)(found[i]);
      assert OwnedBy(userId)(t.rows[e.id]);
    }
  }

  /** For a query with no `%` or `_`, the search returns exactly the user's rows
      whose name contains the query ignoring ASCII case. */
  lemma SearchIsCaseInsensitiveSubstring(t: Table, userId: string, query: string, found: seq<ItemEntity>)
    requires IsSearchResult(t, userId, query, found) && NoWildcards(query)
    ensures forall k :: k in t.rows ==>
              (t.rows[k] in found <==> t.rows[k].userId == userId && FoldedContains(t.rows[k].name, query))
  {
    forall k | k in t.rows
      ensures t.rows[k] in found <==> t.rows[k].userId == userId && FoldedContains(t.rows[k].name, query)
    {
      LikeContainsSpec(t.rows[k].name, query);
      if t.rows[k] in found {
        var i :| 0 <= i < |found| && found[i] == t.rows[k];
        assert OwnedAndNamed(userId, query)(found[i]);
      }
    }
  }

  /** A user-scoped delete never touches another user's partition, and removes
      from its own partition at most the one key. */
  lemma DeleteByIdIsolation(t: Table, id: int, userId: string, other: string)
    requires other != userId
    ensures Partition(DeleteById(t, id, userId).rows, other) == Partition(t.rows, other)
    ensures Partition(DeleteById(t, id, userId).rows, userId) == Partition(t.rows, userId) - {id}
  {
    var r := DeleteById(t, id, userId);
    assert Partition(r.rows, other).Keys == Partition(t.rows, other).Keys;
    assert Partition(r.rows, userId).Keys == Partition(t.rows, userId).Keys - {id};
  }

  /** Delete safety: a delete scoped to one user, aimed at a key another user
      owns, changes nothing, and that row stays readable by its owner. */
  lemma DeleteByIdSpares(t: Table, id: int, userId: string)
    requires id in t.rows && t.rows[id].userId != userId
    ensures DeleteByIdCount(t, id, userId) == 0
    ensures GetItemById(DeleteById(t, id, userId), id, t.rows[id].userId) == Some(t.rows[id])
  {
  }

  /** `deleteAllItemsForUser` empties that user's partition and leaves every
      other user's partition as it was. */
  lemma DeleteAllIsolation(t: Table, userId: string, other: string)
    requires other != userId
    ensures Partition(DeleteAllForUser(t, userId).rows, userId) == map[]
    ensures Partition(DeleteAllForUser(t, userId).rows, other) == Partition(t.rows, other)
  {
    var r := DeleteAllForUser(t, userId);
    assert Partition(r.rows, userId).Keys == {};
    assert Partition(r.rows, other).Keys == Partition(t.rows, other).Keys;
  }

  /** The mismatch between the global key and the user-scoped writes: a REPLACE
      insert of one user's item removes another user's row that has the same
      key from that user's partition (and the REPLACE gives it to the inserter). */
  lemma UpsertCrossesPartitions(t: Table, item: ItemEntity, other: string)
    requires other != item.userId
    ensures Partition(Upsert(t, item).rows, other) == Partition(t.rows, other) - {AssignedId(t, item)}
    ensures AssignedId(t, item) in Partition(Upsert(t, item).rows, item.userId)
  {
    var r := Upsert(t, item);
    assert Partition(r.rows, other).Keys == Partition(t.rows, other).Keys - {AssignedId(t, item)};
  }

  /** Likewise `@Update`: the row under the item's key is overwritten even when
      another user owns it, and then belongs to the item's user. */
  lemma UpdateCrossesPartitions(t: Table, item: ItemEntity)
    requires item.id in t.rows && t.rows[item.id].userId != item.userId
    ensures GetItemById(Update(t, item), item.id, t.rows[item.id].userId).None?
    ensures GetItemById(Update(t, item), item.id, item.userId) == Some(item)
  {
  }

  /** One concrete instance of the mismatch: user "A" can remove user "B"'s row
      5 by inserting an item with id 5, but cannot remove it by deleting id 5. */
  lemma ReplaceVersusScopedDelete()
    ensures var t := Table(map[5 := ItemEntity(5, "B", "b", None, 1, 0, 0)], 5);
            var a := ItemEntity(5, "A", "a", None, 1, 0, 0);
            && GetItemById(DeleteById(t, 5, "A"), 5, "B").Some?
            && GetItemById(Upsert(t, a), 5, "B").None?
  {
  }

  /** Keys are global: the table can never hold two rows with one id, whoever
      owns them; each row's owner is just a column of that row. */
  lemma OneRowPerId(t: Table, ka: int, kb: int)
    requires Valid(t)
    requires ka in t.rows && kb in t.rows && t.rows[ka].id == t.rows[kb].id
    ensures ka == kb && t.rows[ka] == t.rows[kb]
  {
  }
}
