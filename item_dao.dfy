/** The Room DAO over the `items` table, as an object whose table it updates in
    place. Each write is proved to leave exactly the state the ItemStore
    function for that statement describes; each query is proved to return a
    result that the ItemStore predicate for that SELECT admits. */
module ItemDaoModel {
  import opened Wrappers
  import opened ItemEntityModel
  import opened ItemStore

  class ItemDao {
    /** The rows of `items`, keyed by the primary key `id`. */
    var rows: map<int, ItemEntity>
    /** The AUTOINCREMENT counter of the table. */
    var lastId: int

    function State(): Table
      reads this
    {
      Table(rows, lastId)
    }

    predicate Valid()
      reads this
    {
      ItemStore.Valid(State())
    }

    /** A new database holds an empty table. */
    constructor ()
      ensures Valid() && State() == EmptyTable
    {
      rows := map[];
      lastId := 0;
    }

    /** `insertItem(item)` with REPLACE; returns the row id written. */
    method InsertItem(item: ItemEntity) returns (rowId: int)
      requires Valid()
      modifies this
      ensures Valid()
      ensures rowId == AssignedId(old(State()), item)
      ensures State() == Upsert(old(State()), item)
    {
      rowId := if item.id == UnassignedId then lastId + 1 else item.id;
      rows := rows[rowId := item.(id := rowId)];
      if rowId > lastId {
        lastId := rowId;
      }
    }

    /** `insertItems(items)` with REPLACE, element by element in list order. */
    method InsertItems(items: seq<ItemEntity>)
      requires Valid()
      modifies this
      ensures Valid()
      ensures State() == UpsertAll(old(State()), items)
    {
      var i := 0;
      while i < |items|
        invariant 0 <= i <= |items|
        invariant Valid()
        invariant UpsertAll(State(), items[i..]) == UpsertAll(old(State()), items)
      {
        assert items[i..][1..] == items[i + 1..];
        var _ := InsertItem(items[i]);
        i := i + 1;
      }
    }

    /** `updateItem(item)`: returns the number of rows updated. */
    method UpdateItem(item: ItemEntity) returns (count: int)
      requires Valid()
      modifies this
      ensures Valid()
      ensures count == UpdateCount(old(State()), item)
      ensures State() == Update(old(State()), item)
    {
      if item.id in rows {
        rows := rows[item.id := item];
        count := 1;
      } else {
        count := 0;
      }
    }

    /** `deleteItem(item)`: delete by primary key only; returns the count. */
    method DeleteItem(item: ItemEntity) returns (count: int)
      requires Valid()
      modifies this
      ensures Valid()
      ensures count == (if item.id in old(rows) then 1 else 0)
      ensures State() == DeleteByKey(old(State()), item.id)
    {
      count := if item.id in rows then 1 else 0;
      rows := rows - {item.id};
    }

    /** `deleteItemById(itemId, userId)`; returns the count. */
    method DeleteItemById(itemId: int, userId: string) returns (count: int)
      requires Valid()
      modifies this
      ensures Valid()
      ensures count == DeleteByIdCount(old(State()), itemId, userId)
      ensures State() == DeleteById(old(State()), itemId, userId)
    {
      if itemId in rows && rows[itemId].userId == userId {
        rows := rows - {itemId};
        count := 1;
      } else {
        count := 0;
      }
    }

    /** `deleteAllItemsForUser(userId)`. */
    method DeleteAllItemsForUser(userId: string)
      requires Valid()
      modifies this
      ensures Valid()
      ensures State() == DeleteAllForUser(old(State()), userId)
    {
      rows := map k | k in rows && rows[k].userId != userId :: rows[k];
    }

    /** `getAllItems(userId)`, one snapshot of the Flow. */
    method GetAllItems(userId: string) returns (r: seq<ItemEntity>)
      requires Valid()
      ensures IsAllItemsResult(State(), userId, r)
    {
      CreatedAtDescIsTotalPreorder();
      r := Select(OwnedBy(userId), CreatedAtDesc);
    }

    /** `getItemById(itemId, userId)`, one snapshot of the Flow. */
    method GetItemById(itemId: int, userId: string) returns (r: Option<ItemEntity>)
      requires Valid()
      ensures r == ItemStore.GetItemById(State(), itemId, userId)
    {
      if itemId in rows && rows[itemId].userId == userId {
        r := Some(rows[itemId]);
      } else {
        r := None;
      }
    }

    /** `searchItemsByName(query, userId)`, one snapshot of the Flow. */
    method SearchItemsByName(query: string, userId: string) returns (r: seq<ItemEntity>)
      requires Valid()
      ensures IsSearchResult(State(), userId, query, r)
    {
      NameAscIsTotalPreorder();
      r := Select(OwnedAndNamed(userId, query), NameAsc);
    }

    /** Evaluates `SELECT * FROM items WHERE sel ORDER BY le`: one pass over the
        keys, inserting each selected row at its place in the ordered result. */
    method Select(sel: ItemEntity -> bool, le: (ItemEntity, ItemEntity) -> bool) returns (r: seq<ItemEntity>)
      requires Valid() && TotalPreorder(le)
      ensures IsQueryResult(rows, sel, le, r)
    {
      r := [];
      var todo := rows.Keys;
      while todo != {}
        invariant todo <= rows.Keys
        invariant IsPartialResult(rows, rows.Keys - todo, sel, le, r)
        decreases todo
      {
        SomeMember(todo);
        var k :| k in todo;
        VisitKey(State(), rows.Keys - todo, sel, le, r, k);
        assert rows.Keys - todo + {k} == rows.Keys - (todo - {k});
        todo := todo - {k};
        if sel(rows[k]) {
          r := Splice(r, rows[k], le);
        }
      }
      PartialResultComplete(rows, sel, le, r);
    }
  }
}
