/**
 * The to-do items held by the browser-side store of `TodoListCard`, and the
 * three list rules its callbacks apply: append a new item, replace the item
 * with a given id, remove the item with a given id. Each rule builds a new list
 * from the old one with spread, `findIndex` and `slice`; none changes the old list.
 */
module TodoItems {
  import opened JsArray

  type Id = string

  datatype Item = Item(id: Id, name: string, completed: bool)

  /** No two items share an id: the invariant the server keeps for the collection. */
  predicate UniqueIds(items: seq<Item>) {
    forall i, j :: 0 <= i < j < |items| ==> items[i].id != items[j].id
  }

  /** No item has the given id. */
  predicate Absent(items: seq<Item>, id: Id) {
    forall j :: 0 <= j < |items| ==> items[j].id != id
  }

  /**
   * `items.findIndex(i => i.id === id)`: the first index whose item has the id,
   * or -1 when no item has it.
   */
  function FirstIndex(items: seq<Item>, id: Id): (k: int)
    ensures -1 <= k < |items|
    ensures k == -1 <==> Absent(items, id)
    ensures 0 <= k ==> items[k].id == id && forall j :: 0 <= j < k ==> items[j].id != id
  {
    if |items| == 0 then -1
    else if items[0].id == id then 0
    else
      var k := FirstIndex(items[1..], id);
      if k == -1 then -1 else k + 1
  }

  /** `[...items, newItem]` (onNewItem). */
  function Append(items: seq<Item>, newItem: Item): (r: seq<Item>)
    ensures |r| == |items| + 1
    ensures r[..|items|] == items
    ensures r[|items|] == newItem
  {
    items + [newItem]
  }

  /**
   * onItemUpdate: `[...items.slice(0, index), item, ...items.slice(index + 1)]`
   * where `index` is the first position of `item.id`. When the id is present the
   * item there is replaced and every other position is kept.
   */
  function UpdateById(items: seq<Item>, item: Item): (r: seq<Item>)
    ensures var k := FirstIndex(items, item.id);
      0 <= k ==>
        && |r| == |items|
        && r[k] == item
        && forall j :: 0 <= j < |items| && j != k ==> r[j] == items[j]
  {
    var index := FirstIndex(items, item.id);
    Slice(items, 0, index) + [item] + SliceFrom(items, index + 1)
  }

  /**
   * onItemRemoval: `[...items.slice(0, index), ...items.slice(index + 1)]` where
   * `index` is the first position of `item.id`. When the id is present the list
   * loses exactly that position and keeps the order of the rest.
   */
  function RemoveById(items: seq<Item>, item: Item): (r: seq<Item>)
    ensures var k := FirstIndex(items, item.id);
      0 <= k ==>
        && |r| == |items| - 1
        && r == items[..k] + items[k + 1..]
  {
    var index := FirstIndex(items, item.id);
    Slice(items, 0, index) + SliceFrom(items, index + 1)
  }

  /**
   * With the id absent `findIndex` gives -1, so `slice(0, -1)` drops the last
   * item and `slice(0)` copies the whole list: the update is not a no-op.
   */
  lemma UpdateAbsent(items: seq<Item>, item: Item)
    requires Absent(items, item.id)
    ensures UpdateById(items, item) == DropLast(items) + [item] + items
  {
    SliceDropsLast(items);
  }

  /** With the id absent, removal gives every item but the last followed by the whole list. */
  lemma RemoveAbsent(items: seq<Item>, item: Item)
    requires Absent(items, item.id)
    ensures RemoveById(items, item) == DropLast(items) + items
  {
    SliceDropsLast(items);
  }

  /** With two or more items, removing an absent id duplicates ids: the first item appears twice. */
  lemma RemoveAbsentBreaksUnique(items: seq<Item>, item: Item)
    requires Absent(items, item.id)
    requires |items| >= 2
    ensures !UniqueIds(RemoveById(items, item))
  {
    RemoveAbsent(items, item);
    var r := RemoveById(items, item);
    assert r[0] == items[0] && r[|items| - 1] == items[0];
  }

  /** In a list with unique ids, the item at k is the one `findIndex` finds for its id. */
  lemma FirstIndexOfUnique(items: seq<Item>, k: nat)
    requires UniqueIds(items)
    requires k < |items|
    ensures FirstIndex(items, items[k].id) == k
  {
  }

  /**
   * Update and removal act at the first match only: every later position, in
   * particular a later item with the same id, is kept (shifted down by one
   * after a removal).
   */
  lemma LaterPositionsUntouched(items: seq<Item>, item: Item, j: nat)
    requires 0 <= FirstIndex(items, item.id) < j < |items|
    ensures UpdateById(items, item)[j] == items[j]
    ensures RemoveById(items, item)[j - 1] == items[j]
  {
  }

  /** `findIndex` gives k exactly when k holds the id and no earlier index does. */
  lemma FirstIndexAt(items: seq<Item>, id: Id, k: nat)
    requires k < |items| && items[k].id == id
    requires forall j :: 0 <= j < k ==> items[j].id != id
    ensures FirstIndex(items, id) == k
  {
  }

  /** After an update the replaced item is still the first with its id. */
  lemma UpdateKeepsFirstIndex(items: seq<Item>, item: Item)
    requires !Absent(items, item.id)
    ensures FirstIndex(UpdateById(items, item), item.id) == FirstIndex(items, item.id)
  {
    var k, r := FirstIndex(items, item.id), UpdateById(items, item);
    FirstIndexAt(r, item.id, k);
  }

  /**
   * Applying the same update twice is the same as applying it once, whether
   * or not the id was present: after an absent-id update the inserted item is
   * the first with its id, and the second update replaces it by itself.
   */
  lemma UpdateIdempotent(items: seq<Item>, item: Item)
    ensures UpdateById(UpdateById(items, item), item) == UpdateById(items, item)
  {
    if Absent(items, item.id) {
      UpdateAbsent(items, item);
      var m, r := |DropLast(items)|, UpdateById(items, item);
      assert r[m] == item;
      FirstIndexAt(r, item.id, m);
    } else {
      UpdateKeepsFirstIndex(items, item);
    }
  }

  /**
   * Removing an item that was just updated removes it as if it had not been
   * updated, whether or not the id was present.
   */
  lemma RemoveAfterUpdate(items: seq<Item>, item: Item)
    ensures RemoveById(UpdateById(items, item), item) == RemoveById(items, item)
  {
    var r := UpdateById(items, item);
    if Absent(items, item.id) {
      UpdateAbsent(items, item);
      RemoveAbsent(items, item);
      var m := |DropLast(items)|;
      assert r[m] == item;
      FirstIndexAt(r, item.id, m);
      assert r[..m] == DropLast(items);
      assert r[m + 1..] == items;
    } else {
      var k := FirstIndex(items, item.id);
      UpdateKeepsFirstIndex(items, item);
      assert r[..k] == items[..k];
      assert r[k + 1..] == items[k + 1..];
    }
  }

  /** Removal undoes the append of an item whose id was not yet in the list. */
  lemma RemoveUndoesAppend(items: seq<Item>, newItem: Item)
    requires Absent(items, newItem.id)
    ensures RemoveById(Append(items, newItem), newItem) == items
  {
    var r := Append(items, newItem);
    assert r[..|items|] == items;
    FirstIndexAt(r, newItem.id, |items|);
  }

  /** Updating a just-appended item is the same as appending the updated one. */
  lemma UpdateAfterAppend(items: seq<Item>, newItem: Item, item: Item)
    requires Absent(items, newItem.id)
    requires item.id == newItem.id
    ensures UpdateById(Append(items, newItem), item) == Append(items, item)
  {
    var r := Append(items, newItem);
    FirstIndexAt(r, newItem.id, |items|);
    assert r[..|items|] == items;
  }

  /** Appending keeps the ids unique exactly when the new id is not yet present. */
  lemma AppendKeepsUnique(items: seq<Item>, newItem: Item)
    requires UniqueIds(items)
    ensures UniqueIds(Append(items, newItem)) <==> Absent(items, newItem.id)
  {
    var r := Append(items, newItem);
    if !Absent(items, newItem.id) {
      var j :| 0 <= j < |items| && items[j].id == newItem.id;
      assert r[j].id == r[|items|].id;
    }
  }

  /** Replacing an item by one with the same id keeps the ids unique. */
  lemma UpdateKeepsUnique(items: seq<Item>, item: Item)
    requires UniqueIds(items)
    requires !Absent(items, item.id)
    ensures UniqueIds(UpdateById(items, item))
  {
    var k, r := FirstIndex(items, item.id), UpdateById(items, item);
    forall i, j | 0 <= i < j < |r| ensures r[i].id != r[j].id {
      assert r[i].id == items[i].id && r[j].id == items[j].id;
    }
  }

  /** Removing an item that is present keeps the ids unique. */
  lemma RemoveKeepsUnique(items: seq<Item>, item: Item)
    requires UniqueIds(items)
    requires !Absent(items, item.id)
    ensures UniqueIds(RemoveById(items, item))
  {
    var k, r := FirstIndex(items, item.id), RemoveById(items, item);
    forall i, j | 0 <= i < j < |r| ensures r[i].id != r[j].id {
      var i', j' := if i < k then i else i + 1, if j < k then j else j + 1;
      assert r[i] == items[i'] && r[j] == items[j'];
    }
  }
}
