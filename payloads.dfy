/**
 * The request bodies `ItemDisplay` sends with `PUT /items/:id`, and the test
 * `AddItemForm` uses to disable its add button.
 */
module Payloads {
  import opened TodoItems

  /** The JSON body `{name, completed}` of a PUT request. */
  datatype PutBody = PutBody(name: string, completed: bool)

  /** toggleCompletion: the same name, the completion flag negated. */
  function ToggleBody(item: Item): (b: PutBody)
    ensures b.name == item.name
    ensures b.completed == !item.completed
  {
    PutBody(item.name, !item.completed)
  }

  /** saveEdit: the edited name, the completion flag kept. */
  function SaveEditBody(item: Item, editedName: string): (b: PutBody)
    ensures b.name == editedName
    ensures b.completed == item.completed
  {
    PutBody(editedName, item.completed)
  }

  /**
   * The item the server answers a PUT with, assuming it overwrites both
   * supplied fields and keeps the id. The persistence layer is not part of
   * this model; this is the contract its update is taken to follow.
   */
  function ApplyPut(item: Item, body: PutBody): (r: Item)
    ensures r.id == item.id
    ensures r.name == body.name && r.completed == body.completed
  {
    Item(item.id, body.name, body.completed)
  }

  /** `disabled={!newItem.length}`: the add button is disabled exactly for an empty draft. */
  function AddDisabled(draft: string): (disabled: bool)
    ensures disabled <==> draft == ""
  {
    |draft| == 0
  }

  /** Toggling an item twice gives the item back. */
  lemma ToggleTwice(item: Item)
    ensures var once := ApplyPut(item, ToggleBody(item));
      ApplyPut(once, ToggleBody(once)) == item
  {
  }

  /** Saving an edit that kept the name changes nothing. */
  lemma SaveUnchangedName(item: Item)
    ensures ApplyPut(item, SaveEditBody(item, item.name)) == item
  {
  }

  /**
   * Reconciling the store with the answer to a toggle of the item at k (the
   * first with its id) flips that item's flag and nothing else.
   */
  lemma ToggleInList(items: seq<Item>, k: nat)
    requires k < |items|
    requires FirstIndex(items, items[k].id) == k
    ensures var r := UpdateById(items, ApplyPut(items[k], ToggleBody(items[k])));
      && |r| == |items|
      && r[k] == items[k].(completed := !items[k].completed)
      && forall j :: 0 <= j < |items| && j != k ==> r[j] == items[j]
  {
  }

  /**
   * Reconciling the store with the answer to a saved edit of the item at k
   * renames that item and keeps its flag and every other item.
   */
  lemma SaveEditInList(items: seq<Item>, k: nat, editedName: string)
    requires k < |items|
    requires FirstIndex(items, items[k].id) == k
    ensures var r := UpdateById(items, ApplyPut(items[k], SaveEditBody(items[k], editedName)));
      && |r| == |items|
      && r[k] == items[k].(name := editedName)
      && forall j :: 0 <= j < |items| && j != k ==> r[j] == items[j]
  {
  }
}
