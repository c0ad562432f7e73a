/**
 * The client item store of `TodoListCard`: one state cell `items` that is
 * `null` until the initial `GET /items` answers, and that each callback then
 * replaces as a whole with `setItems`.
 */
module TodoStore {
  import opened Options
  import opened Json
  import opened TodoItems
  import opened DeleteAllRoute
  import opened Payloads

  /** How the `DELETE /items` request made by onDeleteAllItems ended in the browser. */
  datatype DeleteAllOutcome =
    | Received(body: ResponseBody)  // the response body parsed as a JSON object, whatever the status
    | Rejected                      // the fetch or the `.json()` parse rejected: the `.catch` branch

  /** The response asks the client to clear its list: a body whose `success` is truthy. */
  predicate ClearsList(outcome: DeleteAllOutcome): (clears: bool)
    ensures clears ==> outcome.Received?
    ensures outcome.Received? ==> (clears <==> Truthy(outcome.body.success))
  {
    outcome.Received? && Truthy(outcome.body.success)
  }

  /**
   * The state after onDeleteAllItems: a truthy `success` replaces the list by
   * the empty list; any other body and a rejection only log, leaving it as it was.
   */
  function ReconcileDeleteAll(items: seq<Item>, outcome: DeleteAllOutcome): (r: seq<Item>)
    ensures ClearsList(outcome) ==> r == []
    ensures !ClearsList(outcome) ==> r == items
    ensures outcome.Rejected? ==> r == items
  {
    if ClearsList(outcome) then [] else items
  }

  /** What the card shows: the loading text, or the list with or without the "No Tasks yet" line. */
  datatype CardView =
    | LoadingText
    | ListView(noTasksMessage: bool, rows: seq<Item>)

  function ViewOf(items: Option<seq<Item>>): (v: CardView)
    ensures v == LoadingText <==> items == None
    ensures v.ListView? ==> v.rows == items.value
    ensures v.ListView? ==> (v.noTasksMessage <==> |items.value| == 0)
  {
    match items
    case None => LoadingText
    case Some(s) => ListView(|s| == 0, s)
  }

  /** Clearing twice leaves the same state as clearing once, whatever the two responses. */
  lemma DeleteAllIdempotent(items: seq<Item>, first: DeleteAllOutcome, second: DeleteAllOutcome)
    requires ClearsList(first)
    ensures ReconcileDeleteAll(ReconcileDeleteAll(items, first), second) == []
  {
  }

  /**
   * Client and route together: the store is cleared exactly when the
   * persistence layer's delete resolved; after a throw the 500 body leaves
   * the store unchanged.
   */
  lemma DeleteAllThroughRoute(items: seq<Item>, g: GatewayResult)
    ensures ReconcileDeleteAll(items, Received(HandleDeleteAll(g).body))
         == if g.Resolved? then [] else items
  {
  }

  /** Arrays and objects are truthy, so even `{success: []}` or `{success: {}}` clears the list. */
  lemma EmptyContainerSuccessClears(items: seq<Item>)
    ensures ReconcileDeleteAll(items, Received(ResponseBody(Arr([]), Undefined))) == []
    ensures ReconcileDeleteAll(items, Received(ResponseBody(Obj([]), Undefined))) == []
  {
  }

  /** After a successful delete-all the card shows the "No Tasks yet" line and no rows. */
  lemma ClearedViewShowsEmptyMessage(items: seq<Item>, outcome: DeleteAllOutcome)
    requires ClearsList(outcome)
    ensures ViewOf(Some(ReconcileDeleteAll(items, outcome))) == ListView(true, [])
  {
  }

  class TodoListCard {
    var items: Option<seq<Item>>
    /** Whether the initial fetch's result has been set. */
    ghost var fetched: bool

    /** The store is loaded only once the initial fetch's result has been set. */
    ghost predicate Valid()
      reads this
    {
      items.Some? ==> fetched
    }

    /** `React.useState(null)`: the store starts out loading. */
    constructor ()
      ensures Valid()
      ensures items == None && !fetched
    {
      items := None;
      fetched := false;
    }

    /** The state is loaded, so the list view and its callbacks exist. */
    predicate Loaded()
      reads this
    {
      items.Some?
    }

    /** What the card renders for the current state. */
    function View(): (v: CardView)
      reads this
      ensures v == LoadingText <==> !Loaded()
    {
      ViewOf(items)
    }

    /**
     * The initial fetch's `.then(setItems)`: the fetched list becomes the state.
     * The effect runs once, on mount, so this happens once and while still loading.
     */
    method ReceiveInitialItems(fetchedItems: seq<Item>)
      requires Valid() && !fetched
      modifies this
      ensures Valid()
      ensures items == Some(fetchedItems) && fetched
      ensures Loaded()
    {
      items := Some(fetchedItems);
      fetched := true;
    }

    /** onNewItem, reachable only from the loaded view's add form. */
    method OnNewItem(newItem: Item)
      requires Valid() && Loaded()
      modifies this
      ensures Valid() && fetched == old(fetched)
      ensures items == Some(Append(old(items.value), newItem))
      ensures Loaded()
    {
      items := Some(Append(items.value, newItem));
    }

    /** onItemUpdate, called with the item the PUT request answered with. */
    method OnItemUpdate(item: Item)
      requires Valid() && Loaded()
      modifies this
      ensures Valid() && fetched == old(fetched)
      ensures items == Some(UpdateById(old(items.value), item))
      ensures Loaded()
    {
      items := Some(UpdateById(items.value, item));
    }

    /** onItemRemoval, called once the DELETE request for the item has answered. */
    method OnItemRemoval(item: Item)
      requires Valid() && Loaded()
      modifies this
      ensures Valid() && fetched == old(fetched)
      ensures items == Some(RemoveById(old(items.value), item))
      ensures Loaded()
    {
      items := Some(RemoveById(items.value, item));
    }

    /**
     * onDeleteAllItems, once its request has ended with the given outcome;
     * reachable only from the loaded view's Delete All button.
     */
    method OnDeleteAllItems(outcome: DeleteAllOutcome)
      requires Valid() && Loaded()
      modifies this
      ensures Valid() && fetched == old(fetched)
      ensures items == Some(ReconcileDeleteAll(old(items.value), outcome))
      ensures Loaded()
    {
      // any other outcome is only logged to the console
      if ClearsList(outcome) {
        items := Some([]);
      }
    }
  }

  /**
   * A client run: load one item, fail to delete all with `{success: false}`,
   * then delete all through a route whose delete resolved.
   */
  method DeleteAllScenario(first: Item)
  {
    var card := new TodoListCard();
    assert card.View() == LoadingText;
    card.ReceiveInitialItems([first]);
    card.OnDeleteAllItems(Received(ResponseBody(Bool(false), Undefined)));
    assert card.items == Some([first]);
    card.OnDeleteAllItems(Received(HandleDeleteAll(Resolved).body));
    assert card.items == Some([]);
    assert card.View() == ListView(true, []);
  }

  /**
   * A client run: an empty list, an added item toggled through its PUT
   * answer, then removed once its DELETE has answered.
   */
  method AddToggleRemoveScenario(x: Item)
  {
    var card := new TodoListCard();
    card.ReceiveInitialItems([]);
    assert card.View() == ListView(true, []);
    card.OnNewItem(x);
    assert card.items == Some([x]);
    var answered := ApplyPut(x, ToggleBody(x));
    assert FirstIndex([x], x.id) == 0;
    ToggleInList([x], 0);
    card.OnItemUpdate(answered);
    var toggled := card.items.value;
    assert |toggled| == 1 && toggled[0] == x.(completed := !x.completed);
    assert toggled == [x.(completed := !x.completed)];
    card.OnItemRemoval(answered);
    assert card.items == Some([]);
  }
}
