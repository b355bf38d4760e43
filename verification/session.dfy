/**
 * Sequences of user actions and network outcomes applied to the application
 * component from its initial state, and what they guarantee about the list
 * it holds: the list is always the latest one the server delivered, never a
 * locally patched copy.
 */
module Session {
  import opened Wrappers
  import opened Items
  import opened Controller
  import ItemForm

  /** One handler run to completion, with the outcomes the network gave it. */
  datatype Event =
    | Mounted(outcome: FetchOutcome)
    | CreateClicked
    | EditClicked(item: Item)
    | QueryTyped(query: string)
    | ModalClosed
    | SaveSubmitted(data: ItemData, saved: bool, refetch: FetchOutcome)
    | DeleteClicked(id: string, confirmed: bool, deleted: bool, refetch: FetchOutcome)

  /** Dispatches an event to its handler. */
  function Apply(s: State, e: Event): (r: Step) {
    match e
    case Mounted(outcome) => FetchItems(s, outcome)
    case CreateClicked => Step(HandleCreate(s), [], Resolved)
    case EditClicked(item) => Step(HandleEdit(s, item), [], Resolved)
    case QueryTyped(query) => Step(SetSearchQuery(s, query), [], Resolved)
    case ModalClosed => Step(CloseModal(s), [], Resolved)
    case SaveSubmitted(data, saved, refetch) => HandleSave(s, data, saved, refetch)
    case DeleteClicked(id, confirmed, deleted, refetch) => HandleDelete(s, id, confirmed, deleted, refetch)
  }

  /** The events applied in order from `s`, with all calls made; the
      settlement is that of the last handler run. */
  function Run(s: State, events: seq<Event>): (r: Step)
    decreases |events|
  {
    if events == [] then Step(s, [], Resolved)
    else
      var before := Run(s, events[..|events| - 1]);
      var last := Apply(before.state, events[|events| - 1]);
      Step(last.state, before.calls + last.calls, last.settles)
  }

  // ---- Reference definitions, read off the events alone -----------------

  /** Whether the event triggers `fetchItems`. */
  predicate Refetches(e: Event) {
    || e.Mounted?
    || (e.SaveSubmitted? && e.saved)
    || (e.DeleteClicked? && e.confirmed && e.deleted)
  }

  /** The list a successful fetch in this event delivered, if any. */
  function Delivered(e: Event): (data: Option<seq<Item>>) {
    match e
    case Mounted(Fetched(data)) => Some(data)
    case SaveSubmitted(_, true, Fetched(data)) => Some(data)
    case DeleteClicked(_, true, true, Fetched(data)) => Some(data)
    case _ => None
  }

  /** The latest list the server delivered, if it ever delivered one. */
  function LastDelivered(events: seq<Event>): (data: Option<seq<Item>>)
    decreases |events|
  {
    if events == [] then None
    else if Delivered(events[|events| - 1]).Some? then Delivered(events[|events| - 1])
    else LastDelivered(events[..|events| - 1])
  }

  // ---- What every run guarantees ----------------------------------------

  /** The list held is the latest one delivered, or empty before the first
      delivery: a failed fetch, a failed mutation, a search, opening or
      closing the modal never change it, and no mutation patches it locally. */
  lemma {:induction false} ItemsAreLastDelivered(events: seq<Event>)
    ensures Run(Initial(), events).state.items == LastDelivered(events).GetOr([])
    decreases |events|
  {
    if events != [] {
      ItemsAreLastDelivered(events[..|events| - 1]);
    }
  }

  /** The spinner is on exactly until the first fetch has settled, whether
      it succeeded or not. */
  lemma {:induction false} LoadingUntilFirstFetch(events: seq<Event>)
    ensures Run(Initial(), events).state.loading <==> forall i :: 0 <= i < |events| ==> !Refetches(events[i])
    decreases |events|
  {
    if events != [] {
      var prefix := events[..|events| - 1];
      var e := events[|events| - 1];
      LoadingUntilFirstFetch(prefix);
      ApplyLoading(Run(Initial(), prefix).state, e);
      assert Run(Initial(), events).state == Apply(Run(Initial(), prefix).state, e).state;
      assert forall i :: 0 <= i < |prefix| ==> prefix[i] == events[i];
    }
  }

  /** One handler turns the spinner off exactly when it fetches. */
  lemma ApplyLoading(s: State, e: Event)
    ensures Apply(s, e).state.loading == (s.loading && !Refetches(e))
  {
  }

  /** A list request is issued exactly when some event triggers a fetch. */
  lemma {:induction false} FetchIssuedIffRefetch(events: seq<Event>)
    ensures (GetItems in Run(Initial(), events).calls) <==> exists i :: 0 <= i < |events| && Refetches(events[i])
    decreases |events|
  {
    if events != [] {
      var prefix := events[..|events| - 1];
      var e := events[|events| - 1];
      FetchIssuedIffRefetch(prefix);
      assert forall i :: 0 <= i < |prefix| ==> prefix[i] == events[i];
      var before := Run(Initial(), prefix);
      var last := Apply(before.state, e);
      assert GetItems in last.calls <==> Refetches(e);
      if Refetches(e) {
        assert Refetches(events[|events| - 1]);
      }
    }
  }

  // ---- Handlers in sequence ---------------------------------------------

  /** Editing an item and saving successfully updates that item's id with
      the submitted data, then refetches and closes the modal. */
  lemma EditThenSave(s: State, item: Item, data: ItemData, refetch: FetchOutcome)
    ensures var r := Run(s, [EditClicked(item), SaveSubmitted(data, true, refetch)]);
      r.calls == [UpdateItem(item.id, data), GetItems] && !r.state.isModalOpen
  {
    var events := [EditClicked(item), SaveSubmitted(data, true, refetch)];
    assert events[..1] == [EditClicked(item)];
    assert events[..1][..0] == [];
    var save := HandleSave(HandleEdit(Run(s, []).state, item), data, true, refetch);
    assert save.calls == [save.calls[0]] + save.calls[1..];
  }

  /** Opening the create form and saving successfully creates, never updates,
      even if an item was being edited before. */
  lemma CreateThenSave(s: State, data: ItemData, refetch: FetchOutcome)
    ensures var r := Run(s, [CreateClicked, SaveSubmitted(data, true, refetch)]);
      r.calls == [CreateItem(data), GetItems] && !r.state.isModalOpen
  {
    var events := [CreateClicked, SaveSubmitted(data, true, refetch)];
    assert events[..1] == [CreateClicked];
    assert events[..1][..0] == [];
    var save := HandleSave(HandleCreate(Run(s, []).state), data, true, refetch);
    assert save.calls == [save.calls[0]] + save.calls[1..];
  }

  /** A form submitted from the modal reaches the controller as the create or
      update of exactly the typed fields; the promise `handleSave` returns
      resolves whether the call succeeded or not, so once the form's `await`
      completes the busy flag is cleared and the form is as before the submit. */
  lemma SubmitReachesSave(s: State, f: ItemForm.Form, saved: bool, refetch: FetchOutcome)
    requires s.isModalOpen && f.item == s.currentItem && ItemForm.CanSubmit(f)
    ensures var p := ItemForm.Submit(f);
      && p.Pending?
      && HandleSave(s, p.payload, saved, refetch).calls[0] ==
           (if f.item.Some? then UpdateItem(f.item.value.id, ItemData(f.title, f.description))
            else CreateItem(ItemData(f.title, f.description)))
      && ItemForm.Settle(p.form, HandleSave(s, p.payload, saved, refetch).settles) == f
  {
  }

  /** No event handler of the component ever rejects: every failure is caught
      and logged, and the component carries on. */
  lemma NeverRejects(s: State, events: seq<Event>)
    ensures Run(s, events).settles == Resolved
  {
  }

  /** Edit, submit the form untouched, save: the item's own fields, with a
      missing field sent as empty, are written back under its id. */
  lemma EditUntouchedWritesBack(s: State, item: Item, refetch: FetchOutcome)
    requires item.title.GetOr([]) != []
    ensures var editing := HandleEdit(s, item);
      var f := ItemForm.Mount(editing.currentItem);
      var p := ItemForm.Submit(f);
      && p.Pending?
      && HandleSave(editing, p.payload, true, refetch).calls ==
           [UpdateItem(item.id, ItemData(item.title.GetOr([]), item.description.GetOr([]))), GetItems]
  {
  }
}
