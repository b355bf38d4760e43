/**
 * The application component's state and its event handlers, each modelled as
 * one atomic transition. What the network answers is an input: a fetch either
 * delivers a list or fails, a create/update/delete either succeeds or fails.
 * Every handler reports the API calls it issued, in order.
 */
module Controller {
  import opened Wrappers
  import opened Text
  import opened Items
  import opened Search

  /** `items`, `loading`, `isModalOpen`, `currentItem` and `searchQuery`. */
  datatype State = State(
    items: seq<Item>,
    loading: bool,
    isModalOpen: bool,
    currentItem: Option<Item>,
    searchQuery: string)

  /** The four calls of the API module. */
  datatype ApiCall =
    | GetItems
    | CreateItem(data: ItemData)
    | UpdateItem(id: string, data: ItemData)
    | DeleteItem(id: string)

  /** How a `getItems()` call settles: the list in the response, or a rejection. */
  datatype FetchOutcome = Fetched(data: seq<Item>) | FetchFailed

  /** A handler's effect: the resulting state, the calls made, in order, and
      how the promise the handler returns settles. */
  datatype Step = Step(state: State, calls: seq<ApiCall>, settles: Settlement)

  /** The state before anything has happened: spinner on, list empty. */
  function Initial(): (s: State)
    ensures s.loading && s.items == [] && !s.isModalOpen && s.currentItem.None? && s.searchQuery == []
  {
    State([], true, false, None, [])
  }

  /** `fetchItems`: asks for the list; on success replaces `items`, on failure
      keeps them (the `catch` only logs); either way the spinner is turned off
      and the returned promise resolves. */
  function FetchItems(s: State, outcome: FetchOutcome): (r: Step)
    ensures r.calls == [GetItems]
    ensures r.settles == Resolved
    ensures !r.state.loading
    ensures outcome.Fetched? ==> r.state.items == outcome.data
    ensures outcome.FetchFailed? ==> r.state.items == s.items
    ensures r.state.(items := s.items, loading := s.loading) == s
  {
    match outcome
    case Fetched(data) => Step(s.(items := data, loading := false), [GetItems], Resolved)
    case FetchFailed => Step(s.(loading := false), [GetItems], Resolved)
  }

  /** `handleCreate`: opens the modal with no item. */
  function HandleCreate(s: State): (r: State)
    ensures r.isModalOpen && r.currentItem.None?
    ensures r.(isModalOpen := s.isModalOpen, currentItem := s.currentItem) == s
  {
    s.(currentItem := None, isModalOpen := true)
  }

  /** `handleEdit(item)`: opens the modal on `item`. */
  function HandleEdit(s: State, item: Item): (r: State)
    ensures r.isModalOpen && r.currentItem == Some(item)
    ensures r.(isModalOpen := s.isModalOpen, currentItem := s.currentItem) == s
  {
    s.(currentItem := Some(item), isModalOpen := true)
  }

  /** The call `handleSave` makes for `data`: an update of the edited item's
      id when there is one, a create otherwise. */
  function SaveCall(currentItem: Option<Item>, data: ItemData): (call: ApiCall) {
    match currentItem
    case Some(item) => UpdateItem(item.id, data)
    case None => CreateItem(data)
  }

  /** `handleSave(data)`: sends the create or update; on success closes the
      modal and refetches, on failure changes nothing. The awaited call's
      rejection is caught and only logged, so the promise `handleSave` returns
      to the form resolves on both paths. */
  function HandleSave(s: State, data: ItemData, saved: bool, refetch: FetchOutcome): (r: Step)
    ensures r.settles == Resolved
    ensures |r.calls| >= 1
    ensures s.currentItem.Some? ==> r.calls[0] == UpdateItem(s.currentItem.value.id, data)
    ensures s.currentItem.None? ==> r.calls[0] == CreateItem(data)
    ensures saved ==> r.calls[1..] == [GetItems]
    ensures saved ==> !r.state.isModalOpen && !r.state.loading
    ensures saved && refetch.Fetched? ==> r.state.items == refetch.data
    ensures saved && refetch.FetchFailed? ==> r.state.items == s.items
    ensures saved ==> r.state.currentItem == s.currentItem && r.state.searchQuery == s.searchQuery
    ensures !saved ==> r.state == s && |r.calls| == 1
  {
    var call := SaveCall(s.currentItem, data);
    if saved then
      // the refetch is started, not awaited: its settlement is not this promise's
      var fetched := FetchItems(s.(isModalOpen := false), refetch);
      Step(fetched.state, [call] + fetched.calls, Resolved)
    else
      // the rejected call lands in the `catch`, which logs and returns normally
      Step(s, [call], Resolved)
  }

  /** `handleDelete(id)`: only after confirmation sends the delete; only a
      successful delete is followed by a refetch; a failed delete is caught
      and logged, so the returned promise always resolves. */
  function HandleDelete(s: State, id: string, confirmed: bool, deleted: bool, refetch: FetchOutcome): (r: Step)
    ensures r.settles == Resolved
    ensures !confirmed ==> r.state == s && r.calls == []
    ensures confirmed ==> |r.calls| >= 1 && r.calls[0] == DeleteItem(id)
    ensures (GetItems in r.calls) <==> confirmed && deleted
    ensures confirmed && deleted ==> r.calls == [DeleteItem(id), GetItems] && !r.state.loading
    ensures confirmed && !deleted ==> r.state == s && r.calls == [DeleteItem(id)]
    ensures confirmed && deleted && refetch.Fetched? ==> r.state.items == refetch.data
    ensures !(confirmed && deleted && refetch.Fetched?) ==> r.state.items == s.items
    ensures r.state.isModalOpen == s.isModalOpen && r.state.currentItem == s.currentItem
    ensures r.state.searchQuery == s.searchQuery
  {
    if !confirmed then Step(s, [], Resolved)
    else if deleted then
      var fetched := FetchItems(s, refetch);
      Step(fetched.state, [DeleteItem(id)] + fetched.calls, Resolved)
    else
      Step(s, [DeleteItem(id)], Resolved)
  }

  /** Typing in the search box: only the query changes; the list is untouched. */
  function SetSearchQuery(s: State, query: string): (r: State)
    ensures r.searchQuery == query && r.items == s.items
    ensures r.(searchQuery := s.searchQuery) == s
  {
    s.(searchQuery := query)
  }

  /** The form's close and cancel buttons: only the modal closes. */
  function CloseModal(s: State): (r: State)
    ensures !r.isModalOpen
    ensures r.(isModalOpen := s.isModalOpen) == s
  {
    s.(isModalOpen := false)
  }

  /** What the main panel shows. */
  datatype View = Spinner | NoItems | NoMatch | ItemList(shown: seq<Item>)

  /** The panel is chosen by `loading`, then by whether there are items at
      all, then by whether any of them matches the search. */
  function CurrentView(s: State): (v: View)
    ensures v.Spinner? <==> s.loading
    ensures v.NoItems? <==> !s.loading && s.items == []
    ensures v.NoMatch? <==> !s.loading && s.items != [] && Filtered(s.items, s.searchQuery) == []
    ensures v.ItemList? ==> v.shown == Filtered(s.items, s.searchQuery) && v.shown != []
  {
    if s.loading then Spinner
    else if |s.items| == 0 then NoItems
    else
      var shown := Filtered(s.items, s.searchQuery);
      if |shown| == 0 then NoMatch else ItemList(shown)
  }

  /** A card is on screen exactly when the list is loaded and the item is in
      it and matches the search. */
  lemma CardShownIff(s: State, x: Item)
    ensures (CurrentView(s).ItemList? && x in CurrentView(s).shown) <==>
            !s.loading && x in s.items && Visible(s.searchQuery, x)
  {
  }

  /** With a blank search and a loaded, non-empty list, every item is shown
      in list order, and the "no match" panel cannot appear. */
  lemma BlankSearchShowsAll(s: State)
    requires !s.loading && s.items != [] && AllSpace(s.searchQuery)
    ensures CurrentView(s) == ItemList(s.items)
  {
    BlankQueryKeepsAll(s.items, s.searchQuery);
  }
}
