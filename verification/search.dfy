/**
 * The search filter of the list view: `filteredItems` in the application
 * component. The query is trimmed and lower-cased; a blank query keeps every
 * item; otherwise an item stays when the query occurs in its lower-cased title
 * or description, a missing field reading as the empty string.
 */
module Search {
  import opened Wrappers
  import opened Text
  import opened Items
  import opened Sequences

  /** `searchQuery.trim().toLowerCase()` */
  function NormalizeQuery(query: string): (q: string)
    ensures exists a, b :: SpaceAround(query, a, b) && q == Lower(query[a..b])
    ensures q == [] || (!IsSpace(q[0]) && !IsSpace(q[|q| - 1]))
    ensures q == [] <==> AllSpace(query)
    ensures forall i :: 0 <= i < |q| ==> !IsUpper(q[i])
    ensures |q| <= |query|
  {
    Lower(Trim(query))
  }

  /** `field?.toLowerCase() ?? ''` */
  function LowerField(field: Option<string>): (lowered: string) {
    Lower(field.GetOr([]))
  }

  /** The callback given to `items.filter`, for an already normalised query. */
  predicate Keeps(q: string, item: Item) {
    if q == [] then true
    else Includes(LowerField(item.title), q) || Includes(LowerField(item.description), q)
  }

  /** Whether `item` is shown while the search box holds `query`. */
  predicate Visible(query: string, item: Item) {
    Keeps(NormalizeQuery(query), item)
  }

  /** The callback handed to `items.filter` for the search box's `query`. */
  function Callback(query: string): (keep: Item -> bool) {
    (item: Item) => Visible(query, item)
  }

  /** `items.filter(...)`: the items shown for `query`, in list order. */
  function Filtered(items: seq<Item>, query: string): (r: seq<Item>)
    ensures |r| <= |items|
    ensures forall x :: x in r <==> x in items && Visible(query, x)
  {
    FilterMembers(items, Callback(query));
    Filter(items, Callback(query))
  }

  /** `filteredItems` as the component computes it: one pass of
      `items.filter` with the search callback. */
  method FilterItems(items: seq<Item>, query: string) returns (shown: seq<Item>)
    ensures shown == Filtered(items, query)
    ensures forall x :: x in shown <==> x in items && Visible(query, x)
    ensures |shown| <= |items|
    ensures AllSpace(query) ==> shown == items
  {
    shown := FilterLoop(items, Callback(query));
    assert shown == Filtered(items, query);
    if AllSpace(query) {
      BlankQueryKeepsAll(items, query);
    }
  }

  // ---- The guard `if (!q) return true` ----------------------------------

  /** The blank-query guard does not change the verdict: the empty string is
      included in every string, so the guard is only a shortcut. */
  lemma BlankGuardIsShortcut(q: string, item: Item)
    ensures Keeps(q, item) <==> Includes(LowerField(item.title), q) || Includes(LowerField(item.description), q)
  {
    if q == [] {
      IncludesEmpty(LowerField(item.title));
    }
  }

  // ---- Which items are kept ---------------------------------------------

  /** An item is shown iff the query is blank or the normalised query is a
      substring of the lower-cased title or of the lower-cased description. */
  lemma VisibleIffSubstring(query: string, item: Item)
    ensures Visible(query, item) <==>
      var q := NormalizeQuery(query);
      || q == []
      || (exists i :: OccursAt(q, LowerField(item.title), i))
      || (exists i :: OccursAt(q, LowerField(item.description), i))
  {
    var q := NormalizeQuery(query);
    IncludesIffOccurs(LowerField(item.title), q);
    IncludesIffOccurs(LowerField(item.description), q);
  }

  /** A blank (empty or all white-space) query shows every item, in order. */
  lemma BlankQueryKeepsAll(items: seq<Item>, query: string)
    requires AllSpace(query)
    ensures Filtered(items, query) == items
  {
    FilterKeepsAll(items, Callback(query));
  }

  // ---- Order, multiplicity, positions -----------------------------------

  /** The shown list is `items` restricted to exactly the visible positions,
      in increasing order: nothing is added, dropped wrongly or reordered. */
  lemma ShownInOrder(items: seq<Item>, query: string)
    ensures exists positions :: IsSelection(positions, items, Callback(query), Filtered(items, query))
  {
    var positions := KeptPositions(items, Callback(query));
    assert IsSelection(positions, items, Callback(query), Filtered(items, query));
  }

  /** Filtering splits over concatenation. */
  lemma FilteredAppend(a: seq<Item>, b: seq<Item>, query: string)
    ensures Filtered(a + b, query) == Filtered(a, query) + Filtered(b, query)
  {
    FilterAppend(a, b, Callback(query));
  }

  /** Filtering never duplicates an item: every shown item occurs exactly as
      often as in the list, and a hidden one not at all. */
  lemma FilteredCount(items: seq<Item>, query: string, x: Item)
    ensures multiset(Filtered(items, query))[x] == if Visible(query, x) then multiset(items)[x] else 0
  {
    FilterCount(items, Callback(query), x);
  }

  /** Searching again within the results changes nothing. */
  lemma FilteredIdempotent(items: seq<Item>, query: string)
    ensures Filtered(Filtered(items, query), query) == Filtered(items, query)
  {
    FilterIdempotent(items, Callback(query));
  }

  // ---- Case and white space ---------------------------------------------

  /** Queries that differ only in letter case select the same items. */
  lemma CaseInsensitive(items: seq<Item>, query1: string, query2: string)
    requires Lower(query1) == Lower(query2)
    ensures Filtered(items, query1) == Filtered(items, query2)
  {
    TrimLower(query1);
    TrimLower(query2);
    FilterSameVerdicts(items, Callback(query1), Callback(query2));
  }

  /** Leading and trailing white space in the query does not matter. */
  lemma PaddingInsensitive(items: seq<Item>, pad1: string, query: string, pad2: string)
    requires AllSpace(pad1) && AllSpace(pad2)
    ensures Filtered(items, pad1 + query + pad2) == Filtered(items, query)
  {
    TrimPadded(pad1, query, pad2);
    FilterSameVerdicts(items, Callback(pad1 + query + pad2), Callback(query));
  }

  /** The normalised query is its own normal form: searching for it gives
      the same result as searching for the query the user typed. */
  lemma NormalizeStable(items: seq<Item>, query: string)
    ensures Filtered(items, NormalizeQuery(query)) == Filtered(items, query)
  {
    forall i | 0 <= i < |items|
      ensures Callback(NormalizeQuery(query))(items[i]) == Callback(query)(items[i])
    {
      NormalizedVisible(query, items[i]);
    }
    FilterSameVerdicts(items, Callback(NormalizeQuery(query)), Callback(query));
  }

  /** An item is shown for the normalised query exactly when it is shown for
      the typed query. */
  lemma NormalizedVisible(query: string, item: Item)
    ensures Visible(NormalizeQuery(query), item) == Visible(query, item)
  {
    NormalizeIdempotent(query);
  }

  /** Normalising twice is normalising once. */
  lemma NormalizeIdempotent(query: string)
    ensures NormalizeQuery(NormalizeQuery(query)) == NormalizeQuery(query)
  {
    var t := Trim(query);
    calc {
      NormalizeQuery(NormalizeQuery(query));
      Lower(Trim(Lower(t)));
      { TrimLower(t); }
      Lower(Lower(Trim(t)));
      { TrimIdempotent(query); }
      Lower(Lower(t));
      { LowerIdempotent(t); }
      Lower(t);
    }
  }

  /** Letter case in the item's fields does not matter either. */
  lemma FieldCaseInsensitive(query: string, a: Item, b: Item)
    requires Lower(a.title.GetOr([])) == Lower(b.title.GetOr([]))
    requires Lower(a.description.GetOr([])) == Lower(b.description.GetOr([]))
    ensures Visible(query, a) <==> Visible(query, b)
  {
  }

  /** A missing field behaves exactly like an empty one. */
  lemma MissingFieldIsEmpty(query: string, id: string, title: Option<string>, description: Option<string>)
    ensures Visible(query, Item(id, title, description)) <==>
            Visible(query, Item(id, Some(title.GetOr([])), Some(description.GetOr([]))))
  {
  }
}
