/** The inside of one notebook (components/NotebookView.tsx): the search and type
    filters over the notebook's items, the per-type counts on the filter buttons,
    the choice between the two empty states and the item cards, and what a card
    shows as its body. */
module NotebookView {
  import opened Types
  import opened Strings
  import opened Seqs
  import opened Utils

  /** `selectedType`: 'all', or the name of one content type (the buttons offer
      nothing else). */
  datatype TypeFilter = AllTypes | OnlyType(kind: ContentType)

  /** The lowercased title or the lowercased content contains the lowercased query. */
  predicate MatchesSearch(item: ContentItem, query: string) {
    Contains(ToLower(item.title), ToLower(query)) || Contains(ToLower(item.content), ToLower(query))
  }

  predicate MatchesType(item: ContentItem, selected: TypeFilter) {
    selected.AllTypes? || item.kind == selected.kind
  }

  /** The callback given to `content.filter`. */
  function Keeps(query: string, selected: TypeFilter): ContentItem -> bool {
    (item: ContentItem) => MatchesSearch(item, query) && MatchesType(item, selected)
  }

  /** `filteredContent`: an item stays exactly when it matches both the search and
      the type filter, every occurrence of it stays, and the list keeps its order. */
  function FilteredContent(content: seq<ContentItem>, query: string, selected: TypeFilter): (r: seq<ContentItem>)
    ensures forall item :: item in r <==> item in content && MatchesSearch(item, query) && MatchesType(item, selected)
    ensures forall item ::
      multiset(r)[item] == if MatchesSearch(item, query) && MatchesType(item, selected) then multiset(content)[item] else 0
    ensures IsSubsequence(r, content)
  {
    FilterMultiset(content, Keeps(query, selected));
    FilterIsSubsequence(content, Keeps(query, selected));
    Filter(content, Keeps(query, selected))
  }

  /** The empty query matches every string. */
  lemma EmptyQueryMatches(item: ContentItem)
    ensures MatchesSearch(item, "")
  {
    assert ToLower("") == "";
    ContainsEmpty(ToLower(item.title));
  }

  /** With an empty search and 'all' selected, every item is listed, in order. */
  lemma EmptyFiltersKeepAll(content: seq<ContentItem>)
    ensures FilteredContent(content, "", AllTypes) == content
  {
    forall item | item in content
      ensures Keeps("", AllTypes)(item)
    {
      EmptyQueryMatches(item);
    }
    FilterKeepsAll(content, Keeps("", AllTypes));
  }

  /** Choosing one type narrows the 'all' list: it is the 'all' list filtered again. */
  lemma TypeFilterNarrows(content: seq<ContentItem>, query: string, kind: ContentType)
    ensures FilteredContent(content, query, OnlyType(kind))
      == Filter(FilteredContent(content, query, AllTypes), Keeps(query, OnlyType(kind)))
  {
    FilterOfFilter(content, Keeps(query, AllTypes), Keeps(query, OnlyType(kind)));
  }

  /** The search ignores ASCII case: a query and its lowercased form list the same items. */
  lemma SearchIgnoresCase(content: seq<ContentItem>, query: string, selected: TypeFilter)
    ensures FilteredContent(content, ToLower(query), selected) == FilteredContent(content, query, selected)
  {
    ToLowerIdempotent(query);
    FilterSameTest(content, Keeps(ToLower(query), selected), Keeps(query, selected));
  }

  // ---------------------------------------------------------------- typeCounts

  /** The number of items of the given type. */
  function CountOf(content: seq<ContentItem>, kind: ContentType): (n: nat)
    ensures n <= |content|
    ensures n > 0 <==> exists i :: 0 <= i < |content| && content[i].kind == kind
  {
    if content == [] then 0
    else
      var init := content[..|content| - 1];
      var n := CountOf(init, kind) + if content[|content| - 1].kind == kind then 1 else 0;
      assert forall i :: 0 <= i < |init| ==> init[i] == content[i];
      n
  }

  /** One step of the reduce: `acc[t] = (acc[t] || 0) + 1`. */
  function Bump(acc: map<ContentType, nat>, kind: ContentType): map<ContentType, nat> {
    acc[kind := (if kind in acc then acc[kind] else 0) + 1]
  }

  /** The dictionary the reduce builds from the given items, from an empty one. */
  function Counts(content: seq<ContentItem>): map<ContentType, nat> {
    if content == [] then map[] else Bump(Counts(content[..|content| - 1]), content[|content| - 1].kind)
  }

  /** A type has a key exactly when some item has that type, and its value is the
      number of such items. */
  lemma {:induction false} CountsAreCounts(content: seq<ContentItem>, kind: ContentType)
    ensures kind in Counts(content) <==> CountOf(content, kind) > 0
    ensures kind in Counts(content) ==> Counts(content)[kind] == CountOf(content, kind)
  {
    if content != [] {
      CountsAreCounts(content[..|content| - 1], kind);
    }
  }

  /** The value shown for a type, zero when it has no key. */
  function CountShown(acc: map<ContentType, nat>, kind: ContentType): nat {
    if kind in acc then acc[kind] else 0
  }

  /** The four counts add up to the number of items: every item is counted once. */
  lemma {:induction false} CountsSumToLength(content: seq<ContentItem>)
    ensures CountShown(Counts(content), Text) + CountShown(Counts(content), Image)
      + CountShown(Counts(content), Script) + CountShown(Counts(content), Link) == |content|
  {
    if content != [] {
      var init := content[..|content| - 1];
      var last := content[|content| - 1].kind;
      CountsSumToLength(init);
      BumpShown(Counts(init), last, Text);
      BumpShown(Counts(init), last, Image);
      BumpShown(Counts(init), last, Script);
      BumpShown(Counts(init), last, Link);
    }
  }

  /** One step of the reduce adds one to the bumped type's count and nothing to the others. */
  lemma BumpShown(acc: map<ContentType, nat>, kind: ContentType, shown: ContentType)
    ensures CountShown(Bump(acc, kind), shown) == CountShown(acc, shown) + if shown == kind then 1 else 0
  {
  }

  /** `typeCounts`: the reduce over the items, updating the dictionary in place. */
  method TypeCounts(content: seq<ContentItem>) returns (acc: map<ContentType, nat>)
    ensures acc == Counts(content)
    ensures forall kind :: kind in acc <==> exists i :: 0 <= i < |content| && content[i].kind == kind
    ensures forall kind :: kind in acc ==> acc[kind] == CountOf(content, kind)
  {
    acc := map[];
    for i := 0 to |content|
      invariant acc == Counts(content[..i])
    {
      var kind := content[i].kind;
      acc := acc[kind := (if kind in acc then acc[kind] else 0) + 1];
      assert content[..i + 1][..i] == content[..i];
    }
    assert content[..|content|] == content;
    forall kind
      ensures kind in acc <==> CountOf(content, kind) > 0
      ensures kind in acc ==> acc[kind] == CountOf(content, kind)
    {
      CountsAreCounts(content, kind);
    }
  }

  // ---------------------------------------------------------------- what is shown

  /** The main area: "No content yet", "No content found", or the cards of the filtered items. */
  datatype ContentArea = NoContentYet | NoContentFound | ItemCards(items: seq<ContentItem>)

  /** "No content yet" exactly when the notebook is empty; "No content found" exactly
      when it has items but none passes the filters; otherwise one card per
      filtered item, in order. */
  function Area(content: seq<ContentItem>, query: string, selected: TypeFilter): (r: ContentArea)
    ensures r.NoContentYet? <==> content == []
    ensures r.NoContentFound? <==> content != [] && FilteredContent(content, query, selected) == []
    ensures r.ItemCards? ==> r.items == FilteredContent(content, query, selected) && r.items != []
  {
    var filtered := FilteredContent(content, query, selected);
    if filtered == [] then (if content == [] then NoContentYet else NoContentFound)
    else ItemCards(filtered)
  }

  /** With no filters an item card is shown for every item of a non-empty notebook. */
  lemma NoFiltersShowEverything(content: seq<ContentItem>)
    requires content != []
    ensures Area(content, "", AllTypes) == ItemCards(content)
  {
    EmptyFiltersKeepAll(content);
  }

  const CardExcerptLength := 150

  /** A card's body: the image itself, or an excerpt (set in monospace for scripts). */
  datatype CardBody = Picture(src: string) | Excerpt(text: string, monospace: bool)

  /** An image item stored as a data URL shows as a picture; every other item shows
      its content cut to 150 characters (plus "..." when longer), in monospace
      exactly for scripts. */
  function Card(item: ContentItem): (r: CardBody)
    ensures r.Picture? <==> item.kind == Image && IsPrefix("data:", item.content)
    ensures r.Picture? ==> r.src == item.content
    ensures r.Excerpt? ==> r.text == TruncateText(item.content, CardExcerptLength)
    ensures r.Excerpt? ==> (r.monospace <==> item.kind == Script)
  {
    if item.kind == Image && IsPrefix("data:", item.content) then Picture(item.content)
    else Excerpt(TruncateText(item.content, CardExcerptLength), item.kind == Script)
  }
}
