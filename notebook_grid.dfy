/** The notebook overview (components/NotebookGrid.tsx): the search over notebook
    names and the choice between the two empty states and the notebook cards. */
module NotebookGrid {
  import opened Types
  import opened Strings
  import opened Seqs

  /** The lowercased name contains the lowercased query; no other field is searched. */
  predicate NameMatches(notebook: Notebook, query: string) {
    Contains(ToLower(notebook.name), ToLower(query))
  }

  /** The callback given to `notebooks.filter`. */
  function NameFilter(query: string): Notebook -> bool {
    (notebook: Notebook) => NameMatches(notebook, query)
  }

  /** `filteredNotebooks`: a notebook stays exactly when its name matches, every
      occurrence of it stays, and the list keeps its order. */
  function FilteredNotebooks(notebooks: seq<Notebook>, query: string): (r: seq<Notebook>)
    ensures forall n :: n in r <==> n in notebooks && NameMatches(n, query)
    ensures forall n :: multiset(r)[n] == if NameMatches(n, query) then multiset(notebooks)[n] else 0
    ensures IsSubsequence(r, notebooks)
  {
    FilterMultiset(notebooks, NameFilter(query));
    FilterIsSubsequence(notebooks, NameFilter(query));
    Filter(notebooks, NameFilter(query))
  }

  /** The empty query lists every notebook, in order. */
  lemma EmptyQueryKeepsAll(notebooks: seq<Notebook>)
    ensures FilteredNotebooks(notebooks, "") == notebooks
  {
    assert ToLower("") == "";
    forall n | n in notebooks
      ensures NameFilter("")(n)
    {
      ContainsEmpty(ToLower(n.name));
    }
    FilterKeepsAll(notebooks, NameFilter(""));
  }

  /** The search ignores ASCII case. */
  lemma SearchIgnoresCase(notebooks: seq<Notebook>, query: string)
    ensures FilteredNotebooks(notebooks, ToLower(query)) == FilteredNotebooks(notebooks, query)
  {
    ToLowerIdempotent(query);
    FilterSameTest(notebooks, NameFilter(ToLower(query)), NameFilter(query));
  }

  /** A query with a character that no name has, in either case, lists nothing. */
  lemma UnmatchedQueryListsNothing(notebooks: seq<Notebook>, query: string)
    requires query != ""
    requires forall n :: n in notebooks ==> LowerChar(query[0]) !in ToLower(n.name)
    ensures FilteredNotebooks(notebooks, query) == []
  {
    forall n | n in notebooks
      ensures !NameFilter(query)(n)
    {
      if Contains(ToLower(n.name), ToLower(query)) {
        ContainsFirstChar(ToLower(n.name), ToLower(query));
      }
    }
    FilterDropsAll(notebooks, NameFilter(query));
  }

  /** The grid area: "No notebooks yet", "No notebooks found", or one card per listed notebook. */
  datatype GridArea = NoNotebooksYet | NoNotebooksFound | NotebookCards(items: seq<Notebook>)

  /** "No notebooks yet" exactly when there are none; "No notebooks found" exactly
      when there are some but the search lists none; otherwise the listed ones. */
  function Area(notebooks: seq<Notebook>, query: string): (r: GridArea)
    ensures r.NoNotebooksYet? <==> notebooks == []
    ensures r.NoNotebooksFound? <==> notebooks != [] && FilteredNotebooks(notebooks, query) == []
    ensures r.NotebookCards? ==> r.items == FilteredNotebooks(notebooks, query) && r.items != []
  {
    var filtered := FilteredNotebooks(notebooks, query);
    if filtered == [] then (if notebooks == [] then NoNotebooksYet else NoNotebooksFound)
    else NotebookCards(filtered)
  }

  /** With an empty search every notebook gets a card. */
  lemma EmptyQueryShowsAll(notebooks: seq<Notebook>)
    requires notebooks != []
    ensures Area(notebooks, "") == NotebookCards(notebooks)
  {
    EmptyQueryKeepsAll(notebooks);
  }
}
