/**
 * The advanced search panel: the filter state and its toggles, and the search that narrows the
 * candidate results by goal and rating and sorts them. Fuzzy text matching is done by a library
 * outside the model; its answer for the query is a parameter. Dates are already turned into
 * millisecond timestamps.
 */
module AdvancedSearch {
  import opened Seqs
  import opened Sorting

  datatype SortBy = Relevance | Date | Rating | Views | Trending
  datatype SortOrder = Asc | Desc

  datatype SearchFilters = SearchFilters(
    query: string, sdgs: seq<int>, categories: seq<string>,
    dateStart: string, dateEnd: string,
    ratingMin: real, ratingMax: real,
    sortBy: SortBy, sortOrder: SortOrder)

  datatype SdgRef = SdgRef(id: int, name: string, color: string)

  datatype SearchResult = SearchResult(
    id: int, title: string, description: string, rating: real, views: int,
    createdAt: int, sdgs: seq<SdgRef>, tags: seq<string>)

  /** The state the panel starts in. */
  const InitialFilters := SearchFilters("", [], [], "", "", 0.0, 5.0, Relevance, Desc)

  /** `clearFilters` writes its own literal; it is the initial state again, whatever came before. */
  function ClearFilters(prev: SearchFilters): (r: SearchFilters)
    ensures r == InitialFilters
  {
    SearchFilters("", [], [], "", "", 0.0, 5.0, Relevance, Desc)
  }

  function Other<T(==)>(x: T): T -> bool {
    (y: T) => y != x
  }

  /** `prev.includes(x) ? prev.filter(y => y !== x) : [...prev, x]` */
  function Toggle<T(==)>(xs: seq<T>, x: T): seq<T> {
    if x in xs then Filter(xs, Other(x)) else xs + [x]
  }

  /** A toggle flips the membership of its element and of no other. */
  lemma ToggleFlips<T>(xs: seq<T>, x: T)
    ensures x in Toggle(xs, x) <==> x !in xs
    ensures forall y :: y != x ==> (y in Toggle(xs, x) <==> y in xs)
  {
    FilterMembershipAll(xs, Other(x));
  }

  /** Toggling twice restores membership; from an absent element it restores the list itself. */
  lemma ToggleTwice<T>(xs: seq<T>, x: T)
    ensures forall y :: y in Toggle(Toggle(xs, x), x) <==> y in xs
    ensures x !in xs ==> Toggle(Toggle(xs, x), x) == xs
  {
    ToggleFlips(xs, x);
    ToggleFlips(Toggle(xs, x), x);
    if x !in xs {
      FilterAppend(xs, [x], Other(x));
      FilterAll(xs, Other(x));
      assert Filter([x], Other(x)) == [];
    }
  }

  /** A list without repeats stays without repeats. */
  lemma ToggleKeepsDistinct<T>(xs: seq<T>, x: T)
    requires !HasDuplicate(xs)
    ensures !HasDuplicate(Toggle(xs, x))
  {
    var r := Toggle(xs, x);
    if x in xs {
      DistinctByFilter(xs, Other(x), (y: T) => y);
      assert DistinctBy(xs, (y: T) => y);
    } else {
      forall i, j | 0 <= i < j < |r| ensures r[i] != r[j] {
        if j == |xs| {
          assert r[i] in xs;
        } else {
          assert r[i] == xs[i] && r[j] == xs[j];
        }
      }
    }
  }

  /** `toggleSDG`: only the goal selection changes. */
  function ToggleSdg(prev: SearchFilters, sdgId: int): (r: SearchFilters)
    ensures r.(sdgs := prev.sdgs) == prev
    ensures sdgId in r.sdgs <==> sdgId !in prev.sdgs
  {
    ToggleFlips(prev.sdgs, sdgId);
    prev.(sdgs := Toggle(prev.sdgs, sdgId))
  }

  /** `toggleCategory`: only the category selection changes. */
  function ToggleCategory(prev: SearchFilters, category: string): (r: SearchFilters)
    ensures r.(categories := prev.categories) == prev
    ensures category in r.categories <==> category !in prev.categories
  {
    ToggleFlips(prev.categories, category);
    prev.(categories := Toggle(prev.categories, category))
  }

  /** `result.sdgs.some(sdg => selected.includes(sdg.id))` */
  predicate SharesSdg(selected: seq<int>, r: SearchResult) {
    exists s :: s in r.sdgs && s.id in selected
  }

  function SharingSdg(selected: seq<int>): SearchResult -> bool {
    (r: SearchResult) => SharesSdg(selected, r)
  }

  /** `result.rating >= min && result.rating <= max` */
  function WithinRating(min: real, max: real): SearchResult -> bool {
    (r: SearchResult) => min <= r.rating <= max
  }

  /** The candidates: the fuzzy matches when a query is typed, otherwise every result. */
  function Candidates(f: SearchFilters, all: seq<SearchResult>, fuzzy: seq<SearchResult>): seq<SearchResult> {
    if f.query != "" then fuzzy else all
  }

  /** What the filters admit: a shared goal when any is selected, and a rating within the bounds. */
  predicate Admitted(f: SearchFilters, r: SearchResult) {
    (|f.sdgs| > 0 ==> SharesSdg(f.sdgs, r)) && f.ratingMin <= r.rating <= f.ratingMax
  }

  function AdmittedBy(f: SearchFilters): SearchResult -> bool {
    (r: SearchResult) => Admitted(f, r)
  }

  /** The `switch` of the comparator, before the order is applied. */
  function Comparison(key: SortBy, a: SearchResult, b: SearchResult): real {
    match key
    case Date => (a.createdAt - b.createdAt) as real
    case Rating => a.rating - b.rating
    case Views => (a.views - b.views) as real
    case Trending => (a.views as real / 100.0) + a.rating - (b.views as real / 100.0) - b.rating
    case Relevance => 0.0
  }

  /** The comparator handed to `sort`: 0 for relevance, otherwise the comparison, negated for `desc`. */
  function Comparator(f: SearchFilters): (SearchResult, SearchResult) -> real {
    (a: SearchResult, b: SearchResult) =>
      if f.sortBy == Relevance then 0.0
      else if f.sortOrder == Asc then Comparison(f.sortBy, a, b)
      else -Comparison(f.sortBy, a, b)
  }

  /** The quantity each sort orders by, ascending. */
  function SortKey(key: SortBy, r: SearchResult): real {
    match key
    case Date => r.createdAt as real
    case Rating => r.rating
    case Views => r.views as real
    case Trending => r.views as real / 100.0 + r.rating
    case Relevance => 0.0
  }

  /** The key the result list ends up ascending in: the sort key, negated for `desc`. */
  function OrderKey(f: SearchFilters): SearchResult -> real {
    (r: SearchResult) => if f.sortOrder == Asc then SortKey(f.sortBy, r) else -SortKey(f.sortBy, r)
  }

  /** For the date, rating, views and trending sorts the `desc` comparator is the negated `asc` one. */
  lemma DescNegatesAsc(f: SearchFilters, a: SearchResult, b: SearchResult)
    ensures Comparator(f.(sortOrder := Desc))(a, b) == -Comparator(f.(sortOrder := Asc))(a, b)
    ensures Comparator(f.(sortBy := Relevance))(a, b) == 0.0
  {
  }

  /** Every comparator compares by its key. */
  lemma ComparatorByKey(f: SearchFilters)
    ensures ComparesByKey(Comparator(f), OrderKey(f))
  {
    forall a, b ensures Comparator(f)(a, b) == OrderKey(f)(a) - OrderKey(f)(b) {
      match f.sortBy
      case Trending =>
        assert Comparison(Trending, a, b) == SortKey(Trending, a) - SortKey(Trending, b);
      case _ =>
    }
  }

  /**
   * `performSearch`: start from the candidates, keep those sharing a selected goal if any is
   * selected, keep those rated within the bounds, then sort.
   */
  method PerformSearch(f: SearchFilters, all: seq<SearchResult>, fuzzy: seq<SearchResult>) returns (results: seq<SearchResult>)
    ensures forall r :: r in results <==> r in Candidates(f, all, fuzzy) && Admitted(f, r)
    ensures multiset(results) == multiset(Filter(Candidates(f, all, fuzzy), AdmittedBy(f)))
    ensures AscendingBy(results, OrderKey(f))
    ensures f.sortBy == Relevance ==> results == Filter(Candidates(f, all, fuzzy), AdmittedBy(f))
  {
    var filtered := all;
    if f.query != "" {
      filtered := fuzzy;
    }
    ghost var candidates := filtered;
    if |f.sdgs| > 0 {
      filtered := Filter(filtered, SharingSdg(f.sdgs));
    }
    filtered := Filter(filtered, WithinRating(f.ratingMin, f.ratingMax));
    NarrowingAdmits(f, candidates);
    assert filtered == Filter(candidates, AdmittedBy(f));
    FilterMembershipAll(candidates, AdmittedBy(f));
    results := Sort(filtered, Comparator(f));
    SortedSelection(f, filtered);
  }

  /** The two filters in a row keep exactly what `Admitted` admits, in candidate order. */
  lemma NarrowingAdmits(f: SearchFilters, candidates: seq<SearchResult>)
    ensures var bySdg := if |f.sdgs| > 0 then Filter(candidates, SharingSdg(f.sdgs)) else candidates;
      Filter(bySdg, WithinRating(f.ratingMin, f.ratingMax)) == Filter(candidates, AdmittedBy(f))
  {
    if |f.sdgs| > 0 {
      FilterConjunction(candidates, SharingSdg(f.sdgs), WithinRating(f.ratingMin, f.ratingMax), AdmittedBy(f));
    } else {
      FilterSameTest(candidates, WithinRating(f.ratingMin, f.ratingMax), AdmittedBy(f));
    }
  }

  /** Sorting the admitted candidates: the same elements, ordered by the key; untouched for relevance. */
  lemma SortedSelection(f: SearchFilters, filtered: seq<SearchResult>)
    ensures forall r :: r in Sort(filtered, Comparator(f)) <==> r in filtered
    ensures multiset(Sort(filtered, Comparator(f))) == multiset(filtered)
    ensures AscendingBy(Sort(filtered, Comparator(f)), OrderKey(f))
    ensures f.sortBy == Relevance ==> Sort(filtered, Comparator(f)) == filtered
  {
    var results := Sort(filtered, Comparator(f));
    SortPermutes(filtered, Comparator(f));
    ComparatorByKey(f);
    SortSorts(filtered, Comparator(f), OrderKey(f));
    forall r ensures r in results <==> r in filtered {
      assert r in results <==> r in multiset(results);
    }
    if f.sortBy == Relevance {
      SortNeutral(filtered, Comparator(f));
    }
  }

  lemma {:induction false} FilterSameTest<T>(s: seq<T>, p: T -> bool, q: T -> bool)
    requires forall x :: p(x) == q(x)
    ensures Filter(s, p) == Filter(s, q)
  {
    if s != [] {
      FilterSameTest(s[1..], p, q);
    }
  }
}
