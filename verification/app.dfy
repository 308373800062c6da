/**
 * The catalog page's view logic (App.tsx). The logic is small: three
 * pieces of view state (language, a three-field filter selection, the
 * current page), the filtered list as a conjunction of three
 * "'all' or equal" tests, the visible page as a fixed slice of 8, and two
 * click handlers that replace one filter field and reset the page to 1.
 */
module App {
  import opened Wrappers
  import opened Types
  import opened Constants

  /** Items shown per page. */
  const PageSize: nat := 8

  /** The wildcard selection, matching every record. */
  const AllValue: string := "all"

  /** The values offered by the category buttons. */
  const CategoryOptions: seq<string> := ["all", "carpet", "mat"]

  /** The values offered by the scenario buttons. */
  const ScenarioOptions: seq<string> := ["all", "livingRoom", "bedroom", "entryway"]

  /** The filter selection: one value per dimension, each `"all"` or a tag. */
  datatype Filters = Filters(category: string, scenario: string, material: string)

  /** The selection the page starts with: every dimension `"all"`. */
  const DefaultFilters: Filters := Filters(AllValue, AllValue, AllValue)

  function Min(a: int, b: int): (m: int)
  {
    if a <= b then a else b
  }

  // ---------------------------------------------------------------------
  // Filtering

  /**
   * One dimension of the filter: the wildcard admits anything; any other
   * value must equal the record's tag (an absent tag equals no string).
   */
  predicate Admits(selected: string, tag: Option<string>)
    ensures selected == AllValue ==> Admits(selected, tag)
    ensures tag == None ==> (Admits(selected, tag) <==> selected == AllValue)
  {
    selected == AllValue || tag == Some(selected)
  }

  /** A record passes the filter when all three dimensions admit it. */
  predicate Matches(item: Carpet, f: Filters)
    ensures f == DefaultFilters ==> Matches(item, f)
    ensures item.category == None && item.scenario == None && item.materialKey == None ==>
      (Matches(item, f) <==> f == DefaultFilters)
  {
    && Admits(f.category, item.category)
    && Admits(f.scenario, item.scenario)
    && Admits(f.material, item.materialKey)
  }

  /** The records of `items` that pass the filter, in their original order. */
  function Filtered(items: seq<Carpet>, f: Filters): (r: seq<Carpet>)
    ensures |r| <= |items|
    ensures forall x :: x in r ==> x in items && Matches(x, f)
  {
    if items == [] then []
    else (if Matches(items[0], f) then [items[0]] else []) + Filtered(items[1..], f)
  }

  /** A record is in the filtered list exactly when it is in the catalog and passes the filter. */
  lemma {:induction false} FilteredMembers(items: seq<Carpet>, f: Filters)
    ensures forall x :: x in Filtered(items, f) <==> x in items && Matches(x, f)
  {
    if items != [] {
      FilteredMembers(items[1..], f);
      assert items == [items[0]] + items[1..];
    }
  }

  /** `a` is obtained from `b` by deleting elements, without reordering. */
  predicate IsSubsequence<T(==)>(a: seq<T>, b: seq<T>)
    decreases |b|
  {
    || a == []
    || (&& b != []
        && ((a[0] == b[0] && IsSubsequence(a[1..], b[1..])) || IsSubsequence(a, b[1..])))
  }

  /** Filtering keeps the catalog's order: the result is a subsequence of the input. */
  lemma {:induction false} FilteredInOrder(items: seq<Carpet>, f: Filters)
    ensures IsSubsequence(Filtered(items, f), items)
  {
    if items != [] {
      FilteredInOrder(items[1..], f);
      var r := Filtered(items, f);
      if Matches(items[0], f) {
        assert r[0] == items[0] && r[1..] == Filtered(items[1..], f);
      } else {
        assert r == Filtered(items[1..], f);
      }
    }
  }

  /**
   * Filtering keeps every occurrence of a passing record and drops every
   * occurrence of a failing one.
   */
  lemma {:induction false} FilteredCounts(items: seq<Carpet>, f: Filters)
    ensures forall x :: multiset(Filtered(items, f))[x] == if Matches(x, f) then multiset(items)[x] else 0
  {
    if items != [] {
      FilteredCounts(items[1..], f);
      assert items == [items[0]] + items[1..];
      assert multiset(items) == multiset([items[0]]) + multiset(items[1..]);
      var head := if Matches(items[0], f) then [items[0]] else [];
      assert Filtered(items, f) == head + Filtered(items[1..], f);
      assert multiset(Filtered(items, f)) == multiset(head) + multiset(Filtered(items[1..], f));
    }
  }

  /** No element occurs twice. */
  predicate Distinct<T(==)>(s: seq<T>)
  {
    forall i, j :: 0 <= i < j < |s| ==> s[i] != s[j]
  }

  /** Filtering a list without repetitions gives a list without repetitions. */
  lemma {:induction false} FilteredDistinct(items: seq<Carpet>, f: Filters)
    requires Distinct(items)
    ensures Distinct(Filtered(items, f))
  {
    if items != [] {
      var tail := items[1..];
      assert Distinct(tail) by {
        forall i, j | 0 <= i < j < |tail| ensures tail[i] != tail[j] {
          assert tail[i] == items[i + 1] && tail[j] == items[j + 1];
        }
      }
      FilteredDistinct(tail, f);
      var rest := Filtered(tail, f);
      if Matches(items[0], f) {
        var r := Filtered(items, f);
        assert items[0] !in tail by {
          forall k | 0 <= k < |tail| ensures tail[k] != items[0] {
            assert tail[k] == items[k + 1];
          }
        }
        forall i, j | 0 <= i < j < |r| ensures r[i] != r[j] {
          assert r[j] == rest[j - 1];
          if i == 0 {
            assert rest[j - 1] in rest;
          } else {
            assert r[i] == rest[i - 1];
          }
        }
      }
    }
  }

  /** The all-wildcard selection keeps every record. */
  lemma {:induction false} FilteredDefault(items: seq<Carpet>)
    ensures Filtered(items, DefaultFilters) == items
  {
    if items != [] {
      FilteredDefault(items[1..]);
      assert items == [items[0]] + items[1..];
    }
  }

  /**
   * On records that carry no tag fields, the filter keeps everything under
   * the all-wildcard selection and nothing under any other selection.
   */
  lemma {:induction false} FilteredUntagged(items: seq<Carpet>, f: Filters)
    requires forall x :: x in items ==> x.category.None? && x.scenario.None? && x.materialKey.None?
    ensures Filtered(items, f) == if f == DefaultFilters then items else []
  {
    if items != [] {
      FilteredUntagged(items[1..], f);
      assert items == [items[0]] + items[1..];
    }
  }

  /**
   * On the generated catalog, whose records carry no tags, any selection
   * other than all-wildcards gives an empty list.
   */
  lemma ShippedCatalogFilter(f: Filters)
    ensures Filtered(MockCarpets(), f) == if f == DefaultFilters then MockCarpets() else []
  {
    CatalogShape();
    FilteredUntagged(MockCarpets(), f);
  }

  // ---------------------------------------------------------------------
  // Paging

  /**
   * A bound of Array.prototype.slice resolved against length `len`: a
   * negative bound counts back from the end, and the result is clamped to
   * 0..len.
   */
  function SliceBound(k: int, len: nat): (r: nat)
    ensures r <= len
    ensures 0 <= k <= len ==> r == k
  {
    if k < 0 then (if len + k < 0 then 0 else len + k)
    else if k < len then k else len
  }

  /** Array.prototype.slice(start, end) on a sequence. */
  function JsSlice<T>(s: seq<T>, start: int, end: int): (r: seq<T>)
    ensures |r| <= |s|
    ensures start <= end ==> |r| <= end - start
    ensures 0 <= start <= end <= |s| ==> r == s[start..end]
  {
    var from, to := SliceBound(start, |s|), SliceBound(end, |s|);
    if from < to then s[from..to] else []
  }

  /** The items shown on page `page` (1-based): slice((page - 1) * 8, page * 8). */
  function PageSlice<T>(list: seq<T>, page: int): (r: seq<T>)
    ensures |r| <= PageSize
    ensures 1 <= page ==> r == list[Min((page - 1) * PageSize, |list|)..Min(page * PageSize, |list|)]
    ensures 1 <= page ==> (r == [] <==> |list| <= (page - 1) * PageSize)
  {
    JsSlice(list, (page - 1) * PageSize, page * PageSize)
  }

  /** Page 1 is the first up-to-8 items. */
  lemma FirstPage<T>(list: seq<T>)
    ensures PageSlice(list, 1) == list[..Min(PageSize, |list|)]
  {
  }

  /** The number of pages a list of `n` items spans: ceil(n / 8). */
  function PageCount(n: nat): (k: nat)
    ensures (k - 1) * PageSize < n <= k * PageSize || (n == 0 && k == 0)
  {
    (n + PageSize - 1) / PageSize
  }

  /** Pages 1..k laid end to end. */
  function Pages<T>(list: seq<T>, k: nat): (r: seq<T>)
  {
    if k == 0 then [] else Pages(list, k - 1) + PageSlice(list, k)
  }

  /** Pages 1..k laid end to end are the first 8k items (or the whole list, if shorter). */
  lemma {:induction false} PagesArePrefix<T>(list: seq<T>, k: nat)
    ensures Pages(list, k) == list[..Min(k * PageSize, |list|)]
  {
    if k > 0 {
      PagesArePrefix(list, k - 1);
      var a, b := Min((k - 1) * PageSize, |list|), Min(k * PageSize, |list|);
      assert list[..b] == list[..a] + list[a..b];
    }
  }

  /** Pages 1..ceil(n/8) laid end to end give back the whole list. */
  lemma PagesCoverList<T>(list: seq<T>)
    ensures Pages(list, PageCount(|list|)) == list
  {
    var k := PageCount(|list|);
    PagesArePrefix(list, k);
    assert Min(k * PageSize, |list|) == |list|;
  }

  /** The pages of a list without repetitions share no item. */
  lemma PagesDisjoint<T>(list: seq<T>, p: int, q: int)
    requires 1 <= p < q
    requires Distinct(list)
    ensures forall x :: x in PageSlice(list, p) ==> x !in PageSlice(list, q)
  {
  }

  /**
   * The unfiltered generated catalog spans 8 pages; pages 1 to 7 are full
   * and the last one holds 4 items.
   */
  lemma ShippedCatalogPages()
    ensures PageCount(|MockCarpets()|) == 8
    ensures forall p :: 1 <= p <= 7 ==> |PageSlice(MockCarpets(), p)| == PageSize
    ensures PageSlice(MockCarpets(), 8) == MockCarpets()[56..60]
    ensures PageSlice(MockCarpets(), 9) == []
  {
  }

  // ---------------------------------------------------------------------
  // View state and click handlers

  /** The page's state: language, filter selection and current page. */
  datatype ViewState = ViewState(lang: Language, filters: Filters, currentPage: int)

  /** The state the page starts in: Chinese, no filters, page 1. */
  const InitialState: ViewState := ViewState(Zh, DefaultFilters, 1)

  /** Effect of a category button: replace the category, back to page 1. */
  function ClickCategory(s: ViewState, v: string): (t: ViewState)
    ensures t.filters.category == v && t.currentPage == 1
    ensures t.filters.scenario == s.filters.scenario && t.filters.material == s.filters.material
    ensures t.lang == s.lang
  {
    s.(filters := s.filters.(category := v), currentPage := 1)
  }

  /** Effect of a scenario button: replace the scenario, back to page 1. */
  function ClickScenario(s: ViewState, v: string): (t: ViewState)
    ensures t.filters.scenario == v && t.currentPage == 1
    ensures t.filters.category == s.filters.category && t.filters.material == s.filters.material
    ensures t.lang == s.lang
  {
    s.(filters := s.filters.(scenario := v), currentPage := 1)
  }

  /** The filtered catalog in state `s`. */
  function FilteredItems(s: ViewState): (r: seq<Carpet>)
    ensures forall x :: x in r <==> x in MockCarpets() && Matches(x, s.filters)
  {
    FilteredMembers(MockCarpets(), s.filters);
    Filtered(MockCarpets(), s.filters)
  }

  /** The items visible in state `s`. */
  function CurrentItems(s: ViewState): (r: seq<Carpet>)
    ensures |r| <= PageSize
    ensures forall x :: x in r ==> x in FilteredItems(s)
  {
    PageSlice(FilteredItems(s), s.currentPage)
  }

  /** Clicking the same button twice has the effect of clicking it once. */
  lemma ClickIdempotent(s: ViewState, v: string)
    ensures ClickCategory(ClickCategory(s, v), v) == ClickCategory(s, v)
    ensures ClickScenario(ClickScenario(s, v), v) == ClickScenario(s, v)
  {
  }

  /** A category click and a scenario click give the same state in either order. */
  lemma ClicksCommute(s: ViewState, c: string, v: string)
    ensures ClickScenario(ClickCategory(s, c), v) == ClickCategory(ClickScenario(s, v), c)
  {
  }

  /**
   * The states the page can reach: category and scenario among the button
   * values, material still `"all"` (no handler sets it) and page 1 (every
   * handler resets it to 1 and nothing else sets it).
   */
  predicate Reachable(s: ViewState)
  {
    && s.filters.category in CategoryOptions
    && s.filters.scenario in ScenarioOptions
    && s.filters.material == AllValue
    && s.currentPage == 1
  }

  /** The initial state is reachable and every click keeps the state reachable. */
  lemma ReachableInvariant(s: ViewState, v: string)
    ensures Reachable(InitialState)
    ensures Reachable(s) && v in CategoryOptions ==> Reachable(ClickCategory(s, v))
    ensures Reachable(s) && v in ScenarioOptions ==> Reachable(ClickScenario(s, v))
  {
  }

  /** In the initial state the whole catalog is selected and its first 8 records are shown. */
  lemma InitialView()
    ensures FilteredItems(InitialState) == MockCarpets()
    ensures CurrentItems(InitialState) == MockCarpets()[..PageSize]
  {
    FilteredDefault(MockCarpets());
    CatalogShape();
  }

  /**
   * In every reachable state the filtered list is the whole catalog (no
   * category or scenario chosen) or empty, and the visible items are the
   * first page of it, so a record past position 8 is never shown.
   */
  lemma ReachableView(s: ViewState)
    requires Reachable(s)
    ensures FilteredItems(s) ==
      if s.filters.category == AllValue && s.filters.scenario == AllValue then MockCarpets() else []
    ensures CurrentItems(s) == FilteredItems(s)[..Min(PageSize, |FilteredItems(s)|)]
    ensures forall x :: x in CurrentItems(s) ==> x in MockCarpets()[..PageSize]
  {
    CatalogShape();
    ShippedCatalogFilter(s.filters);
  }

  /** The filtered list and the visible items do not depend on the language. */
  lemma LanguageIrrelevant(s: ViewState, lang: Language)
    ensures FilteredItems(s.(lang := lang)) == FilteredItems(s)
    ensures CurrentItems(s.(lang := lang)) == CurrentItems(s)
  {
  }

  /**
   * The page component's state. The source keeps it in framework state
   * cells; here it is a class whose click handlers update its fields.
   */
  class CatalogView {
    var lang: Language
    var category: string
    var scenario: string
    var material: string
    var currentPage: int

    /** The fields as a state value. */
    function State(): ViewState
      reads this
    {
      ViewState(lang, Filters(category, scenario, material), currentPage)
    }

    ghost predicate Valid()
      reads this
    {
      Reachable(State())
    }

    /** Chinese labels, every filter `"all"`, page 1. */
    constructor ()
      ensures Valid() && State() == InitialState
    {
      lang := Zh;
      category, scenario, material := AllValue, AllValue, AllValue;
      currentPage := 1;
    }

    /** A click on the category button for `v`. */
    method SetCategory(v: string)
      requires Valid() && v in CategoryOptions
      modifies this
      ensures Valid() && State() == ClickCategory(old(State()), v)
    {
      category := v;
      currentPage := 1;
    }

    /** A click on the scenario button for `v`. */
    method SetScenario(v: string)
      requires Valid() && v in ScenarioOptions
      modifies this
      ensures Valid() && State() == ClickScenario(old(State()), v)
    {
      scenario := v;
      currentPage := 1;
    }

    /** The labels for the current language; the page-counter template has both placeholders. */
    function Labels(): (t: Translation)
      reads this
      ensures lang == Zh ==> t == ZhLabels
      ensures lang == En ==> t == EnLabels
      ensures IsPageTemplate(t.pageOf)
    {
      TranslationsComplete();
      assert lang in Translations by {
        assert lang == Zh || lang == En;
      }
      Translations[lang]
    }

    /** The visible items: the first page of the filtered catalog. */
    function VisibleItems(): (r: seq<Carpet>)
      reads this
      requires Valid()
      ensures r == FilteredItems(State())[..Min(PageSize, |FilteredItems(State())|)]
    {
      FirstPage(FilteredItems(State()));
      CurrentItems(State())
    }
  }
}
