/**
 * The catalog page: the product filter (a case-insensitive search on name or
 * code, debounced, combined with one selected finish type), the list of
 * finish-type options, and the featured carousel over the first products.
 */
module Catalog {
  import opened Wrappers
  import opened Text
  import opened Seqs
  import opened Entities

  /** The finish-filter value that turns the filter off. */
  const AllFinishes: string := "all"

  /** How many leading products the carousel features. */
  const FeaturedCount: nat := 3

  // ---------------------------------------------------------------------
  // Filtering
  // ---------------------------------------------------------------------

  /** The lower-cased name or the lower-cased code includes the lower-cased query. */
  predicate NameOrCodeMatches(p: Product, query: string) {
    Includes(Lower(p.name), Lower(query)) || Includes(Lower(p.code), Lower(query))
  }

  /** `'all'` lets every product through; any other value must equal the finish type. */
  predicate FinishMatches(p: Product, finishFilter: string) {
    finishFilter == AllFinishes || p.finishType == finishFilter
  }

  predicate Matches(p: Product, query: string, finishFilter: string) {
    NameOrCodeMatches(p, query) && FinishMatches(p, finishFilter)
  }

  /** The grid's list: the matching products, in catalog order. */
  function FilteredProducts(products: seq<Product>, query: string, finishFilter: string): (r: seq<Product>)
    ensures IsSubsequence(r, products)
    ensures forall i :: 0 <= i < |r| ==> r[i] in products && Matches(r[i], query, finishFilter)
    ensures forall i :: 0 <= i < |products| && Matches(products[i], query, finishFilter) ==> products[i] in r
    ensures forall p :: multiset(r)[p] == if Matches(p, query, finishFilter) then multiset(products)[p] else 0
  {
    FilterMultiset(products, (p: Product) => Matches(p, query, finishFilter));
    Filter(products, (p: Product) => Matches(p, query, finishFilter))
  }

  /**
   * What the search means: a product is listed exactly when the lower-cased
   * query occurs at some position of its lower-cased name or code, and the
   * finish filter is `'all'` or names its finish type.
   */
  lemma ListedIff(products: seq<Product>, query: string, finishFilter: string, p: Product)
    ensures p in FilteredProducts(products, query, finishFilter) <==>
      p in products &&
      ((exists i :: OccursAt(Lower(p.name), Lower(query), i)) ||
       (exists i :: OccursAt(Lower(p.code), Lower(query), i))) &&
      (finishFilter == AllFinishes || p.finishType == finishFilter)
  {
    IncludesIffOccurs(Lower(p.name), Lower(query));
    IncludesIffOccurs(Lower(p.code), Lower(query));
    var r := FilteredProducts(products, query, finishFilter);
    if p in r {
      var k :| 0 <= k < |r| && r[k] == p;
    }
    if p in products && Matches(p, query, finishFilter) {
      var k :| 0 <= k < |products| && products[k] == p;
    }
  }

  /** With an empty search and the filter on `'all'`, every product is listed, in order. */
  lemma EmptySearchListsAll(products: seq<Product>)
    ensures FilteredProducts(products, "", AllFinishes) == products
  {
    forall i | 0 <= i < |products|
      ensures Matches(products[i], "", AllFinishes)
    {
      IncludesEmpty(Lower(products[i].name));
    }
  }

  /** Choosing a finish type only narrows the list that `'all'` gives. */
  lemma FinishFilterNarrows(products: seq<Product>, query: string, finishFilter: string)
    ensures IsSubsequence(FilteredProducts(products, query, finishFilter), FilteredProducts(products, query, AllFinishes))
  {
    FilterNarrows(products,
      (p: Product) => Matches(p, query, finishFilter),
      (p: Product) => Matches(p, query, AllFinishes));
  }

  // ---------------------------------------------------------------------
  // Finish-type options
  // ---------------------------------------------------------------------

  /** `products.map(p => p.finishType)`. */
  function FinishTypesOf(products: seq<Product>): (r: seq<string>)
    ensures |r| == |products|
    ensures forall i :: 0 <= i < |products| ==> r[i] == products[i].finishType
  {
    seq(|products|, i requires 0 <= i < |products| => products[i].finishType)
  }

  /**
   * The options of the finish select: `'all'`, then every finish type that
   * some product has, each once.
   */
  function FinishTypes(products: seq<Product>): (r: seq<string>)
    ensures |r| >= 1 && r[0] == AllFinishes
    ensures NoDuplicates(r[1..])
    ensures forall i :: 0 <= i < |products| ==> products[i].finishType in r[1..]
    ensures forall k :: 1 <= k < |r| ==> exists i :: 0 <= i < |products| && products[i].finishType == r[k]
  {
    var types := FinishTypesOf(products);
    var distinct := Distinct(types);
    assert ([AllFinishes] + distinct)[1..] == distinct;
    forall k | 1 <= k < |[AllFinishes] + distinct|
      ensures exists i :: 0 <= i < |products| && products[i].finishType == ([AllFinishes] + distinct)[k]
    {
      var i :| 0 <= i < |types| && types[i] == distinct[k - 1];
    }
    [AllFinishes] + distinct
  }

  /**
   * The options come in first-occurrence order: the options for a prefix of
   * the catalog are a prefix of the options for the whole catalog.
   */
  lemma FinishTypesFirstOccurrence(products: seq<Product>, k: nat)
    requires k <= |products|
    ensures FinishTypes(products[..k]) <= FinishTypes(products)
  {
    assert FinishTypesOf(products[..k]) == FinishTypesOf(products)[..k];
    DistinctPrefix(FinishTypesOf(products), k);
  }

  // ---------------------------------------------------------------------
  // Featured carousel
  // ---------------------------------------------------------------------

  /**
   * `products.slice(0, 3)`: the first three products, or all of them when
   * there are fewer. It depends on the catalog alone, never on the search.
   */
  function Featured(products: seq<Product>): (r: seq<Product>)
    ensures r <= products
    ensures |r| == if |products| < FeaturedCount then |products| else FeaturedCount
  {
    products[..if |products| < FeaturedCount then |products| else FeaturedCount]
  }

  /** The next slide: one forward, wrapping from the last slide to the first. */
  function NextSlide(current: nat, n: nat): (r: nat)
    requires n > 0
    ensures r < n
    ensures current + 1 < n ==> r == current + 1
    ensures current + 1 == n ==> r == 0
  {
    (current + 1) % n
  }

  /** The previous slide: one back, wrapping from the first slide to the last. */
  function PrevSlide(current: nat, n: nat): (r: nat)
    requires n > 0
    ensures r < n
    ensures 0 < current < n ==> r == current - 1
    ensures current == 0 ==> r == n - 1
  {
    (current - 1 + n) % n
  }

  /** Back after forward, and forward after back, return to the same slide. */
  lemma PrevNextInverse(current: nat, n: nat)
    requires current < n
    ensures PrevSlide(NextSlide(current, n), n) == current
    ensures NextSlide(PrevSlide(current, n), n) == current
  {
  }

  /** The slide after `k` forward steps (clicks on "next" or interval ticks). */
  function Advance(current: nat, n: nat, k: nat): (r: nat)
    requires n > 0 && current < n
    ensures r < n
    decreases k
  {
    if k == 0 then current else Advance(NextSlide(current, n), n, k - 1)
  }

  lemma {:induction false} AdvanceCompose(current: nat, n: nat, a: nat, b: nat)
    requires n > 0 && current < n
    ensures Advance(current, n, a + b) == Advance(Advance(current, n, a), n, b)
    decreases a
  {
    if a > 0 {
      AdvanceCompose(NextSlide(current, n), n, a - 1, b);
    }
  }

  lemma {:induction false} AdvanceWithoutWrap(current: nat, n: nat, k: nat)
    requires current + k < n
    ensures Advance(current, n, k) == current + k
    decreases k
  {
    if k > 0 {
      AdvanceWithoutWrap(current + 1, n, k - 1);
    }
  }

  /** `n` forward steps over `n` slides come back to the starting slide. */
  lemma FullCycle(current: nat, n: nat)
    requires current < n
    ensures Advance(current, n, n) == current
  {
    var toLast := n - 1 - current;
    AdvanceWithoutWrap(current, n, toLast);
    AdvanceCompose(current, n, toLast, 1 + current);
    AdvanceCompose(n - 1, n, 1, current);
    AdvanceWithoutWrap(0, n, current);
  }

  // ---------------------------------------------------------------------
  // Search debounce
  // ---------------------------------------------------------------------

  /**
   * The search box: what is typed, the value the filter uses, and the value
   * that the pending 300 ms timer will apply, if a timer is pending.
   */
  datatype SearchBox = SearchBox(query: string, debounced: string, timer: Option<string>)

  /** On mount the effect already schedules a timer for the empty query. */
  const InitialSearch: SearchBox := SearchBox("", "", Some(""))

  /** A pending timer always carries the current query; with none, the filter is up to date. */
  ghost predicate Consistent(s: SearchBox) {
    (s.timer.Some? ==> s.timer.value == s.query) && (s.timer.None? ==> s.debounced == s.query)
  }

  /** The spinner replaces the search icon while the typed text is not yet applied. */
  predicate Spinning(s: SearchBox) {
    s.query != s.debounced
  }

  /**
   * Typing `q`: an unchanged value is ignored (the effect does not re-run);
   * a new value cancels the pending timer and schedules one for `q`. The
   * filter's value never changes here.
   */
  function Type(s: SearchBox, q: string): (r: SearchBox)
    ensures r.query == q && r.debounced == s.debounced
    ensures q != s.query ==> r.timer == Some(q)
    ensures Consistent(s) ==> Consistent(r)
  {
    if q == s.query then s else SearchBox(q, s.debounced, Some(q))
  }

  /** The pending timer fires: the filter takes the value the timer carries. */
  function Fire(s: SearchBox): (r: SearchBox)
    requires s.timer.Some?
    ensures r.query == s.query && r.debounced == s.timer.value && r.timer == None
    ensures Consistent(s) ==> Consistent(r) && !Spinning(r)
  {
    SearchBox(s.query, s.timer.value, None)
  }

  /** The spinner shows only while a timer is pending. */
  lemma SpinningMeansPending(s: SearchBox)
    requires Consistent(s) && Spinning(s)
    ensures s.timer == Some(s.query)
  {
  }

  /** A burst of keystrokes, one `Type` per value. */
  function TypeAll(s: SearchBox, qs: seq<string>): SearchBox
    decreases |qs|
  {
    if qs == [] then s else TypeAll(Type(s, qs[0]), qs[1..])
  }

  /** Letting the pending timer, if any, fire. */
  function Settle(s: SearchBox): SearchBox {
    if s.timer.Some? then Fire(s) else s
  }

  /**
   * A burst of keystrokes applies nothing while it lasts and leaves at most
   * one timer; when it fires, the filter gets the last value typed.
   */
  lemma {:induction false} BurstAppliesLast(s: SearchBox, qs: seq<string>)
    requires Consistent(s) && |qs| > 0
    ensures TypeAll(s, qs).debounced == s.debounced
    ensures TypeAll(s, qs).query == qs[|qs| - 1]
    ensures Consistent(TypeAll(s, qs))
    ensures Settle(TypeAll(s, qs)).debounced == qs[|qs| - 1]
    decreases |qs|
  {
    if |qs| > 1 {
      BurstAppliesLast(Type(s, qs[0]), qs[1..]);
      assert qs[1..][|qs[1..]| - 1] == qs[|qs| - 1];
    } else {
      assert TypeAll(Type(s, qs[0]), qs[1..]) == Type(s, qs[0]);
    }
  }

  // ---------------------------------------------------------------------
  // The page's state
  // ---------------------------------------------------------------------

  /** The catalog page component with its state hooks. */
  class CatalogPage {
    var products: seq<Product>
    var loading: bool
    var searchQuery: string
    var debouncedSearchQuery: string
    /** The value the pending debounce timer will apply, if one is pending. */
    var debounceTimer: Option<string>
    var finishFilter: string
    var currentSlide: nat
    /** A 5 s auto-advance interval is registered. */
    var autoAdvancing: bool
    /** How many times the auto-advance effect has registered an interval. */
    ghost var intervalStarts: nat

    function Search(): SearchBox
      reads this
    {
      SearchBox(searchQuery, debouncedSearchQuery, debounceTimer)
    }

    function Slides(): nat
      reads this
    {
      |Featured(products)|
    }

    ghost predicate Valid()
      reads this
    {
      && Consistent(Search())
      && (Slides() > 0 ==> currentSlide < Slides())
      && (Slides() == 0 ==> currentSlide == 0)
      && autoAdvancing == (Slides() > 0)
      && (loading ==> products == [])
    }

    /** The products the grid shows. */
    function Visible(): seq<Product>
      reads this
    {
      FilteredProducts(products, debouncedSearchQuery, finishFilter)
    }

    /** The spinner replaces the search icon; in a consistent state a timer is then pending for the typed text. */
    function ShowSpinner(): (spinning: bool)
      reads this
      ensures spinning <==> searchQuery != debouncedSearchQuery
      ensures spinning && Consistent(Search()) ==> debounceTimer == Some(searchQuery)
    {
      Spinning(Search())
    }

    /** The carousel, its arrows and its indicators are rendered: once loaded, whenever there is any product. */
    function ShowCarousel(): (shown: bool)
      reads this
      ensures shown <==> !loading && products != []
    {
      !loading && Slides() > 0
    }

    /** "No product found" replaces the grid: once loaded, exactly when no product passes both filters. */
    function ShowEmptyState(): (empty: bool)
      reads this
      ensures empty <==> !loading && forall i :: 0 <= i < |products| ==> !Matches(products[i], debouncedSearchQuery, finishFilter)
    {
      !loading && Visible() == []
    }

    constructor ()
      ensures Valid() && loading && products == []
      ensures Search() == InitialSearch && finishFilter == AllFinishes
      ensures currentSlide == 0 && !autoAdvancing && intervalStarts == 0
    {
      products, loading := [], true;
      searchQuery, debouncedSearchQuery, debounceTimer := "", "", Some("");
      finishFilter, currentSlide := AllFinishes, 0;
      autoAdvancing, intervalStarts := false, 0;
    }

    /**
     * The mount-time fetch settles: the list is replaced on success and kept
     * (empty) on failure; loading ends either way. A change in the number of
     * featured products re-runs the auto-advance effect.
     */
    method ProductsFetched(result: Option<seq<Product>>)
      requires Valid() && loading
      modifies this
      ensures Valid() && !loading
      ensures products == result.GetOr(old(products))
      ensures Search() == old(Search()) && finishFilter == old(finishFilter)
      ensures currentSlide == old(currentSlide)
      ensures intervalStarts == old(intervalStarts) + (if Slides() != old(Slides()) && Slides() > 0 then 1 else 0)
    {
      var before := Slides();
      if result.Some? {
        products := result.value;
      }
      loading := false;
      if Slides() != before {
        autoAdvancing := Slides() > 0;
        if autoAdvancing {
          intervalStarts := intervalStarts + 1;
        }
      }
    }

    /** Typing in the search box: the grid does not change until the timer fires. */
    method OnSearchInput(q: string)
      requires Valid()
      modifies this
      ensures Valid()
      ensures Search() == Type(old(Search()), q)
      ensures Visible() == old(Visible())
      ensures products == old(products) && loading == old(loading) && finishFilter == old(finishFilter)
      ensures currentSlide == old(currentSlide) && autoAdvancing == old(autoAdvancing)
      ensures intervalStarts == old(intervalStarts)
    {
      if q != searchQuery {
        searchQuery := q;
        debounceTimer := Some(q);
      }
    }

    /** The pending debounce timer fires: the filter takes the typed text and the spinner stops. */
    method OnDebounceTimer()
      requires Valid() && debounceTimer.Some?
      modifies this
      ensures Valid()
      ensures Search() == Fire(old(Search()))
      ensures !ShowSpinner()
      ensures Visible() == FilteredProducts(products, searchQuery, finishFilter)
      ensures products == old(products) && loading == old(loading) && finishFilter == old(finishFilter)
      ensures currentSlide == old(currentSlide) && autoAdvancing == old(autoAdvancing)
      ensures intervalStarts == old(intervalStarts)
    {
      debouncedSearchQuery := debounceTimer.value;
      debounceTimer := None;
    }

    /** Choosing an option of the finish select applies at once (it is not debounced). */
    method OnFinishSelect(f: string)
      requires Valid()
      modifies this
      ensures Valid()
      ensures finishFilter == f
      ensures Visible() == FilteredProducts(products, debouncedSearchQuery, f)
      ensures products == old(products) && loading == old(loading) && Search() == old(Search())
      ensures currentSlide == old(currentSlide) && autoAdvancing == old(autoAdvancing)
      ensures intervalStarts == old(intervalStarts)
    {
      finishFilter := f;
    }

    /** The "next" arrow. The interval keeps running; it is neither reset nor paused. */
    method OnNextClick()
      requires Valid() && ShowCarousel()
      modifies this
      ensures Valid()
      ensures products == old(products) && loading == old(loading) && Search() == old(Search())
      ensures currentSlide == NextSlide(old(currentSlide), |Featured(products)|)
      ensures finishFilter == old(finishFilter) && autoAdvancing == old(autoAdvancing)
      ensures intervalStarts == old(intervalStarts)
    {
      currentSlide := (currentSlide + 1) % Slides();
    }

    /** The "previous" arrow. The interval keeps running; it is neither reset nor paused. */
    method OnPrevClick()
      requires Valid() && ShowCarousel()
      modifies this
      ensures Valid()
      ensures products == old(products) && loading == old(loading) && Search() == old(Search())
      ensures currentSlide == PrevSlide(old(currentSlide), |Featured(products)|)
      ensures finishFilter == old(finishFilter) && autoAdvancing == old(autoAdvancing)
      ensures intervalStarts == old(intervalStarts)
    {
      currentSlide := (currentSlide - 1 + Slides()) % Slides();
    }

    /** An indicator dot jumps straight to its slide. */
    method OnIndicatorClick(i: nat)
      requires Valid() && ShowCarousel() && i < Slides()
      modifies this
      ensures Valid()
      ensures currentSlide == i
      ensures products == old(products) && loading == old(loading) && Search() == old(Search())
      ensures finishFilter == old(finishFilter) && autoAdvancing == old(autoAdvancing)
      ensures intervalStarts == old(intervalStarts)
    {
      currentSlide := i;
    }

    /** A tick of the auto-advance interval takes the same step as the "next" arrow. */
    method OnIntervalTick()
      requires Valid() && autoAdvancing
      modifies this
      ensures Valid()
      ensures products == old(products) && loading == old(loading) && Search() == old(Search())
      ensures currentSlide == NextSlide(old(currentSlide), |Featured(products)|)
      ensures finishFilter == old(finishFilter) && autoAdvancing == old(autoAdvancing)
      ensures intervalStarts == old(intervalStarts)
    {
      currentSlide := (currentSlide + 1) % Slides();
    }
  }
}
