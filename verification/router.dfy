/**
 * The application shell's hash router: which top-level page a location
 * fragment selects, and what a change of fragment does (open the contact
 * modal, schedule a scroll to a section, scroll to the top, or nothing).
 */
module Router {
  import opened Wrappers
  import opened Text

  /** The four top-level views. */
  datatype Page = HomePage | CatalogPage | ServicesPage | ProductDetailPage(productId: int)

  const CatalogRoute: string := "#catalogo"
  const ServicesRoute: string := "#servicos-detalhe"
  const ContactRoute: string := "#contacto"
  const HomeRoute: string := "#home"
  const ProductPrefix: string := "#produto/"

  /**
   * `parseInt(route.split('/')[1])`: the second `/`-piece of a product
   * fragment is the first `/`-piece of what follows `#produto/`, so the id
   * is the number that text starts with.
   */
  function ProductIdOf(route: string): (id: Option<int>)
    requires ProductPrefix <= route
    ensures id == ParseInt(Split(route[|ProductPrefix|..], '/')[0])
  {
    SecondPieceAfterPrefix(route);
    ParseInt(Split(route, '/')[1])
  }

  /**
   * `renderPage`: the catalog and the services page for their two fragments;
   * the product page for `#produto/<n>` whose piece after the first `/`
   * starts with a number; the home page for every other fragment.
   */
  function RenderPage(route: string): (p: Page)
    ensures p == CatalogPage <==> route == CatalogRoute
    ensures p == ServicesPage <==> route == ServicesRoute
    ensures p.ProductDetailPage? <==> ProductPrefix <= route && ProductIdOf(route).Some?
    ensures p.ProductDetailPage? ==> Some(p.productId) == ProductIdOf(route)
    ensures p == HomePage <==>
      route != CatalogRoute && route != ServicesRoute && !(ProductPrefix <= route && ProductIdOf(route).Some?)
  {
    if route == CatalogRoute then CatalogPage
    else if route == ServicesRoute then ServicesPage
    else if ProductPrefix <= route && ProductIdOf(route).Some? then ProductDetailPage(ProductIdOf(route).value)
    else HomePage
  }

  /** The second `/`-piece of a product fragment is the first piece after `#produto/`. */
  lemma SecondPieceAfterPrefix(route: string)
    requires ProductPrefix <= route
    ensures |Split(route, '/')| >= 2
    ensures Split(route, '/')[1] == Split(route[|ProductPrefix|..], '/')[0]
  {
    var rest := route[|ProductPrefix|..];
    var slashed := ['/'] + rest;
    assert route == "#produto" + slashed;
    assert '/' !in "#produto";
    SplitPrefix("#produto", slashed, '/');
    assert slashed[0] == '/' && slashed[1..] == rest;
    assert Split(slashed, '/') == [""] + Split(rest, '/');
  }

  /** The first `/`-piece of a string whose head is not `/` starts with that head. */
  lemma FirstPieceHead(s: string)
    requires s != [] && s[0] != '/'
    ensures Split(s, '/')[0] != [] && Split(s, '/')[0][0] == s[0]
  {
  }

  /** A shown integer is a sign and digits, so it has no `/`. */
  lemma ShowHasNoSlash(n: int)
    ensures '/' !in Show(n)
  {
    var digits := ShowNat(if n < 0 then -n else n);
    assert forall i :: 0 <= i < |digits| ==> IsDigit(digits[i]);
    assert Show(n) == if n < 0 then "-" + digits else digits;
  }

  /** The piece after a `/`-free head continues the head without a digit. */
  lemma HeadThenRestPiece(rest: string)
    requires rest == [] || !IsDigit(rest[0])
    ensures var h := Split(rest, '/')[0]; h == [] || !IsDigit(h[0])
  {
    if rest != [] && rest[0] != '/' {
      FirstPieceHead(rest);
    } else if rest != [] {
      assert rest == ['/'] + rest[1..];
    }
  }

  /** `parseInt` of the first `/`-piece of a shown integer followed by a non-digit gives the integer back. */
  lemma ShownFirstPiece(id: int, rest: string)
    requires rest == [] || !IsDigit(rest[0])
    ensures ParseInt(Split(Show(id) + rest, '/')[0]) == Some(id)
  {
    ShowHasNoSlash(id);
    SplitPrefix(Show(id), rest, '/');
    HeadThenRestPiece(rest);
    ParseIntShow(id, Split(rest, '/')[0]);
  }

  /** The id a product link carries is read back by `parseInt`. */
  lemma ProductLinkId(id: int, rest: string)
    requires rest == [] || !IsDigit(rest[0])
    ensures ProductIdOf(ProductPrefix + Show(id) + rest) == Some(id)
  {
    assert ProductPrefix + Show(id) + rest == ProductPrefix + (Show(id) + rest);
    assert (ProductPrefix + (Show(id) + rest))[|ProductPrefix|..] == Show(id) + rest;
    ShownFirstPiece(id, rest);
  }

  /** A fragment beginning with `#produto/` is neither the catalog's nor the services page's. */
  lemma ProductRouteIsNoOtherPage(route: string)
    requires ProductPrefix <= route
    ensures route != CatalogRoute && route != ServicesRoute
  {
    assert route[1] == 'p';
  }

  /**
   * A product link `#produto/<id>` (as the catalog cards and the carousel
   * write it), followed by anything that does not continue the number,
   * opens that product.
   */
  lemma ProductLinkRoutes(id: int, rest: string)
    requires rest == [] || !IsDigit(rest[0])
    ensures RenderPage(ProductPrefix + Show(id) + rest) == ProductDetailPage(id)
  {
    var route := ProductPrefix + Show(id) + rest;
    assert ProductPrefix <= route;
    ProductRouteIsNoOtherPage(route);
    ProductLinkId(id, rest);
  }

  /** A lone word is a single `/`-piece. */
  lemma SinglePiece(word: string)
    requires '/' !in word
    ensures Split(word, '/')[0] == word
  {
    SplitJoin([word], '/');
  }

  /** A product fragment whose id is no number (`#produto/abc`, or none at all) falls back to the home page. */
  lemma NonNumericProductRoutesHome(rest: string)
    requires forall i :: 0 <= i < |rest| ==> !IsDigit(rest[i]) && rest[i] != '/'
    ensures RenderPage(ProductPrefix + rest) == HomePage
  {
    var route := ProductPrefix + rest;
    assert ProductPrefix <= route;
    ProductRouteIsNoOtherPage(route);
    assert route[|ProductPrefix|..] == rest;
    SinglePiece(rest);
    assert ParseInt(rest).None?;
  }

  /** The empty fragment and `#home` select the home page. */
  lemma HomeFallbacks()
    ensures RenderPage("") == HomePage
    ensures RenderPage(HomeRoute) == HomePage
  {
    assert !(ProductPrefix <= HomeRoute);
  }

  // ---------------------------------------------------------------------
  // Reactions to a fragment change
  // ---------------------------------------------------------------------

  /** What the hash-change handler does, besides recording the new route. */
  datatype HashEffect =
    | OpenContactModal              // open the contact modal and rewrite the fragment to #home
    | ScheduleScroll(hash: string)  // a 150 ms timer that will scroll for this fragment
    | ScrollToTopNow
    | NoScroll

  /** The id of the section a fragment names: the fragment without its first `#`. */
  function SectionId(hash: string): string {
    RemoveFirst(hash, '#')
  }

  /**
   * `handleHashChange`'s decision: `#contacto` opens the contact modal; a
   * non-empty fragment other than the catalog and the product pages schedules
   * one delayed scroll; the empty fragment scrolls to the top at once; the
   * catalog and product fragments scroll nowhere.
   */
  function HashChangeEffect(hash: string): (e: HashEffect)
    ensures e == OpenContactModal <==> hash == ContactRoute
    ensures e.ScheduleScroll? <==>
      hash != ContactRoute && hash != "" && hash != CatalogRoute && !(ProductPrefix <= hash)
    ensures e.ScheduleScroll? ==> e.hash == hash
    ensures e == ScrollToTopNow <==> hash == ""
    ensures e == NoScroll <==> hash == CatalogRoute || ProductPrefix <= hash
  {
    if hash == ContactRoute then OpenContactModal
    else if hash != "" && hash != CatalogRoute && !(ProductPrefix <= hash) then ScheduleScroll(hash)
    else if hash != CatalogRoute && !(ProductPrefix <= hash) then ScrollToTopNow
    else NoScroll
  }

  /** What the page does when a scheduled scroll timer fires. */
  datatype ScrollAction = ScrollIntoView(elementId: string) | ScrollToTop | NoAction

  /**
   * The delayed scroll: to the section when it exists; when it does not, to
   * the top only for `#home`, otherwise nowhere.
   */
  function ScrollTimerAction(hash: string, elementExists: bool): (a: ScrollAction)
    ensures elementExists ==> a == ScrollIntoView(SectionId(hash))
    ensures !elementExists ==> (a == ScrollToTop <==> hash == HomeRoute)
    ensures !elementExists && hash != HomeRoute ==> a == NoAction
  {
    if elementExists then ScrollIntoView(SectionId(hash))
    else if hash == HomeRoute then ScrollToTop
    else NoAction
  }

  /** A fragment's section id is the fragment after its leading `#`. */
  lemma SectionIdOfFragment(name: string)
    ensures SectionId("#" + name) == name
  {
  }

  /**
   * The contact trap rewrites the fragment to `#home`, and handling `#home`
   * does not reopen the modal and shows the home page. The trap fires again
   * whenever `#contacto` comes back, as it does when the user goes back in
   * the browser history.
   */
  lemma ContactRewriteShowsHome()
    ensures HashChangeEffect(ContactRoute) == OpenContactModal
    ensures HashChangeEffect(HomeRoute) == ScheduleScroll(HomeRoute)
    ensures RenderPage(HomeRoute) == HomePage
  {
    assert !(ProductPrefix <= HomeRoute);
  }

  /** The application shell's routing state. */
  class AppShell {
    /** `window.location.hash`. */
    var hash: string
    var route: string
    var contactModalOpen: bool
    /** The fragments captured by scroll timers still pending, oldest first. */
    var pendingScrolls: seq<string>

    /** The page being rendered. */
    function Page(): Page
      reads this
    {
      RenderPage(route)
    }

    /** The first render: the route is whatever fragment the page was opened with. */
    constructor (initialHash: string)
      ensures hash == initialHash && route == initialHash
      ensures !contactModalOpen && pendingScrolls == []
    {
      hash, route := initialHash, initialHash;
      contactModalOpen, pendingScrolls := false, [];
    }

    /**
     * The mount effect: with a fragment, handle it once; without one, set it to
     * `#home`, which makes the browser deliver a hash change later.
     */
    method Mount() returns (handled: bool, immediate: ScrollAction)
      modifies this
      ensures handled <==> old(hash) != ""
      ensures !handled ==> hash == HomeRoute && route == old(route) && immediate == NoAction
      ensures !handled ==> contactModalOpen == old(contactModalOpen) && pendingScrolls == old(pendingScrolls)
      ensures handled ==> route == old(hash)
      ensures handled && HashChangeEffect(old(hash)) == OpenContactModal ==>
        contactModalOpen && hash == HomeRoute && pendingScrolls == old(pendingScrolls)
      ensures handled && HashChangeEffect(old(hash)) != OpenContactModal ==>
        contactModalOpen == old(contactModalOpen) && hash == old(hash)
      ensures handled ==>
        pendingScrolls == old(pendingScrolls) + (if HashChangeEffect(old(hash)).ScheduleScroll? then [old(hash)] else [])
      ensures handled ==> immediate == NoAction
    {
      if hash != "" {
        handled := true;
        immediate := HandleHashChange();
      } else {
        handled, immediate := false, NoAction;
        hash := HomeRoute;
      }
    }

    /**
     * `handleHashChange`: record the fragment as the route, then act as
     * `HashChangeEffect` decides. The immediate scroll, if any, is returned;
     * a delayed one is queued.
     */
    method HandleHashChange() returns (immediate: ScrollAction)
      modifies this
      ensures route == old(hash)
      ensures HashChangeEffect(old(hash)) == OpenContactModal ==>
        contactModalOpen && hash == HomeRoute && pendingScrolls == old(pendingScrolls)
      ensures HashChangeEffect(old(hash)) != OpenContactModal ==>
        contactModalOpen == old(contactModalOpen) && hash == old(hash)
      ensures pendingScrolls ==
        old(pendingScrolls) + (if HashChangeEffect(old(hash)).ScheduleScroll? then [old(hash)] else [])
      ensures immediate == (if HashChangeEffect(old(hash)) == ScrollToTopNow then ScrollToTop else NoAction)
    {
      var newHash := hash;
      route := newHash;
      immediate := NoAction;
      if newHash == ContactRoute {
        contactModalOpen := true;
        hash := HomeRoute;
        return;
      }
      if newHash != "" && newHash != CatalogRoute && !(ProductPrefix <= newHash) {
        pendingScrolls := pendingScrolls + [newHash];
      } else if newHash != CatalogRoute && !(ProductPrefix <= newHash) {
        immediate := ScrollToTop;
      }
    }

    /** The oldest scroll timer fires; the DOM lookup's outcome is a parameter. */
    method ScrollTimerFires(elementExists: bool) returns (action: ScrollAction)
      requires pendingScrolls != []
      modifies this
      ensures action == ScrollTimerAction(old(pendingScrolls)[0], elementExists)
      ensures pendingScrolls == old(pendingScrolls)[1..]
      ensures hash == old(hash) && route == old(route) && contactModalOpen == old(contactModalOpen)
    {
      var h := pendingScrolls[0];
      pendingScrolls := pendingScrolls[1..];
      if elementExists {
        action := ScrollIntoView(RemoveFirst(h, '#'));
      } else if h == HomeRoute {
        action := ScrollToTop;
      } else {
        action := NoAction;
      }
    }

    /** The contact modal's close button. */
    method CloseContactModal()
      modifies this
      ensures !contactModalOpen
      ensures hash == old(hash) && route == old(route) && pendingScrolls == old(pendingScrolls)
    {
      contactModalOpen := false;
    }
  }
}
