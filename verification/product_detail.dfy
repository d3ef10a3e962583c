/**
 * The product page: it fetches the whole product list, keeps the first
 * product with the requested id, and shows a loading placeholder, a
 * not-found notice or the product with its technical-sheet control.
 */
module ProductDetail {
  import opened Wrappers
  import opened Entities
  import opened Router
  import opened Server

  /** `data.find(p => p.id === id) || null`: the first product with the id, or nothing. */
  function FindById(ps: seq<Product>, id: int): (r: Option<Product>)
    ensures r.None? <==> forall i :: 0 <= i < |ps| ==> ps[i].id != id
    ensures r.Some? ==> r.value.id == id
    ensures r.Some? ==> exists k :: 0 <= k < |ps| && ps[k] == r.value && forall j :: 0 <= j < k ==> ps[j].id != id
  {
    if ps == [] then None
    else if ps[0].id == id then Some(ps[0])
    else
      var r := FindById(ps[1..], id);
      assert forall i :: 1 <= i < |ps| ==> ps[i] == ps[1..][i - 1];
      if r.Some? then
        var k :| 0 <= k < |ps[1..]| && ps[1..][k] == r.value && forall j :: 0 <= j < k ==> ps[1..][j].id != id;
        assert ps[k + 1] == r.value;
        r
      else r
  }

  /** In a store with distinct ids, looking up an entry's id finds that entry. */
  lemma {:induction false} FindByIdUnique(ps: seq<Product>, k: nat)
    requires DistinctIds(ps) && k < |ps|
    ensures FindById(ps, ps[k].id) == Some(ps[k])
  {
    var r := FindById(ps, ps[k].id);
    assert r.Some?;
    var m :| 0 <= m < |ps| && ps[m] == r.value && forall j :: 0 <= j < m ==> ps[j].id != ps[k].id;
    assert m >= k;
    if k < m {
      assert ps[k].id != ps[m].id;
    }
  }

  /** A product the server has just added is found by its id. */
  lemma AddedProductIsFound(ps: seq<Product>, form: ProductForm)
    ensures FindById(ps + [NewProduct(ps, form)], NewProduct(ps, form).id) == Some(NewProduct(ps, form))
  {
    var p := NewProduct(ps, form);
    var qs := ps + [p];
    assert qs[|ps|] == p;
    assert forall i :: 0 <= i < |ps| ==> qs[i] == ps[i];
  }

  /** The technical-sheet control. */
  datatype DrawingControl = DownloadLink(url: string) | UnavailableButton

  /** A download link to the drawing when the product has one, a disabled button otherwise. */
  function DrawingControlFor(p: Product): (c: DrawingControl)
    ensures c.DownloadLink? <==> p.drawingUrl != ""
    ensures c.DownloadLink? ==> c.url == p.drawingUrl
  {
    if p.drawingUrl != "" then DownloadLink(p.drawingUrl) else UnavailableButton
  }

  /** A product added without a drawing file never offers a download. */
  lemma DownloadOnlyWithUploadedDrawing(ps: seq<Product>, form: ProductForm)
    ensures DrawingControlFor(NewProduct(ps, form)).DownloadLink? <==> form.drawing.Some?
  {
  }

  /** What the page renders. */
  datatype Screen =
    | LoadingScreen
    | NotFoundScreen(backLink: string)
    | DetailScreen(product: Product, drawing: DrawingControl)

  /** The placeholder while loading; then the not-found notice linking back to the catalog, or the product. */
  function ScreenFor(loading: bool, product: Option<Product>): (s: Screen)
    ensures s == LoadingScreen <==> loading
    ensures s.NotFoundScreen? <==> !loading && product.None?
    ensures s.NotFoundScreen? ==> s.backLink == CatalogRoute
    ensures s.DetailScreen? ==> product == Some(s.product) && s.drawing == DrawingControlFor(s.product)
  {
    if loading then LoadingScreen
    else match product
      case None => NotFoundScreen(CatalogRoute)
      case Some(p) => DetailScreen(p, DrawingControlFor(p))
  }

  /** How the fetch of the product list ends. */
  datatype Fetch = Fetched(data: seq<Product>) | FetchFailed

  /** The product page's state. */
  class ProductDetailView {
    var productId: int
    var product: Option<Product>
    var loading: bool

    function Render(): Screen
      reads this
    {
      ScreenFor(loading, product)
    }

    /** The first render: no product yet, loading. */
    constructor (id: int)
      ensures productId == id && product.None? && loading
      ensures Render() == LoadingScreen
    {
      productId, product, loading := id, None, true;
    }

    /** The effect runs (on mount and whenever the id changes): loading starts, the product is kept. */
    method StartFetch(id: int)
      modifies this
      ensures productId == id && loading && product == old(product)
      ensures Render() == LoadingScreen
    {
      productId := id;
      loading := true;
    }

    /** The fetch settles: on success the first match (or nothing); on failure the product is kept. Loading ends either way. */
    method FetchSettled(outcome: Fetch)
      modifies this
      ensures !loading && productId == old(productId)
      ensures outcome.Fetched? ==> product == FindById(outcome.data, productId)
      ensures outcome.FetchFailed? ==> product == old(product)
      ensures outcome.Fetched? ==>
        (Render().NotFoundScreen? <==> forall i :: 0 <= i < |outcome.data| ==> outcome.data[i].id != productId)
    {
      if outcome.Fetched? {
        product := FindById(outcome.data, productId);
      }
      loading := false;
    }
  }
}
