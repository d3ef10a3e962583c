/**
 * The admin API of the site's server over its product store: the credential
 * check, adding a product (id assignment, upload URLs, specs default) and
 * deleting a product by the id in the request path. The JSON file the
 * server reads and rewrites on every request is an in-memory sequence.
 */
module Server {
  import opened Wrappers
  import opened Text
  import opened Seqs
  import opened Entities

  // ---------------------------------------------------------------------
  // Login
  // ---------------------------------------------------------------------

  const DefaultAdminUser: string := "admin"
  const DefaultAdminPassword: string := "bueso2024##"
  const SessionToken: string := "fake-jwt-token"
  const BadCredentials: string := "Credenciais inválidas"

  /** The login endpoint's answer: 200 with a token, or 401 with a message. */
  datatype LoginReply = LoginAccepted(token: string) | LoginRejected(message: string)
  {
    function Status(): nat {
      if LoginAccepted? then 200 else 401
    }
  }

  /**
   * `POST /api/admin/login`: accepted iff both the user name and the password
   * equal the configured ones: the environment's `ADMIN_USERNAME` and
   * `ADMIN_PASSWORD` when set and non-empty, the built-in defaults otherwise.
   */
  function Login(username: string, password: string, envUser: Option<string>, envPassword: Option<string>): (r: LoginReply)
    ensures r.LoginAccepted? <==>
      username == OrDefault(envUser, DefaultAdminUser) && password == OrDefault(envPassword, DefaultAdminPassword)
    ensures r.LoginAccepted? ==> r.token == SessionToken && r.Status() == 200
    ensures r.LoginRejected? ==> r.message == BadCredentials && r.Status() == 401
  {
    if username == OrDefault(envUser, DefaultAdminUser) && password == OrDefault(envPassword, DefaultAdminPassword)
    then LoginAccepted(SessionToken)
    else LoginRejected(BadCredentials)
  }

  /**
   * Without configuration the built-in pair logs in; once a user name is
   * configured, the built-in name no longer does, whatever the password.
   */
  lemma DefaultCredentials(password: string, envUser: Option<string>, envPassword: Option<string>)
    ensures Login(DefaultAdminUser, DefaultAdminPassword, None, None).LoginAccepted?
    ensures envUser.Some? && envUser.value != "" && envUser.value != DefaultAdminUser ==>
      Login(DefaultAdminUser, password, envUser, envPassword).LoginRejected?
  {
  }

  // ---------------------------------------------------------------------
  // Adding a product
  // ---------------------------------------------------------------------

  /** The largest id in a non-empty store (`Math.max(...data.map(p => p.id))`). */
  function MaxId(ps: seq<Product>): (m: int)
    requires ps != []
    ensures forall i :: 0 <= i < |ps| ==> ps[i].id <= m
    ensures exists i :: 0 <= i < |ps| && ps[i].id == m
  {
    if |ps| == 1 then ps[0].id
    else
      var rest := MaxId(ps[1..]);
      assert forall i :: 1 <= i < |ps| ==> ps[i] == ps[1..][i - 1];
      if ps[0].id >= rest then ps[0].id else rest
  }

  /**
   * The id the next product gets: 1 for an empty store, otherwise one more
   * than the largest id. It exceeds every id in the store.
   */
  function NextId(ps: seq<Product>): (id: int)
    ensures ps == [] ==> id == 1
    ensures forall i :: 0 <= i < |ps| ==> ps[i].id < id
    ensures ps != [] ==> exists i :: 0 <= i < |ps| && ps[i].id == id - 1
  {
    if |ps| > 0 then MaxId(ps) + 1 else 1
  }

  /** The multipart form of `POST /api/admin/products`, after the upload middleware stored its files. */
  datatype ProductForm = ProductForm(
    name: string,
    code: string,
    description: string,
    material: string,
    finishType: string,
    /** The stored name of the uploaded image file, if one was sent. */
    image: Option<string>,
    /** The stored name of the uploaded drawing file, if one was sent. */
    drawing: Option<string>,
    /** The parsed `specs` field; `None` when the field is missing or empty. */
    specs: Option<seq<string>>)

  const UploadsPrefix: string := "/uploads/"

  /** Where an uploaded file is served from; `""` when no file was sent. */
  function UploadUrl(stored: Option<string>): (url: string)
    ensures url == "" <==> stored.None?
    ensures stored.Some? ==> UploadsPrefix <= url && url[|UploadsPrefix|..] == stored.value
  {
    match stored
    case None => ""
    case Some(fileName) => UploadsPrefix + fileName
  }

  /** The record the server builds for a form, given the store it is added to. */
  function NewProduct(ps: seq<Product>, form: ProductForm): (p: Product)
    ensures p.id == NextId(ps)
    ensures forall i :: 0 <= i < |ps| ==> ps[i].id != p.id
    ensures p.name == form.name && p.code == form.code && p.description == form.description
    ensures p.material == form.material && p.finishType == form.finishType
    ensures p.imageUrl == UploadUrl(form.image) && p.drawingUrl == UploadUrl(form.drawing)
    ensures p.specs == form.specs.GetOr([])
  {
    Product(
      id := NextId(ps),
      name := form.name,
      code := form.code,
      imageUrl := UploadUrl(form.image),
      drawingUrl := UploadUrl(form.drawing),
      description := form.description,
      specs := form.specs.GetOr([]),
      material := form.material,
      finishType := form.finishType)
  }

  /** Appending a new product keeps the store's ids distinct. */
  lemma {:induction false} AppendKeepsIdsDistinct(ps: seq<Product>, form: ProductForm)
    requires DistinctIds(ps)
    ensures DistinctIds(ps + [NewProduct(ps, form)])
  {
    var p := NewProduct(ps, form);
    var qs := ps + [p];
    forall i, j | 0 <= i < j < |qs|
      ensures qs[i].id != qs[j].id
    {
      if j < |ps| {
        assert qs[i] == ps[i] && qs[j] == ps[j];
      } else {
        assert qs[i] == ps[i] && qs[j] == p;
      }
    }
  }

  /** Ids are handed out in sequence: after an add, the next id is one more than the one just given. */
  lemma {:induction false} IdsAscend(ps: seq<Product>, form: ProductForm)
    ensures NextId(ps + [NewProduct(ps, form)]) == NextId(ps) + 1
  {
    var p := NewProduct(ps, form);
    var qs := ps + [p];
    assert qs[|ps|] == p;
    var k :| 0 <= k < |qs| && qs[k].id == NextId(qs) - 1;
    if k < |ps| {
      assert qs[k] == ps[k];
    }
  }

  // ---------------------------------------------------------------------
  // Deleting a product
  // ---------------------------------------------------------------------

  /**
   * `DELETE /api/admin/products/:id`: the store without every entry whose id
   * is `parseInt` of the path parameter, or `None` (a 404) when that removes
   * nothing — in particular when the parameter is not a number, since no id
   * equals `NaN`.
   */
  function DeleteById(ps: seq<Product>, param: string): (r: Option<seq<Product>>)
    ensures ParseInt(param).None? ==> r.None?
    ensures r.None? <==> ParseInt(param).None? || forall i :: 0 <= i < |ps| ==> ps[i].id != ParseInt(param).value
    ensures r.Some? ==> IsSubsequence(r.value, ps) && |r.value| < |ps|
    ensures r.Some? ==> forall i :: 0 <= i < |r.value| ==> Some(r.value[i].id) != ParseInt(param)
    ensures r.Some? ==> forall i :: 0 <= i < |ps| && Some(ps[i].id) != ParseInt(param) ==> ps[i] in r.value
    ensures r.Some? ==> forall p :: multiset(r.value)[p] == if Some(p.id) != ParseInt(param) then multiset(ps)[p] else 0
  {
    match ParseInt(param)
    case None => None
    case Some(id) =>
      var kept := RemoveId(ps, id);
      if |kept| == |ps| then None else Some(kept)
  }

  /** Deleting keeps the store's ids distinct. */
  lemma DeleteKeepsIdsDistinct(ps: seq<Product>, param: string)
    requires DistinctIds(ps) && DeleteById(ps, param).Some?
    ensures DistinctIds(DeleteById(ps, param).value)
  {
    SubsequenceKeepsIdsDistinct(DeleteById(ps, param).value, ps);
  }

  /** With distinct ids, a delete that succeeds removes exactly one entry. */
  lemma {:induction false} DeleteRemovesOne(ps: seq<Product>, id: int)
    requires DistinctIds(ps)
    ensures |RemoveId(ps, id)| >= |ps| - 1
    decreases |ps|
  {
    if ps != [] {
      var tail := ps[1..];
      assert DistinctIds(tail) by {
        forall i, j | 0 <= i < j < |tail|
          ensures tail[i].id != tail[j].id
        {
          assert tail[i] == ps[i + 1] && tail[j] == ps[j + 1];
        }
      }
      DeleteRemovesOne(tail, id);
      assert ps == [ps[0]] + tail;
      if ps[0].id == id {
        assert forall i :: 0 <= i < |tail| ==> tail[i].id != id by {
          forall i | 0 <= i < |tail|
            ensures tail[i].id != id
          {
            assert tail[i] == ps[i + 1];
          }
        }
        assert |RemoveId(tail, id)| == |tail|;
      }
    }
  }

  /** The store the server's admin endpoints read and rewrite. */
  class ProductStore {
    var products: seq<Product>

    ghost predicate Valid()
      reads this
    {
      DistinctIds(products)
    }

    constructor (initial: seq<Product>)
      requires DistinctIds(initial)
      ensures Valid() && products == initial
    {
      products := initial;
    }

    /** `POST /api/admin/products`: build the record, append it, answer with it. */
    method AddProduct(form: ProductForm) returns (created: Product)
      requires Valid()
      modifies this
      ensures Valid()
      ensures created == NewProduct(old(products), form)
      ensures products == old(products) + [created]
    {
      AppendKeepsIdsDistinct(products, form);
      created := NewProduct(products, form);
      products := products + [created];
    }

    /** `DELETE /api/admin/products/:id`: 200 with the entries removed, or 404 and the store untouched. */
    method DeleteProduct(param: string) returns (status: nat)
      requires Valid()
      modifies this
      ensures Valid()
      ensures status == 200 || status == 404
      ensures status == 404 <==> DeleteById(old(products), param).None?
      ensures status == 404 ==> products == old(products)
      ensures status == 200 ==> products == DeleteById(old(products), param).value
      ensures status == 200 ==> |products| == |old(products)| - 1
    {
      var outcome := DeleteById(products, param);
      if outcome.None? {
        return 404;
      }
      DeleteKeepsIdsDistinct(products, param);
      DeleteRemovesOne(products, ParseInt(param).value);
      products := outcome.value;
      status := 200;
    }
  }
}
