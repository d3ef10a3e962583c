/**
 * The admin panel's handlers: logging in, submitting a new product (the
 * required image, the specs textarea turned into lines, the reset after a
 * success) and deleting a product from the managed list.
 */
module AdminPanel {
  import opened Wrappers
  import opened Text
  import opened Seqs
  import opened Entities
  import opened Server

  const DefaultFinish: string := "Injeção"
  const NoImageError: string := "Por favor, selecione uma imagem."
  const AddFailedError: string := "Erro ao adicionar produto."
  const LoginConnectionError: string := "Erro ao conectar ao servidor"
  const SubmitConnectionError: string := "Erro ao conectar ao servidor."
  const DeleteFailedAlert: string := "Erro ao remover produto"
  const DeleteConnectionAlert: string := "Erro ao conectar ao servidor"

  // ---------------------------------------------------------------------
  // The specs textarea
  // ---------------------------------------------------------------------

  /** `s.trim() !== ''`. */
  predicate HasText(s: string) {
    !IsBlank(s)
  }

  /** `specs.split('\n').filter(s => s.trim() !== '')`: the textarea's lines, blank ones dropped. */
  function SpecsLines(text: string): (lines: seq<string>)
    ensures forall i :: 0 <= i < |lines| ==> HasText(lines[i]) && '\n' !in lines[i]
    ensures IsSubsequence(lines, Split(text, '\n'))
    ensures forall i :: 0 <= i < |Split(text, '\n')| && HasText(Split(text, '\n')[i]) ==> Split(text, '\n')[i] in lines
    ensures forall s :: multiset(lines)[s] == if HasText(s) then multiset(Split(text, '\n'))[s] else 0
  {
    FilterMultiset(Split(text, '\n'), HasText);
    Filter(Split(text, '\n'), HasText)
  }

  /** Lines typed one per row come back as the rows that have text, in order. */
  lemma SpecsOfRows(rows: seq<string>)
    requires |rows| >= 1
    requires forall i :: 0 <= i < |rows| ==> '\n' !in rows[i]
    ensures SpecsLines(Join(rows, '\n')) == Filter(rows, HasText)
  {
    SplitJoin(rows, '\n');
  }

  /** A list of non-blank, single-line specs survives being joined into the textarea and split back. */
  lemma SpecsRoundTrip(specs: seq<string>)
    requires forall i :: 0 <= i < |specs| ==> HasText(specs[i]) && '\n' !in specs[i]
    ensures SpecsLines(Join(specs, '\n')) == specs
  {
    if specs == [] {
      assert Split("", '\n') == [""];
      assert !HasText("");
    } else {
      SpecsOfRows(specs);
    }
  }

  // ---------------------------------------------------------------------
  // What the panel sends when a product is submitted
  // ---------------------------------------------------------------------

  /** The multipart body of a product submission; the files are named by their client-side names. */
  datatype ProductRequest = ProductRequest(
    name: string,
    code: string,
    description: string,
    material: string,
    finishType: string,
    image: string,
    drawing: Option<string>,
    specs: seq<string>)

  /**
   * The form the server sees for a request, once the upload middleware has
   * stored the image under `storedImage` and the drawing, if any, under
   * `storedDrawing`. The specs travel as JSON and are parsed back unchanged.
   */
  function ServerForm(req: ProductRequest, storedImage: string, storedDrawing: Option<string>): (form: ProductForm)
    requires storedDrawing.Some? == req.drawing.Some?
    ensures form.image == Some(storedImage) && form.drawing == storedDrawing
    ensures form.specs == Some(req.specs)
    ensures form.name == req.name && form.code == req.code && form.description == req.description
    ensures form.material == req.material && form.finishType == req.finishType
  {
    ProductForm(req.name, req.code, req.description, req.material, req.finishType,
                Some(storedImage), storedDrawing, Some(req.specs))
  }

  /**
   * Because the panel refuses to send a product without an image, every
   * product it adds has an image URL; it has a drawing URL iff a drawing was
   * attached, and its specs are the lines the panel sent.
   */
  lemma PanelProductsHaveImages(ps: seq<Product>, req: ProductRequest, storedImage: string, storedDrawing: Option<string>)
    requires storedDrawing.Some? == req.drawing.Some?
    ensures NewProduct(ps, ServerForm(req, storedImage, storedDrawing)).imageUrl != ""
    ensures NewProduct(ps, ServerForm(req, storedImage, storedDrawing)).drawingUrl != "" <==> req.drawing.Some?
    ensures NewProduct(ps, ServerForm(req, storedImage, storedDrawing)).specs == req.specs
  {
  }

  // ---------------------------------------------------------------------
  // Deleting from the managed list
  // ---------------------------------------------------------------------

  // The handler's update after a confirmed delete is `Entities.RemoveId`
  // applied to a list: as written, to the list captured when the delete
  // button was clicked; corrected, to the list current when the answer
  // arrives.

  /**
   * Two deletes started from the same list (the second clicked before the
   * first answered): the update as written, from the click-time list, brings
   * back the product the first delete removed, though the server no longer
   * has it; the corrected update, from the current list, removes both.
   */
  lemma StaleSnapshotReinstates()
    ensures var p1 := Product(1, "A", "A-1", "/uploads/a.png", "", "", [], "", DefaultFinish);
            var p2 := Product(2, "B", "B-2", "/uploads/b.png", "", "", [], "", DefaultFinish);
            var clicked := [p1, p2];
            RemoveId(clicked, 2) == [p1] && RemoveId(RemoveId(clicked, 1), 2) == []
  {
    var p1 := Product(1, "A", "A-1", "/uploads/a.png", "", "", [], "", DefaultFinish);
    var p2 := Product(2, "B", "B-2", "/uploads/b.png", "", "", [], "", DefaultFinish);
    var clicked := [p1, p2];
    assert clicked[1..] == [p2] && [p2][1..] == [];
    assert RemoveId(clicked, 2) == [p1] + RemoveId([p2], 2);
    assert RemoveId(clicked, 1) == RemoveId([p2], 1) == [p2];
  }

  /**
   * With the update applied to the current list, overlapping deletes remove
   * both products whatever order the answers arrive in, and every other
   * product stays.
   */
  lemma {:induction false} OverlappingDeletesRemoveBoth(ps: seq<Product>, a: int, b: int)
    ensures RemoveId(RemoveId(ps, a), b) == RemoveId(RemoveId(ps, b), a)
    ensures forall i :: 0 <= i < |RemoveId(RemoveId(ps, a), b)| ==>
      RemoveId(RemoveId(ps, a), b)[i].id !in {a, b}
    decreases |ps|
  {
    if ps != [] {
      var x, tail := ps[0], ps[1..];
      assert ps == [x] + tail;
      OverlappingDeletesRemoveBoth(tail, a, b);
      RemoveIdCons(x, tail, a);
      RemoveIdCons(x, tail, b);
      RemoveIdCons(x, RemoveId(tail, a), b);
      RemoveIdCons(x, RemoveId(tail, b), a);
    }
  }

  /** Removing an id from a list with a first element: that element stays iff it has another id. */
  lemma RemoveIdCons(x: Product, tail: seq<Product>, id: int)
    ensures RemoveId([x] + tail, id) == if x.id != id then [x] + RemoveId(tail, id) else RemoveId(tail, id)
  {
    assert ([x] + tail)[0] == x && ([x] + tail)[1..] == tail;
  }

  /**
   * When the panel's list is the server's store, the list after a confirmed
   * delete of `id` is the server's new store: the request path `String(id)`
   * parses back to `id`.
   */
  lemma PanelDeleteMatchesServer(store: seq<Product>, id: int)
    ensures DeleteById(store, Show(id)).Some? ==> DeleteById(store, Show(id)).value == RemoveId(store, id)
    ensures DeleteById(store, Show(id)).None? <==> forall i :: 0 <= i < |store| ==> store[i].id != id
  {
    assert Show(id) + [] == Show(id);
    ParseIntShow(id, []);
  }

  // ---------------------------------------------------------------------
  // The panel's state
  // ---------------------------------------------------------------------

  datatype Tab = AddTab | ManageTab | ContentTab | FeaturedTab | ServicesTab | CatalogTab

  /** The new-product form's fields; the files are named by their client-side names. */
  datatype ProductFormState = ProductFormState(
    name: string,
    code: string,
    description: string,
    material: string,
    finishType: string,
    image: Option<string>,
    drawing: Option<string>,
    specs: string)

  /** The form as first shown and as reset after a successful add. */
  const EmptyForm: ProductFormState := ProductFormState("", "", "", "", DefaultFinish, None, None, "")

  /** How the login request ends: the server's reply, or no reply at all. */
  datatype LoginOutcome = LoginAnswered(reply: LoginReply) | LoginUnreachable

  /** How the product submission ends: accepted (`response.ok`), refused with the body's message, or no reply. */
  datatype SubmitOutcome = SubmitAccepted | SubmitRefused(message: Option<string>) | SubmitUnreachable

  /** How a delete request ends: the body's `success`, or no reply. */
  datatype DeleteOutcome = DeleteAnswered(success: bool) | DeleteUnreachable

  /**
   * A delete in flight: the id, the request path built from it, and the
   * product list the click handler saw, which its continuation still uses
   * when the server answers.
   */
  datatype PendingDelete = PendingDelete(id: int, path: string, snapshot: seq<Product>)

  /** The admin panel's state (the content, featured, services and catalog tabs are not modelled). */
  class AdminPanelState {
    var isLoggedIn: bool
    var activeTab: Tab
    var products: seq<Product>
    var isLoadingProducts: bool
    var error: string
    var form: ProductFormState
    var isSubmitting: bool

    constructor ()
      ensures !isLoggedIn && activeTab == AddTab && products == [] && !isLoadingProducts
      ensures error == "" && form == EmptyForm && !isSubmitting
    {
      isLoggedIn, activeTab, products, isLoadingProducts := false, AddTab, [], false;
      error, form, isSubmitting := "", EmptyForm, false;
    }

    /**
     * The login request settles: an accepted reply logs in, clears the error
     * and starts loading the product list; a rejection shows the server's
     * message; no reply shows the connection error.
     */
    method LoginSettled(outcome: LoginOutcome)
      modifies this
      ensures isLoggedIn == (old(isLoggedIn) || (outcome.LoginAnswered? && outcome.reply.LoginAccepted?))
      ensures outcome.LoginAnswered? && outcome.reply.LoginAccepted? ==> error == "" && isLoadingProducts
      ensures outcome.LoginAnswered? && outcome.reply.LoginRejected? ==>
        error == outcome.reply.message && isLoadingProducts == old(isLoadingProducts)
      ensures outcome.LoginUnreachable? ==> error == LoginConnectionError && isLoadingProducts == old(isLoadingProducts)
      ensures products == old(products) && form == old(form) && activeTab == old(activeTab)
      ensures isSubmitting == old(isSubmitting)
    {
      match outcome {
        case LoginAnswered(reply) =>
          if reply.LoginAccepted? {
            isLoggedIn := true;
            error := "";
            isLoadingProducts := true;
          } else {
            error := reply.message;
          }
        case LoginUnreachable =>
          error := LoginConnectionError;
      }
    }

    /** The product list request settles: replaced on success, kept on failure; loading ends. */
    method ProductsFetched(result: Option<seq<Product>>)
      modifies this
      ensures products == result.GetOr(old(products)) && !isLoadingProducts
      ensures isLoggedIn == old(isLoggedIn) && activeTab == old(activeTab) && error == old(error)
      ensures form == old(form) && isSubmitting == old(isSubmitting)
    {
      if result.Some? {
        products := result.value;
      }
      isLoadingProducts := false;
    }

    /**
     * The form is submitted. Without an image: the error asks for one and
     * nothing is sent or marked as submitting. With one: the error is
     * cleared, the submission is in progress and the request carries the
     * form's fields, the files and the specs lines.
     */
    method SubmitProduct() returns (request: Option<ProductRequest>)
      modifies this
      ensures request.None? <==> old(form).image.None?
      ensures request.None? ==> error == NoImageError && isSubmitting == old(isSubmitting)
      ensures request.Some? ==> error == "" && isSubmitting
      ensures request.Some? ==> request.value == ProductRequest(
        old(form).name, old(form).code, old(form).description, old(form).material, old(form).finishType,
        old(form).image.value, old(form).drawing, SpecsLines(old(form).specs))
      ensures form == old(form) && products == old(products) && activeTab == old(activeTab)
      ensures isLoggedIn == old(isLoggedIn) && isLoadingProducts == old(isLoadingProducts)
    {
      if form.image.None? {
        error := NoImageError;
        return None;
      }
      var lines := SpecsLines(form.specs);
      isSubmitting := true;
      error := "";
      request := Some(ProductRequest(form.name, form.code, form.description, form.material, form.finishType,
                                     form.image.value, form.drawing, lines));
    }

    /**
     * The submission settles. Accepted: the form is reset (finish back to
     * Injeção, no files), the manage tab opens and the list reloads. Refused:
     * the body's message, or a generic one. No reply: the connection error.
     * Whatever happened, the submission is over.
     */
    method SubmitSettled(outcome: SubmitOutcome)
      modifies this
      ensures !isSubmitting
      ensures outcome.SubmitAccepted? ==>
        form == EmptyForm && activeTab == ManageTab && isLoadingProducts && error == old(error)
      ensures outcome.SubmitRefused? ==> error == OrDefault(outcome.message, AddFailedError)
      ensures outcome.SubmitUnreachable? ==> error == SubmitConnectionError
      ensures !outcome.SubmitAccepted? ==>
        form == old(form) && activeTab == old(activeTab) && isLoadingProducts == old(isLoadingProducts)
      ensures products == old(products) && isLoggedIn == old(isLoggedIn)
    {
      match outcome {
        case SubmitAccepted =>
          form := EmptyForm;
          activeTab := ManageTab;
          isLoadingProducts := true;
        case SubmitRefused(message) =>
          error := OrDefault(message, AddFailedError);
        case SubmitUnreachable =>
          error := SubmitConnectionError;
      }
      isSubmitting := false;
    }

    /**
     * The delete button of `id` is clicked. Unless the confirmation dialog is
     * dismissed, a request goes to `/api/admin/products/<id>`, whose path
     * parameter the server parses back to `id`, and the handler keeps the
     * list it saw. The panel's state does not change.
     */
    method DeleteClicked(id: int, confirmed: bool) returns (pending: Option<PendingDelete>)
      ensures pending.Some? <==> confirmed
      ensures pending.Some? ==> pending.value.id == id && pending.value.snapshot == products
      ensures pending.Some? ==> ParseInt(pending.value.path) == Some(id)
    {
      if !confirmed {
        return None;
      }
      var path := Show(id);
      assert path + [] == path;
      ParseIntShow(id, []);
      pending := Some(PendingDelete(id, path, products));
    }

    /**
     * A delete settles as the handler is written: confirmed by the server,
     * the list becomes the click-time list without the id, discarding
     * whatever changed in between. Otherwise the list is unchanged and an
     * alert explains why.
     */
    method DeleteSettledAsWritten(pending: PendingDelete, outcome: DeleteOutcome) returns (alert: Option<string>)
      modifies this
      ensures outcome == DeleteAnswered(true) ==>
        products == RemoveId(pending.snapshot, pending.id) && alert.None?
      ensures outcome == DeleteAnswered(true) && pending.snapshot == old(products) ==>
        products == RemoveId(old(products), pending.id)
      ensures outcome == DeleteAnswered(false) ==> products == old(products) && alert == Some(DeleteFailedAlert)
      ensures outcome.DeleteUnreachable? ==> products == old(products) && alert == Some(DeleteConnectionAlert)
      ensures isLoggedIn == old(isLoggedIn) && activeTab == old(activeTab) && error == old(error)
      ensures form == old(form) && isSubmitting == old(isSubmitting) && isLoadingProducts == old(isLoadingProducts)
    {
      match outcome {
        case DeleteAnswered(success) =>
          if success {
            products := RemoveId(pending.snapshot, pending.id);
            alert := None;
          } else {
            alert := Some(DeleteFailedAlert);
          }
        case DeleteUnreachable =>
          alert := Some(DeleteConnectionAlert);
      }
    }

    /**
     * A delete of `id` settles, with the update applied to the list as it is
     * when the answer arrives. Confirmed by the server: the product leaves
     * the list, the others keep their order. Otherwise the list is unchanged
     * and an alert explains why.
     */
    method DeleteSettled(id: int, outcome: DeleteOutcome) returns (alert: Option<string>)
      modifies this
      ensures outcome == DeleteAnswered(true) ==> products == RemoveId(old(products), id) && alert.None?
      ensures outcome == DeleteAnswered(false) ==> products == old(products) && alert == Some(DeleteFailedAlert)
      ensures outcome.DeleteUnreachable? ==> products == old(products) && alert == Some(DeleteConnectionAlert)
      ensures isLoggedIn == old(isLoggedIn) && activeTab == old(activeTab) && error == old(error)
      ensures form == old(form) && isSubmitting == old(isSubmitting) && isLoadingProducts == old(isLoadingProducts)
    {
      match outcome {
        case DeleteAnswered(success) =>
          if success {
            products := RemoveId(products, id);
            alert := None;
          } else {
            alert := Some(DeleteFailedAlert);
          }
        case DeleteUnreachable =>
          alert := Some(DeleteConnectionAlert);
      }
    }
  }
}
