# Catalog site logic, modelled in Dafny

This project models the logic of a small industrial-plastics company site: a
React single-page front end with a hash router, and an Express server that
keeps the product catalogue in a JSON file. The model covers five parts:

- **The catalog page** (`Catalog`). The product grid is filtered by a
  debounced, case-insensitive search on name or code and by one selected
  finish type. The finish select lists `'all'` followed by the distinct
  finish types. A carousel shows the first three products, with wrap-around
  arrows, indicator dots and an auto-advance tick.
- **The application shell's router** (`Router`). It decides which page a
  location fragment selects, including the `parseInt` reading of a product
  id. It also decides what a fragment change does: open the contact modal
  and rewrite the fragment to `#home`, schedule one delayed scroll, scroll
  to the top, or nothing.
- **The server's admin endpoints** (`Server`): the credential check, adding a
  product (id = largest id + 1, upload URLs, specs default) and deleting by
  the id in the request path (404 when nothing matches). The JSON file is an
  in-memory sequence in a `ProductStore` class.
- **The product page** (`ProductDetail`). It finds the first product with the
  requested id and tracks the `loading`/`product` state through a fetch. It
  then chooses between the loading placeholder, the not-found notice
  (linking to `#catalogo`) and the product with its technical-sheet control.
- **The admin panel** (`AdminPanel`). It covers the login transition and the
  product submission: the required image, the specs textarea turned into
  lines, the reset after a success, and `isSubmitting` cleared on every
  path. It also covers the local list update after a delete.

Shared pieces:

- `Text` models the JavaScript string operations the code relies on:
  ASCII `toLowerCase`, `includes`, `split`/`join` on one character,
  `trim() === ''`, `replace` of the first `#`, `parseInt` and `String(n)`.
- `Seqs` models `filter` and the first-occurrence order of
  `Array.from(new Set(...))`.
- `Entities` holds the product record.

React components become classes. Their `useState` hooks are fields, and
their event handlers and effect callbacks are methods. Each asynchronous
request is split into a method that starts it and a method that receives
its outcome, which is a parameter. Timers are events: `OnDebounceTimer`,
`OnIntervalTick` and `ScrollTimerFires`.

Two details of the catalog are modelled exactly as the code has them:

- The finish filter holds one selected value. It starts as `'all'`
  (pages/Catalog.tsx:36), and `'all'` means no filter.
- The carousel features exactly the first three products
  (`products.slice(0, 3)`, pages/Catalog.tsx:48).

## Model

| member | source | states |
|---|---|---|
| `Catalog.FilteredProducts` | pages/Catalog.tsx:87-94 | the grid's list is an order-preserving sublist of the products; an entry is listed iff it matches the query and the finish filter, and a matching product appears as often as in the catalogue |
| `Catalog.ListedIff` | pages/Catalog.tsx:88-92 | a product is listed iff it is in the catalogue, the lower-cased query occurs at some position of its lower-cased name or code, and the filter is `'all'` or equals its finish type |
| `Catalog.EmptySearchListsAll` | pages/Catalog.tsx:89-91 | an empty query with the filter on `'all'` lists every product, in order |
| `Catalog.FinishFilterNarrows` | pages/Catalog.tsx:91 | choosing a finish type gives an order-preserving sublist of what `'all'` gives for the same query |
| `Catalog.FinishTypes` | pages/Catalog.tsx:82-85 | the options are `'all'` and then finish types without repeats; every product's finish type is offered, and every option after `'all'` is some product's finish type |
| `Catalog.FinishTypesFirstOccurrence` | pages/Catalog.tsx:83 | the options for a prefix of the catalogue are a prefix of the options for the whole, so options appear in first-occurrence order |
| `Catalog.Featured` | pages/Catalog.tsx:48 | the featured list is the prefix of min(3, number of products) products; it depends only on the products |
| `Catalog.NextSlide` | pages/Catalog.tsx:50-52 | next stays in range, moves one forward, and wraps from the last slide to 0 |
| `Catalog.PrevSlide` | pages/Catalog.tsx:54-56 | previous stays in range, moves one back, and wraps from 0 to the last slide |
| `Catalog.PrevNextInverse` | pages/Catalog.tsx:50-56 | previous after next, and next after previous, return to the same slide |
| `Catalog.AdvanceCompose` | pages/Catalog.tsx:51 | a steps and then b more steps equal a+b steps |
| `Catalog.AdvanceWithoutWrap` | pages/Catalog.tsx:51 | k steps that do not pass the last slide add k to the index |
| `Catalog.FullCycle` | pages/Catalog.tsx:58-63 | as many steps (ticks or clicks) as there are slides return to the starting slide |
| `Catalog.Type` | pages/Catalog.tsx:40-46 | typing changes the query, never the applied value; a new value replaces the pending timer with one for that value |
| `Catalog.Fire` | pages/Catalog.tsx:41-43 | the timer applies the value it carries, which is the current query, and the spinner stops |
| `Catalog.CatalogPage.ShowSpinner` | pages/Catalog.tsx:224 | the spinner shows iff the typed text differs from the applied one, and in a consistent state a timer carrying the typed text is then pending |
| `Catalog.CatalogPage.ShowCarousel` | pages/Catalog.tsx:126 | the carousel is rendered iff loading has ended and there is at least one product |
| `Catalog.CatalogPage.ShowEmptyState` | pages/Catalog.tsx:253-270 | "no product found" shows iff loading has ended and no product matches both the applied query and the finish filter |
| `Catalog.SpinningMeansPending` | pages/Catalog.tsx:224 | while the spinner shows, a timer carrying the current query is pending |
| `Catalog.BurstAppliesLast` | pages/Catalog.tsx:40-46 | a burst of keystrokes applies nothing while it lasts; when its one remaining timer fires, the filter gets the last value typed |
| `Catalog.CatalogPage.constructor` | pages/Catalog.tsx:32-37 | initial state: no products, loading, empty queries, filter `'all'`, slide 0, with a debounce timer already pending for `''` |
| `Catalog.CatalogPage.ProductsFetched` | pages/Catalog.tsx:65-76 | products are replaced on success and kept on failure; loading ends either way; the interval is re-registered only when the featured count changes to a positive value |
| `Catalog.CatalogPage.OnSearchInput` | pages/Catalog.tsx:40-46 | the query changes and the grid does not |
| `Catalog.CatalogPage.OnDebounceTimer` | pages/Catalog.tsx:41-43 | the grid is filtered by the typed text and the spinner stops |
| `Catalog.CatalogPage.OnFinishSelect` | pages/Catalog.tsx:237 | the finish filter applies at once |
| `Catalog.CatalogPage.OnNextClick` | pages/Catalog.tsx:50-52 | the slide moves by `NextSlide`; the interval is not re-registered |
| `Catalog.CatalogPage.OnPrevClick` | pages/Catalog.tsx:54-56 | the slide moves by `PrevSlide`; the interval is not re-registered |
| `Catalog.CatalogPage.OnIndicatorClick` | pages/Catalog.tsx:199-202 | the slide becomes the chosen indicator's index |
| `Catalog.CatalogPage.OnIntervalTick` | pages/Catalog.tsx:58-63 | a tick takes the same step as the next arrow |
| `Router.ProductIdOf` | App.tsx:77 | the id read from a `#produto/` fragment is `parseInt` of the text after `#produto/` up to the next `/` |
| `Router.RenderPage` | App.tsx:67-94 | `#catalogo` selects the catalog and `#servicos-detalhe` the services page; a `#produto/` fragment whose second `/`-piece parses selects that product; everything else selects home, and the four outcomes exclude each other |
| `Router.ProductLinkRoutes` | App.tsx:76-80 | `#produto/<id>` followed by anything that does not continue the number (a letter, a `/`) opens product `<id>` |
| `Router.NonNumericProductRoutesHome` | App.tsx:76-83 | a `#produto/` fragment whose remainder contains neither a digit nor a `/` selects home |
| `Router.HomeFallbacks` | App.tsx:83-93 | the empty fragment and `#home` select home |
| `Router.HashChangeEffect` | App.tsx:28-53 | `#contacto` opens the modal; any other non-empty fragment except `#catalogo` and `#produto/...` schedules one delayed scroll; the empty fragment scrolls to the top; catalog and product fragments do nothing |
| `Router.ScrollTimerAction` | App.tsx:41-49 | the delayed scroll goes to the named section if it exists; otherwise it goes to the top only for `#home` |
| `Text.RemoveFirstSpec` | App.tsx:42 | `replace` removes exactly the first occurrence of the character, and leaves a string without one unchanged |
| `Router.SectionIdOfFragment` | App.tsx:42 | the section id is the fragment without its leading `#` |
| `Router.ContactRewriteShowsHome` | App.tsx:33-37 | `#contacto` opens the modal and the rewritten fragment `#home` only schedules the home scroll and shows the home page |
| `Router.AppShell.constructor` | App.tsx:21-22 | the route starts as the opening fragment, with the modal closed |
| `Router.AppShell.Mount` | App.tsx:57-62 | with a fragment the handler runs once, with exactly the effects `HandleHashChange` states (route = fragment, the contact trap, the queued scroll) and no immediate scroll; without one the fragment becomes `#home` and nothing else changes |
| `Router.AppShell.HandleHashChange` | App.tsx:28-53 | the route becomes the fragment; `#contacto` opens the modal, rewrites the fragment to `#home` and queues no scroll; otherwise exactly the decided effect happens (one queued scroll, an immediate scroll to the top, or nothing) |
| `Router.AppShell.ScrollTimerFires` | App.tsx:41-49 | the oldest queued scroll is performed as `ScrollTimerAction` decides and leaves the queue |
| `Router.AppShell.CloseContactModal` | App.tsx:115-116 | closing the contact modal changes neither the fragment, the route nor the queued scrolls |
| `Text.ParseInt` | App.tsx:77 | a number is read only from a string that contains a digit; otherwise the result is `NaN` |
| `Text.Split` | components/AdminPanel.tsx:129 | `split` gives at least one piece and no piece contains the separator |
| `Text.Lower` | pages/Catalog.tsx:89-90 | the lower-cased string has the same length and lowers each character in place |
| `Text.ParseIntShow` | App.tsx:77 | `parseInt` of `String(n)` followed by a non-digit gives n back |
| `Text.SplitJoin` | components/AdminPanel.tsx:129 | splitting the join of separator-free pieces returns the pieces |
| `Text.JoinSplit` | components/AdminPanel.tsx:129 | joining the pieces of a split with the separator gives back the string |
| `Text.IncludesIffOccurs` | pages/Catalog.tsx:89-90 | `includes` holds iff the needle occurs at some position |
| `Seqs.Filter` | pages/Catalog.tsx:88 | `filter` keeps an order-preserving sublist; an element is kept iff the test holds; nothing is dropped only when every element passes, and then the list is unchanged |
| `Seqs.FilterMultiset` | pages/Catalog.tsx:88 | `filter` keeps every passing value exactly as often as it occurs and drops every other value |
| `Seqs.Distinct` | pages/Catalog.tsx:83 | `Array.from(new Set(xs))` has no repeats, is an order-preserving sublist of `xs`, and holds exactly the values of `xs` |
| `Seqs.DistinctPrefix` | pages/Catalog.tsx:83 | the distinct values of a prefix are a prefix of the distinct values of the whole list: values appear in first-occurrence order |
| `Entities.RemoveId` | server.ts:353 | filtering out an id keeps an order-preserving sublist with every other entry, each as often as before, and none with that id; the length is unchanged iff no entry has the id (the panel's update after a confirmed delete, components/AdminPanel.tsx:246, is the same filter) |
| `Server.Login` | server.ts:308-318 | accepted, with the token, iff both user name and password equal the configured values (an unset or empty environment variable gives the defaults `admin` / `bueso2024##`); otherwise 401 with the fixed message |
| `Server.DefaultCredentials` | server.ts:310-311 | without configuration the default pair logs in; once a different user name is configured, the default name is refused |
| `Server.MaxId` | server.ts:333 | the result is at least every id and is one of them |
| `Server.NextId` | server.ts:333 | 1 for an empty store; otherwise one more than an existing id and greater than every id |
| `Server.UploadUrl` | server.ts:328-329 | `""` iff no file was uploaded; otherwise `/uploads/` followed by the stored name |
| `Server.NewProduct` | server.ts:332-342 | the new record has a fresh id and the form's fields, upload URLs and specs (`[]` when absent) |
| `Server.AppendKeepsIdsDistinct` | server.ts:333-344 | adding a product keeps ids distinct |
| `Server.IdsAscend` | server.ts:333 | after an add, the next id is one more than the id just assigned |
| `Server.DeleteById` | server.ts:350-361 | 404 iff the parameter is not a number or no id equals it; otherwise an order-preserving, strictly shorter sublist without that id that keeps every other entry as often as it occurs |
| `Server.DeleteKeepsIdsDistinct` | server.ts:353 | a delete keeps ids distinct |
| `Server.DeleteRemovesOne` | server.ts:353-357 | in a store with distinct ids a delete removes at most one entry |
| `Server.ProductStore.AddProduct` | server.ts:320-348 | the new record is appended, earlier entries are unchanged, the length grows by one, and ids stay distinct |
| `Server.ProductStore.DeleteProduct` | server.ts:350-361 | 404 leaves the store untouched; 200 stores the filtered list, one entry shorter, with ids still distinct |
| `ProductDetail.FindById` | pages/ProductDetail.tsx:20-21 | nothing iff no product has the id; otherwise the product with the lowest index that has the id |
| `ProductDetail.FindByIdUnique` | pages/ProductDetail.tsx:20 | with distinct ids, looking up an entry's id finds that entry |
| `ProductDetail.AddedProductIsFound` | pages/ProductDetail.tsx:20 | a product the server has just added is found by its id |
| `ProductDetail.DrawingControlFor` | pages/ProductDetail.tsx:118-126 | a download link to the drawing iff `drawingUrl` is non-empty, otherwise the disabled button |
| `ProductDetail.DownloadOnlyWithUploadedDrawing` | pages/ProductDetail.tsx:118 | a product added through the server offers a download iff a drawing file was uploaded |
| `ProductDetail.ScreenFor` | pages/ProductDetail.tsx:33-56 | the placeholder iff loading; then the not-found notice linking to `#catalogo` iff there is no product; otherwise the product with its drawing control |
| `ProductDetail.ProductDetailView.constructor` | pages/ProductDetail.tsx:11-12 | no product, loading |
| `ProductDetail.ProductDetailView.StartFetch` | pages/ProductDetail.tsx:14-31 | loading starts for the id and the previous product is kept |
| `ProductDetail.ProductDetailView.FetchSettled` | pages/ProductDetail.tsx:17-26 | on success the product becomes the first match, or nothing, and the not-found view shows iff no product has the id; on failure the product is kept; loading ends either way |
| `AdminPanel.SpecsLines` | components/AdminPanel.tsx:129 | every line has text and no newline; the lines are an order-preserving sublist of the textarea's `\n`-pieces, and every piece with text is kept as often as it occurs |
| `AdminPanel.SpecsOfRows` | components/AdminPanel.tsx:129 | rows typed one per line come back as the rows that have text |
| `AdminPanel.SpecsRoundTrip` | components/AdminPanel.tsx:129 | non-blank single-line specs survive being joined into the textarea and split back |
| `AdminPanel.ServerForm` | components/AdminPanel.tsx:119-130 | the server receives the panel's fields, the stored image, the drawing if one was attached, and the specs lines |
| `AdminPanel.PanelProductsHaveImages` | components/AdminPanel.tsx:112-115 | every product added through the panel has an image URL, a drawing URL iff a drawing was attached, and the specs the panel sent |
| `AdminPanel.StaleSnapshotReinstates` | components/AdminPanel.tsx:237-247 | two overlapping deletes from the same click-time list bring the first deleted product back, where updating the current list removes both |
| `AdminPanel.OverlappingDeletesRemoveBoth` | components/AdminPanel.tsx:245-246 | applied to the current list, overlapping deletes remove both products in either answer order |
| `AdminPanel.PanelDeleteMatchesServer` | components/AdminPanel.tsx:241-246 | when the panel's list is the server's store, the local update equals the server's new store, and the server answers 404 iff no product has the id |
| `AdminPanel.AdminPanelState.constructor` | components/AdminPanel.tsx:9-31 | logged out, add tab, empty list, empty form with finish `Injeção`, not submitting |
| `AdminPanel.AdminPanelState.LoginSettled` | components/AdminPanel.tsx:86-108 | acceptance logs in, clears the error and starts the list load; a rejection shows the server's message; no reply shows the connection error |
| `AdminPanel.AdminPanelState.ProductsFetched` | components/AdminPanel.tsx:34-45 | the list is replaced on success and kept on failure; loading ends |
| `AdminPanel.AdminPanelState.SubmitProduct` | components/AdminPanel.tsx:110-130 | without an image: the image error, nothing sent, `isSubmitting` untouched; with one: the error is cleared, submitting starts, and the request carries the form and the specs lines |
| `AdminPanel.AdminPanelState.SubmitSettled` | components/AdminPanel.tsx:132-159 | on success the form resets (finish `Injeção`, no files), the manage tab opens and the list reloads; on a refusal the message, or the default when it is missing or empty; with no reply the connection error; `isSubmitting` ends false on every path |
| `AdminPanel.AdminPanelState.DeleteClicked` | components/AdminPanel.tsx:237-241 | a dismissed confirmation sends nothing; otherwise the request path parses back to the id and the handler keeps the list it saw; the state is unchanged |
| `AdminPanel.AdminPanelState.DeleteSettledAsWritten` | components/AdminPanel.tsx:244-253 | as written: a confirmed delete sets the list to the click-time list without the id, which equals removing it from the current list when nothing changed in between; otherwise the list is unchanged and the matching alert is returned |
| `AdminPanel.AdminPanelState.DeleteSettled` | components/AdminPanel.tsx:245-246 | corrected: a confirmed delete removes the id from the list current when the answer arrives; otherwise the list is unchanged and the matching alert is returned |

## Left out

- Rendering (JSX, Tailwind classes, animations, the Masonry layout and its breakpoint object): none of it decides anything the model states.
- `fetch`, Express routing, the multer upload middleware, `fs` reads and writes, Vite and logging. Each JSON file is an in-memory sequence. Each request's outcome is a method parameter, and so are the stored upload file names.
- `JSON.parse`/`JSON.stringify`. The specs travel as JSON, and the model assumes they parse back unchanged. A malformed `specs` field, which makes the server throw, is not modelled.
- Real timers (150 ms, 300 ms, 5 s) are events; their order is the caller's. `AppShell.ScrollTimerFires` takes whether the section element exists as a parameter.
- `Text.Lower`: lowers ASCII letters only, because full Unicode case mapping is outside the model.
- `Text.ParseInt`: reads decimal digits only; the `0x` hexadecimal prefix is not modelled.
- `AdminPanel.AdminPanelState`: the user-name, password and form input setters are plain assignments and are not modelled one by one. The form is one field.
- `AdminPanel.AdminPanelState`: the content, featured, services and catalogue-upload tabs, `onProductAdded` and `onClose` are not modelled.
- `AdminPanel.AdminPanelState.DeleteSettled`: applies the corrected update (see Findings); the handler as written is `DeleteSettledAsWritten`, fed by the snapshot `DeleteClicked` records. The dialog's answer is a parameter of `DeleteClicked`.
- `ProductDetail.ProductDetailView.FetchSettled`: models the answer to the fetch for the current id. An older fetch that settles after the id changed is a concurrency race and is not modelled. Neither is `window.scrollTo`.
- Races between requests on the server's JSON file: the model is sequential.
- `Server.NextId`: ids and `parseInt` results are unbounded integers, while JavaScript numbers are doubles. The model assumes every id is a safe integer, below 2^53 in magnitude. Beyond that, `Math.max(...) + 1` can equal the largest id (so `NextId` and `Server.AppendKeepsIdsDistinct` would fail), `parseInt` rounds long digit strings (`Text.ParseInt`), and `String(n)` switches to exponent form from 1e21, so `Text.ParseIntShow`, `Router.ProductLinkRoutes` and `AdminPanel.AdminPanelState.DeleteClicked` would not read the id back.
- The chat interface, the content hook, the services page and the static presentational components are not part of this model.

## Findings

| source | as written | input that shows it | evidently intended | confidence | as-written member | corrected member |
|---|---|---|---|---|---|---|
| components/AdminPanel.tsx:246 | after a confirmed delete the list becomes `products.filter(...)` over the `products` captured when the delete button was clicked (`DeleteSettledAsWritten`) | list [1, 2]; delete 1 and, before it answers, delete 2; the second answer sets the list to [1], so product 1, already gone from the server, reappears | filter the list current when the answer arrives (`setProducts(prev => prev.filter(...))`, modelled by `DeleteSettled`), so both products disappear in either order | not executed; medium, it needs a second click while the first request is pending | `AdminPanel.StaleSnapshotReinstates` | `AdminPanel.OverlappingDeletesRemoveBoth` |
