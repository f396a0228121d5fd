# Stock-Chic in Dafny

A model of the working core of Stock-Chic, a stock and point-of-sale application.
Its subject is a clothing shop: articles with size/colour variants ("déclinaisons"), the stock of each variant, sales, and two user roles (gérant, vendeur).

Three parts are modelled.

- **The demo backend** (`backend/src/routes/demo.routes.ts`). This is the server that is actually mounted. Its module-level state (`demoArticles`, `demoVentes`, `venteCounter`) is the class `DemoRoutes.Store`.
  - Every handler is a method of the store. Sale creation and sale cancellation keep their `for` loops, and article lookup keeps its first-match search; article create, update and delete are plain methods.
  - Each method is proved equal to a specification function in `DemoSales` or `DemoCatalog`, and the properties are proved about those functions:
    - the fixed check order, and the absence of rollback;
    - stock is lowered by exactly what is sold and never goes negative;
    - totals and change;
    - distinct sale numbers;
    - cancel gives the stock back, and does so again on a second cancel;
    - the alert list is sound and complete;
    - the statistics roll-up agrees with it.
- **The two carts.**
  - `NewSale`: the point-of-sale page, with lines bounded by stock and the submit guard.
  - `CartContext`: the keyed shop cart.
  - Both are functions on sequences of lines, with the invariants they keep (unique keys, quantity bounds).
- **The page logic of the frontend.** Classifiers, filters, counters, the relative-date buckets, the article form (a class over its field arrays, with the `setPrimaryPhoto` loop), the users pages, the menu and the translation lookup.

Conventions:
- Money is held in integer cents.
- Quantities are unbounded integers. The pages check them (`min: 0` in the article form, ArticleForm.tsx:538-557; the [1, stock] guard of the point-of-sale cart, NewSale.tsx:126-136; a positive replenishment, StockAlerts.tsx:95), but the backend routes accept any integer, and so does the model of those routes.
- `Date.now()`, `Math.random()`, the current year and the ISO timestamp are parameters. A `Clock` value holds every `Date.now()` reading of one request, numbered in the order the handler makes them (`now(k)`), and two readings may differ. The random parts of item ids are a function supplied by the caller.
- `toLowerCase` is modelled on ASCII and Latin-1 letters.
- A lookup `dict[key] || fallback` on an object literal (the collection colours and icons, the translation tables) gives a `Common.Lookup`: a string, or the member the literal inherits from `Object.prototype` when the key names one (`Common.InheritedKey`) and is not an own key.

What the sale handlers do, as the code is written:
- A failing line does not undo the decrements of the lines before it: the loop at demo.routes.ts:919-966 returns at the first failing check and nothing restores the stock (`DemoSales.ProcessLinesNoRollback`).
- Cancelling never reads `statut` (demo.routes.ts:1031-1064), so a second cancel of the same sale succeeds and restores its stock again (`DemoSales.CancelTwice`).
- An underpaid sale is accepted with zero change: `Math.max(0, montant_paye - montantTotal)` at demo.routes.ts:970, with no check of the paid amount.

## Model

| member | source | states |
|---|---|---|
| DemoRoutes.Store.constructor | backend/src/routes/demo.routes.ts:899-900 | the store starts with the given catalogue, no sales, and the counter at 1 |
| DemoRoutes.Store.CreateVente | backend/src/routes/demo.routes.ts:903-998 | POST /ventes: the response and the new articles, sales and counter are those of `DemoSales.CreateVente`, and the sale numbering invariant is kept |
| DemoRoutes.Store.RecordSale | backend/src/routes/demo.routes.ts:974-989 | `venteCounter++` and `unshift`: the sale goes first and the counter goes up by exactly one, keeping the numbering invariant |
| DemoRoutes.Store.SaleNumbersDistinct | backend/src/routes/demo.routes.ts:974 | two stored sales of the same year never share a `numero_vente` |
| DemoRoutes.RunLines | backend/src/routes/demo.routes.ts:916-966 | the validation loop computes exactly `ProcessLines`: the first failing line stops it, with the stock as that line found it |
| DemoRoutes.TakeLine | backend/src/routes/demo.routes.ts:920-965 | one turn of the loop: check, snapshot the line, add its amount, decrement the variant |
| DemoRoutes.CheckItem | backend/src/routes/demo.routes.ts:920-945 | the three checks in order, with their 404/404/400 errors and messages |
| DemoRoutes.Store.ListVentes | backend/src/routes/demo.routes.ts:1001-1008 | GET /ventes returns the stored list, newest first by `RecordSale` |
| DemoRoutes.Store.GetVente | backend/src/routes/demo.routes.ts:1011-1028 | GET /ventes/:id equals `DemoSales.GetVente` |
| DemoRoutes.Store.CancelVente | backend/src/routes/demo.routes.ts:1031-1064 | DELETE /ventes/:id equals `DemoSales.CancelVente`: 404, or stock restored and status set to cancelled |
| DemoRoutes.RestoreItems | backend/src/routes/demo.routes.ts:1045-1053 | the restocking loop computes `RestoreLines`, skipping lines whose article or variant is gone |
| DemoRoutes.Store.ListArticles | backend/src/routes/demo.routes.ts:575-615 | GET /articles equals `DemoCatalog.ListArticles`; what the page holds is stated by `DemoCatalog.ListArticlesPage` and `DemoCatalog.BareListing` |
| DemoRoutes.Store.GetArticle | backend/src/routes/demo.routes.ts:618-633 | GET /articles/:id equals `DemoCatalog.GetArticle` |
| DemoRoutes.Store.CreateArticle | backend/src/routes/demo.routes.ts:636-666 | POST /articles appends `NewArticle` and leaves the sales and counter alone |
| DemoRoutes.Store.UpdateArticle | backend/src/routes/demo.routes.ts:669-692 | PUT /articles/:id equals `DemoCatalog.UpdateArticle`; sales and counter unchanged |
| DemoRoutes.Store.DeleteArticle | backend/src/routes/demo.routes.ts:695-712 | DELETE /articles/:id equals `DemoCatalog.DeleteArticle`; sales and counter unchanged |
| DemoRoutes.Store.StockAlerts | backend/src/routes/demo.routes.ts:715-741 | the alert route returns `DemoCatalog.Alerts` of the catalogue, sound and complete by `DemoCatalog.AlertsSound` and `DemoCatalog.AlertsComplete` |
| DemoRoutes.Store.Overview | backend/src/routes/demo.routes.ts:744-778 | the stats route returns `DemoCatalog.ComputeStats` of the catalogue, whose `stockBas` is the alert count by `DemoCatalog.StockBasIsAlertCount` |
| DemoSales.FindArticle | backend/src/routes/demo.routes.ts:920 | `find` by id: the first match, or none when no article has the id |
| DemoSales.FindDecl | backend/src/routes/demo.routes.ts:929 | `find` of a variant under an article: the first match, or none |
| DemoSales.CheckLine | backend/src/routes/demo.routes.ts:920-945 | an accepted line designates an existing variant |
| DemoSales.CheckLineOrder | backend/src/routes/demo.routes.ts:920-945 | unknown article gives 404; else unknown variant gives 404; else stock below the quantity gives 400 (the message names the available stock); else the line passes at the position its ids designate |
| DemoSales.AdjustStockEffect | backend/src/routes/demo.routes.ts:965 | a decrement changes that one variant's quantity by the delta and nothing else |
| DemoSales.ProcessLines | backend/src/routes/demo.routes.ts:919-966 | a finished loop has one recorded line per request line |
| DemoSales.StoppedPersists | backend/src/routes/demo.routes.ts:926-944 | once a line fails, the later lines are never looked at |
| DemoSales.ProcessLinesShape | backend/src/routes/demo.routes.ts:919-966 | the loop changes stock quantities and nothing else in the catalogue |
| DemoSales.ProcessLinesStock | backend/src/routes/demo.routes.ts:939-965 | a loop that succeeds lowers every variant by the total its lines ask of it |
| DemoSales.ProcessLinesTouchedNonNegative | backend/src/routes/demo.routes.ts:939-965 | a variant any line asked of ends at zero or above |
| DemoSales.ProcessLinesKeepsStockNonNegative | backend/src/routes/demo.routes.ts:939-965 | whatever the outcome, a catalogue without negative stock stays so |
| DemoSales.ProcessLinesNoRollback | backend/src/routes/demo.routes.ts:919-966 | when line k fails, the catalogue left is the one after lines 0..k-1, and the error is line k's check against it |
| DemoSales.ProcessLinesTotal | backend/src/routes/demo.routes.ts:947-948 | the total is the sum of `prix_unitaire * quantite` over the lines |
| DemoSales.ProcessLinesItems | backend/src/routes/demo.routes.ts:950-962 | each recorded line copies its request line and the article name/reference and variant size/colour |
| DemoSales.NumeroVenteInjective | backend/src/routes/demo.routes.ts:974 | within one year, different counters give different sale numbers |
| DemoSales.NumeroVenteShape | backend/src/routes/demo.routes.ts:974 | a four-digit year and a counter below 10^6 give the 15-character shape VTE-YYYY-NNNNNN |
| DemoSales.WithVenteIds | backend/src/routes/demo.routes.ts:978 | the stored lines are the recorded lines, line k with `vente_id` built from clock reading first + k |
| DemoSales.VenteIdAgree | backend/src/routes/demo.routes.ts:973-978 | two `vente-${Date.now()}` ids are equal exactly when their clock readings are |
| DemoSales.CreateVenteRejectsEmpty | backend/src/routes/demo.routes.ts:907-913 | missing or empty `items` gives 400 and changes nothing |
| DemoSales.CreateVenteStopped | backend/src/routes/demo.routes.ts:919-945 | a failing line returns its error; the catalogue is left as that line found it |
| DemoSales.CreateVenteDone | backend/src/routes/demo.routes.ts:968-989 | after every line passes, the sale is built from the recorded lines and put first, and the counter advances |
| DemoSales.CreateVenteFailure | backend/src/routes/demo.routes.ts:919-966 | a failure leaves the counter and the sales list untouched and keeps the decrements of the lines before the failing one |
| DemoSales.CreateVenteSuccess | backend/src/routes/demo.routes.ts:947-989 | a successful sale: total = sum of the lines, change = max(0, paid - total) (underpayment accepted), status VALIDEE, the counter's number, one line per request line, stock lowered by what was sold and never negative, counter + 1 |
| DemoSales.CreateVenteSuccessItems | backend/src/routes/demo.routes.ts:950-978 | each stored line of a successful sale records its request line and the article and variant labels as they were |
| DemoSales.CreateVenteSaleIds | backend/src/routes/demo.routes.ts:951-978 | after the loop's n clock readings, the sale id takes reading n and line k's `vente_id` reading n + 1 + k, so (with `VenteIdAgree`) a line carries the sale's id exactly when those readings agree |
| DemoSales.FindVente | backend/src/routes/demo.routes.ts:1032 | `findIndex` by id: the first match, or none |
| DemoSales.GetVente | backend/src/routes/demo.routes.ts:1011-1028 | found exactly when some sale has the id; otherwise 404 "Vente introuvable" |
| DemoSales.RestoreLinesShape | backend/src/routes/demo.routes.ts:1045-1053 | cancellation changes stock quantities only |
| DemoSales.RestoreLinesStock | backend/src/routes/demo.routes.ts:1045-1053 | every variant gets back the total of the lines that designate it |
| DemoSales.CreateThenCancel | backend/src/routes/demo.routes.ts:903-1064 | creating a sale and then cancelling it gives the catalogue back as it was; the sale stays, marked ANNULEE |
| DemoSales.CancelTwice | backend/src/routes/demo.routes.ts:1031-1064 | a second cancel of the same sale also succeeds and restores its stock a second time |
| DemoSales.CancelVenteMarks | backend/src/routes/demo.routes.ts:1042-1056 | cancelling marks that sale ANNULEE, keeps it in the list and leaves the other sales as they were |
| DemoCatalog.FilterArticlesIff | backend/src/routes/demo.routes.ts:578-594 | listed iff in the catalogue, name or reference containing the term ignoring case, and of the requested collection; absent or empty parameters do not filter |
| DemoCatalog.JsSlice | backend/src/routes/demo.routes.ts:599 | `slice` never yields more than the sequence holds |
| DemoCatalog.CeilDiv | backend/src/routes/demo.routes.ts:607 | `Math.ceil(n / d)` is the least k with k·d ≥ n |
| DemoCatalog.BareListing | backend/src/routes/demo.routes.ts:575-608 | without parameters (`page = 1, limit = 20`) the route returns the first twenty articles in order, and counts them all |
| DemoCatalog.ListArticlesPage | backend/src/routes/demo.routes.ts:596-608 | the page is the slice [(page-1)·limit, +limit) of the selection, total is the selection's length, and the page is non-empty iff page ≤ totalPages |
| DemoCatalog.PageInRange | backend/src/routes/demo.routes.ts:598-607 | a page starts inside the selection exactly when its number is at most the page count |
| DemoCatalog.GetArticle | backend/src/routes/demo.routes.ts:618-633 | found iff some article has the id, and then the first such; otherwise 404 "Article non trouvé" |
| DemoCatalog.NewArticleShape | backend/src/routes/demo.routes.ts:639-657 | the new article keeps the request's fields and variants in order and has no photos; variant k's `article_id` equals the article's id exactly when its clock reading equals the first; variant ids are pairwise distinct while the readings keep their number of digits |
| DemoCatalog.ArticleIdAgree | backend/src/routes/demo.routes.ts:640-650 | two `demo-article-${Date.now()}` ids are equal exactly when their clock readings are |
| DemoCatalog.CreateThenGet | backend/src/routes/demo.routes.ts:636-659 | a created article can be fetched by its id when no earlier article has it |
| DemoCatalog.ApplyEmptyPatch | backend/src/routes/demo.routes.ts:682-685 | an empty body leaves the article unchanged |
| DemoCatalog.ApplyPatchIdempotent | backend/src/routes/demo.routes.ts:682-685 | sending the same body twice is sending it once |
| DemoCatalog.ApplyPatchKeepsVariants | backend/src/routes/demo.routes.ts:682-685 | a body without `declinaisons` or `id` leaves those alone |
| DemoCatalog.UpdateArticle | backend/src/routes/demo.routes.ts:669-692 | 404 iff no article has the id (catalogue unchanged); otherwise only the first match is replaced by the patched article |
| DemoCatalog.DeleteArticle | backend/src/routes/demo.routes.ts:695-712 | 404 iff no article has the id; otherwise exactly the first match is spliced out and the rest keep their order |
| DemoCatalog.DeleteThenGet | backend/src/routes/demo.routes.ts:695-712 | with unique ids, a deleted article can no longer be fetched |
| DemoCatalog.Alerts | backend/src/routes/demo.routes.ts:715-741 | every alert has a shortfall `quantite_min - quantite` of zero or more |
| DemoCatalog.AlertsAppend | backend/src/routes/demo.routes.ts:718-735 | alerts come article by article, in catalogue order |
| DemoCatalog.AlertsComplete | backend/src/routes/demo.routes.ts:718-735 | every variant at or below its threshold has an alert |
| DemoCatalog.AlertsSound | backend/src/routes/demo.routes.ts:718-735 | every alert is a variant of the catalogue at or below its threshold |
| DemoCatalog.StockBasIsAlertCount | backend/src/routes/demo.routes.ts:750-752 | `stockBas` is the length of the alert list |
| DemoCatalog.TotalStockAdjust | backend/src/routes/demo.routes.ts:747-749 | changing one variant by delta changes `totalStock` by delta |
| DemoCatalog.SaleLowersTotalStock | backend/src/routes/demo.routes.ts:747-749 | a successful sale loop lowers `totalStock` by the units sold |
| DemoCatalog.CollectionCountsBound | backend/src/routes/demo.routes.ts:765-770 | the four collection counts add up to at most the number of articles |
| NewSale.FindPair | frontend/src/pages/NewSale.tsx:96-98 | finds a line of the (article, variant) pair, or none when the cart has none |
| NewSale.AddToCartEffect | frontend/src/pages/NewSale.tsx:94-124 | new pair: one line of 1 unit at `prix_vente` with `stock_disponible` = current stock, only if in stock; existing pair: +1 only while below the current stock; otherwise unchanged |
| NewSale.AddToCartKeepsPairsUnique | frontend/src/pages/NewSale.tsx:94-124 | the cart never holds two lines of one pair |
| NewSale.AddToCartKeepsWithinStock | frontend/src/pages/NewSale.tsx:99-107 | 1 ≤ quantite ≤ stock_disponible is kept while the variant's stock has not risen above the recorded value |
| NewSale.AddToCartCanPassRecordedStock | frontend/src/pages/NewSale.tsx:99-107 | when the stock has risen, adding goes past the line's recorded `stock_disponible` |
| NewSale.UpdateQuantity | frontend/src/pages/NewSale.tsx:126-136 | each line is updated only when the new quantity is in [1, stock_disponible] |
| NewSale.UpdateQuantityKeepsInvariants | frontend/src/pages/NewSale.tsx:126-136 | keeps every line in [1, stock_disponible] and the pairs unique; other variants' lines are untouched |
| NewSale.RemoveFromCartEffect | frontend/src/pages/NewSale.tsx:139-141 | removes exactly the lines of that variant and keeps the others in order |
| NewSale.RemoveFromCartKeepsWithinStock | frontend/src/pages/NewSale.tsx:139-141 | the remaining lines stay within their stock |
| NewSale.RemoveFromCartKeepsPairsUnique | frontend/src/pages/NewSale.tsx:139-141 | removing keeps the pairs unique |
| NewSale.RequestLines | frontend/src/pages/NewSale.tsx:165-170 | the request mirrors the cart line for line (article, variant, quantity, unit price) |
| NewSale.RequestTotalIsCartTotal | frontend/src/pages/NewSale.tsx:144-170 | the backend's total of the sent lines equals the `montantTotal` shown |
| NewSale.SubmitSpec | frontend/src/pages/NewSale.tsx:148-178 | refused with its message exactly when the cart is empty or paid < total; otherwise the request carries the cart's lines one for one (so the backend's total is the page's), the typed paid amount (≥ the total), the payment mode, and each optional field as typed or left out when empty |
| NewSale.EnabledSubmitSends | frontend/src/pages/NewSale.tsx:444 | an enabled button always leads to a request with the typed amount |
| NewSale.MontantRenduSpec | frontend/src/pages/NewSale.tsx:145 | change = max(0, paid - total), never negative |
| NewSale.LoadedArticlesFirstPage | frontend/src/pages/NewSale.tsx:47-57 | the page asks `/articles` without parameters, so it offers only the first twenty articles of the catalogue |
| NewSale.FilterArticlesIff | frontend/src/pages/NewSale.tsx:60-64 | listed iff loaded and the name, reference or brand contains the term ignoring case |
| NewSale.EmptySearchKeepsAll | frontend/src/pages/NewSale.tsx:60-64 | an empty search shows every loaded article |
| CartContext.AddToLine | frontend/src/contexts/CartContext.tsx:58-64 | lines with the key get the quantity added; others unchanged |
| CartContext.AddToCartSpec | frontend/src/contexts/CartContext.tsx:52-77 | key `article.id-declinaison.id`: an existing key gains the quantity (no stock bound), a new key is appended as one line; keys stay unique |
| CartContext.RemoveFromCartSpec | frontend/src/contexts/CartContext.tsx:79-81 | removes exactly the line with the id, keeping the rest in order and unique |
| CartContext.RemoveKeepsUnique | frontend/src/contexts/CartContext.tsx:79-81 | removal keeps keys unique |
| CartContext.UpdateQuantitySpec | frontend/src/contexts/CartContext.tsx:83-94 | quantity ≤ 0 is remove; otherwise only that line's quantity is set; keys stay unique |
| CartContext.KeyCollision | frontend/src/contexts/CartContext.tsx:53 | a counterexample on fixed ids, not an all-inputs property: two different (article, variant) pairs share a key when an id contains "-" |
| CartContext.ClearCart | frontend/src/contexts/CartContext.tsx:96-98 | `clearCart` gives the empty cart |
| CartContext.ClearCartTotals | frontend/src/contexts/CartContext.tsx:96-108 | the empty cart totals zero in price and in items |
| CartContext.AddNewLinePrice | frontend/src/contexts/CartContext.tsx:66-104 | a new key adds `prix_vente × quantity` to the price total |
| StockAlertsPage.AdaptAll | frontend/src/pages/StockAlerts.tsx:55-71 | one adapted alert per backend alert |
| StockAlertsPage.AdaptAllPreserves | frontend/src/pages/StockAlerts.tsx:55-71 | the adaptation keeps order, ids, names, quantity and threshold |
| StockAlertsPage.AlertLevelSpec | frontend/src/pages/StockAlerts.tsx:135-144 | 0 is critical; else ≤ quantite_min/2 is high; else medium; exactly one applies |
| StockAlertsPage.AlertLabelSpec | frontend/src/pages/StockAlerts.tsx:146-153 | each level's label, and "Stock bas" for any other string |
| StockAlertsPage.CardsPartition | frontend/src/pages/StockAlerts.tsx:184-237 | out-of-stock + high + medium counts = the number of alerts |
| StockAlertsPage.OutOfStockIsCritical | frontend/src/pages/StockAlerts.tsx:184-218 | the out-of-stock card counts the critical alerts |
| StockAlertsPage.ShortfallSpec | frontend/src/pages/StockAlerts.tsx:318 | the shortfall shown is max(0, min - quantity) ≥ 0, and for any alert of the backend's list it equals that alert's `quantite_manquante` |
| StockAlertsPage.SetVariantStock | frontend/src/pages/StockAlerts.tsx:105-115 | alerts of that variant get the new stock; the others stay |
| StockAlertsPage.ReplenishmentSpec | frontend/src/pages/StockAlerts.tsx:94-121 | refused without a selection or a positive quantity; otherwise only the selected variant's alerts get `quantite + n` |
| StockAlertsPage.ProcessedSetSpec | frontend/src/pages/StockAlerts.tsx:83-133 | processing adds exactly the key and is idempotent; ignoring does so only when confirmed |
| CataloguePage.CatalogueQuerySelects | frontend/src/pages/Catalogue.tsx:32-54 | the query asks for 12 per page; empty fields are left out, so the backend selects everything of the chosen collection |
| CataloguePage.TotalStockIsArticleStock | frontend/src/pages/Catalogue.tsx:72-74 | `getTotalStock` is the sum of the variant quantities |
| CataloguePage.HasStockAlertsIff | frontend/src/pages/Catalogue.tsx:77-79 | the badge shows iff some variant has quantite ≤ quantite_min, i.e. iff the backend reports an alert for the article |
| CataloguePage.CollectionStyleSpec | frontend/src/pages/Catalogue.tsx:82-105 | a listed key gets its own colour and icon; a key inherited from `Object.prototype` ("constructor", "toString", …) gets that inherited member, as `||` keeps a truthy function; the default pair exactly for every other key, so all four collection codes get the defaults |
| CataloguePage.PageClampSpec | frontend/src/pages/Catalogue.tsx:360-387 | previous = max(p-1, 1), next = min(p+1, total), both in range; each is a no-op exactly at its end |
| CataloguePage.PageButtonsSpec | frontend/src/pages/Catalogue.tsx:366-369 | min(5, totalPages) buttons numbered 1..n, each an existing page |
| CataloguePage.ClicksStayInRange | frontend/src/pages/Catalogue.tsx:360-387 | from a valid page, any series of clicks stays in [1, totalPages] |
| CataloguePage.BeyondLastPage | frontend/src/pages/Catalogue.tsx:27-396 | `currentPage` survives a filter change, so it can pass the new last page: that page is empty, so only the empty state (235-252) is drawn and no pagination, leaving no click that changes the page; otherwise the pagination is shown exactly when there is more than one page |
| ProductDetails.StockStatusSpec | frontend/src/pages/ProductDetails.tsx:99-103 | "Épuisé" at 0, "Stock bas" for 0 < q ≤ min (and q < 0), "En stock" above; exactly one |
| ProductDetails.BadgeMatchesAlerts | frontend/src/pages/ProductDetails.tsx:99-103 | a warning badge iff the backend reports an alert for the variant or it is at zero |
| ProductDetails.InitialSelection | frontend/src/pages/ProductDetails.tsx:59-61 | a variant is selected on load iff the article has one |
| ProductDetails.SelectedDataSpec | frontend/src/pages/ProductDetails.tsx:105 | `find` gives the first variant with the id, none if absent |
| ProductDetails.InitialSelectionResolves | frontend/src/pages/ProductDetails.tsx:59-105 | after loading, the selection is the first variant |
| ProductDetails.FindPrimarySpec | frontend/src/pages/ProductDetails.tsx:128 | the first primary photo, none iff none is primary |
| ProductDetails.InitialDisplaySpec | frontend/src/pages/ProductDetails.tsx:62-178 | the picture shown on load is the primary photo's, else the first's, else the placeholder |
| ProductDetails.HandleAddToCartSpec | frontend/src/pages/ProductDetails.tsx:89-97 | refused iff no article or no variant is resolved; otherwise the cart is `addToCart(article, variant, 1)`: a new line of one unit for a new key, else one more unit on exactly the line holding the key, ids kept distinct; an enabled button (line 303) always adds |
| ProductDetails.InitialAddToCart | frontend/src/pages/ProductDetails.tsx:303 | on load the button is enabled iff the first variant exists and is not at zero |
| ArticleForm.RemoveAt | frontend/src/pages/ArticleForm.tsx:218-222 | field-array `remove` at the index of a rendered row: the element at the index is dropped and the rest keep their order |
| ArticleForm.MarkPrimarySpec | frontend/src/pages/ArticleForm.tsx:202-206 | photo i is primary and every other one is not; files, urls and texts unchanged |
| ArticleForm.AddPhotoKeepsOnePrimary | frontend/src/pages/ArticleForm.tsx:193-200 | the new photo is primary iff the list was empty; never two primaries |
| ArticleForm.RemovePhotoKeepsOnePrimary | frontend/src/pages/ArticleForm.tsx:415 | removing never makes two primaries; removing the primary leaves none |
| ArticleForm.FormState.constructor | frontend/src/pages/ArticleForm.tsx:74-95 | a new form has the default fields, one default variant and no photos |
| ArticleForm.FormState.AddDeclinaison | frontend/src/pages/ArticleForm.tsx:208-216 | appends one variant (M, quantity 0, threshold 5) |
| ArticleForm.FormState.RemoveDeclinaison | frontend/src/pages/ArticleForm.tsx:218-222 | removes only when more than one variant is present, so the list never empties |
| ArticleForm.FormState.AddPhoto | frontend/src/pages/ArticleForm.tsx:193-200 | appends the new photo slot, keeping at most one primary |
| ArticleForm.FormState.RemovePhoto | frontend/src/pages/ArticleForm.tsx:415 | removes the slot at the index |
| ArticleForm.FormState.SetPrimaryPhoto | frontend/src/pages/ArticleForm.tsx:202-206 | the loop leaves the photos as `MarkPrimary`, keeping at most one primary |
| ArticleForm.FormState.UploadPhoto | frontend/src/pages/ArticleForm.tsx:182-191 | the slot takes the file, the data URL and the file name as text; nothing else changes |
| ArticleForm.ReferencePatternSpec | frontend/src/pages/ArticleForm.tsx:285-291 | `/^[A-Z0-9-_]+$/` accepts exactly the non-empty strings of those characters |
| ArticleForm.ValidateReferenceSpec | frontend/src/pages/ArticleForm.tsx:285-291 | accepted iff non-empty and of the pattern; the required message, else the pattern message |
| ArticleForm.ValidateNom | frontend/src/pages/ArticleForm.tsx:297-303 | accepted iff at least 2 characters; required or too-short message |
| ArticleForm.Required | frontend/src/pages/ArticleForm.tsx:319-526 | a required field is refused iff empty, with its message |
| ArticleForm.NonNegative | frontend/src/pages/ArticleForm.tsx:332-558 | a `min: 0` field is refused iff negative, with its message |
| ArticleForm.FormAcceptedSpec | frontend/src/pages/ArticleForm.tsx:285-558 | submitted iff the reference, name, collection and prices pass and every variant has a size, a colour and non-negative quantity and threshold |
| ArticleForm.DefaultFormRefused | frontend/src/pages/ArticleForm.tsx:74-95 | a fresh form cannot be submitted |
| ArticleForm.CreatePayload | frontend/src/pages/ArticleForm.tsx:153-168 | one request variant per form variant |
| ArticleForm.UpdatePayloadSpec | frontend/src/pages/ArticleForm.tsx:144-150 | an update changes only name, brand, collection and prices; reference, variants, id and photos are untouched |
| ArticleForm.CreatedArticleSpec | frontend/src/pages/ArticleForm.tsx:153-168 | the created article carries the form's fields and variants, an empty barcode becomes absent, and it has no photos |
| UsersManagement.ViewSpec | frontend/src/pages/UsersManagement.tsx:116-132 | only a manager sees the list, and then exactly the search results |
| UsersManagement.FilteredUsersIff | frontend/src/pages/UsersManagement.tsx:128-132 | listed iff the surname, first name or email contains the term ignoring case; an empty term lists all |
| UsersManagement.AddUserSpec | frontend/src/pages/UsersManagement.tsx:134-151 | refused iff a required field is empty; otherwise one active user is appended and the others are kept |
| UsersManagement.UpdateUserSpec | frontend/src/pages/UsersManagement.tsx:170-187 | refused iff no user is chosen or a required field is empty; otherwise only users with that id get the five fields |
| UsersManagement.ToggleStatus | frontend/src/pages/UsersManagement.tsx:195-201 | the list keeps its length |
| UsersManagement.ToggleStatusSpec | frontend/src/pages/UsersManagement.tsx:195-201 | only that id's status flips; toggling twice gives the list back |
| UsersManagement.DeleteUserSpec | frontend/src/pages/UsersManagement.tsx:203-208 | confirmed: exactly the users with that id go, the rest keep their order; declined: nothing changes |
| UsersManagement.CountsAppend | frontend/src/pages/UsersManagement.tsx:238-265 | the counters of two lists joined add up |
| UsersManagement.CountsSpec | frontend/src/pages/UsersManagement.tsx:238-265 | managers + sellers = total, active ≤ total |
| UsersPage.FilteredMembersIff | frontend/src/pages/Users.tsx:89-93 | listed iff the email contains the term ignoring case and the filter is "all" or the role; "all" with an empty term lists everyone; an unknown filter lists nobody |
| UsersPage.StatsSpec | frontend/src/pages/Users.tsx:95-100 | gerants + vendeurs = total, active ≤ total |
| RecentSales.FormatDateSpec | frontend/src/pages/RecentSales.tsx:57-70 | under an hour (or in the future) "moins d'une heure"; h whole hours for 1..23; d whole days from one day on, plural from two days |
| RecentSales.DaysBetween | frontend/src/pages/RecentSales.tsx:63-65 | whole hours rounded down to whole days bound the elapsed time in days |
| RecentSales.TotalsSplit | frontend/src/pages/RecentSales.tsx:72-87 | the totals of the listed and the hidden sales add up to the totals of all sales |
| RecentSales.AverageBasket | frontend/src/pages/RecentSales.tsx:167 | defined iff the list is non-empty, and then average × count = total |
| RecentSales.FilteredSalesIff | frontend/src/pages/RecentSales.tsx:82-87 | listed iff the client or some article name contains the term ignoring case; an empty term lists all |
| StockMovements.MovementLabelSpec | frontend/src/pages/StockMovements.tsx:84-99 | unknown types shown as they are; declared ones get distinct labels that are not type codes |
| StockMovements.FilteredMovementsIff | frontend/src/pages/StockMovements.tsx:105-111 | listed iff the filter is "all" or the type, and the term occurs in article, variant or reason ignoring case |
| StockMovements.CountersSpec | frontend/src/pages/StockMovements.tsx:174-206 | the five counters add up to the movements of a declared type |
| StockMovements.QuantityTextSpec | frontend/src/pages/StockMovements.tsx:253-256 | a leading "+" and green iff positive; "-" when negative, "0" at zero, then the digits of the magnitude |
| Sidebar.MenuItemsSpec | frontend/src/components/layout/Sidebar.tsx:28-112 | non-managers get exactly the 10 base items; managers get those 10 then users-management and settings; the item paths are the twelve menu paths in order |
| Sidebar.ManagerPathsDistinct | frontend/src/components/layout/Sidebar.tsx:28-112 | the twelve menu paths are pairwise distinct, so no two items share a path |
| Sidebar.IsActiveSpec | frontend/src/components/layout/Sidebar.tsx:115-117 | active means the item's path is a prefix cut at "/" (or equal); "/" is active only on "/" (or a path starting "//") |
| Sidebar.ActiveItemsExamples | frontend/src/components/layout/Sidebar.tsx:115-117 | examples on fixed paths, not an all-inputs property: "/articles/new" highlights both catalogue items; "/users-management" does not highlight "/users" |
| LanguageContext.TranslateSpec | frontend/src/contexts/LanguageContext.tsx:211-213 | the entry when present and non-empty; the inherited member when the key is absent but names an `Object.prototype` property; otherwise the key; fails only when the language has no table |
| LanguageContext.InitialLanguageSpec | frontend/src/contexts/LanguageContext.tsx:196-200 | the saved value if non-empty, else "fr"; lookups succeed for fr, en or none saved |
| LanguageContext.LanguageProvider.constructor | frontend/src/contexts/LanguageContext.tsx:196-200 | the provider starts at the initial language |
| LanguageContext.LanguageProvider.SetLanguage | frontend/src/contexts/LanguageContext.tsx:207-213 | later `t` calls use the new language's table and always succeed |
| Common.NatToStringRoundTrip | backend/src/routes/demo.routes.ts:974 | the decimal rendering of a number reads back as that number |
| Common.PaddedRoundTrip | backend/src/routes/demo.routes.ts:974 | zero-padding keeps the value, so padded counters stay distinct |
| Common.OrAbsent | frontend/src/pages/ArticleForm.tsx:166 | `s \|\| undefined`: absent exactly for the empty string |

## Left out

- The seed data: the ten literal articles of `demoArticles` and the constant user lists of the users pages are not transcribed. The store and the pages take them as parameters.
- The demo login and its credential table, authentication (JWT, bcrypt, the auth context), the Supabase services and the unmounted article routes. They are foreign calls or are not mounted.
- HTTP plumbing, routing, and `parseInt` of query parameters. The page and the limit arrive as integers, with limit ≥ 1; their defaults (`page = 1, limit = 20`) are kept as `DemoCatalog.BARE_QUERY`.
- `DemoCatalog.ApplyPatch`: the update body has the article's own fields, each present or absent. A JSON key that is not an article field, and a field sent as `null`, are copied onto the stored article by the source's spread; the model does not represent them.
- `DemoCatalog.NewArticle`: the request always carries a list of variants. A body without `declinaisons` makes the source throw on `.map` of `undefined`; that failure is not modelled.
- `NewSale.SubmitSpec`, `NewSale.EnabledSubmitSends`: the cart total is summed exactly in cents. The source sums floats (NewSale.tsx:144), so a total such as 9.99 + 39.99 comes out as 49.980000000000004, and typing exactly 49.98 disables the button (line 444) and is refused as insufficient (line 156). The model accepts that payment.
- `NewSale.Submit`: an empty paid field is sent as 0. The source sends `parseFloat('')`, which is NaN and is serialised as `null`; only a zero-total cart gets past the guard with an empty field.
- The GET /sales/recent, dashboard, statistics and Home data. These are presentational.
- localStorage, in the cart and language contexts. The saved language is a parameter.
- The translation tables. Their contents are a parameter.
- `DemoCatalog.ComputeStats`: `valeurStock` is kept exact (cents times units). The source's `Math.round(x*100)/100` on floats is not modelled, and neither are the margin percentage on the product page or any `toFixed` or `Intl` formatting.
- `Date.now()` and `Math.random()` are parameters. Two requests in the same millisecond giving equal article ids is therefore not modelled; `CreateThenGet` assumes the id is new. The year and the ISO timestamp of a sale are independent parameters; that they come from two separate `new Date()` calls is not modelled.
- `Common.Lower`: only ASCII and Latin-1 capitals are lowered. Other Unicode case mappings are not modelled.
- `ArticleForm.ValidateNom`: `minLength` counts UTF-16 code units, while the model counts characters.
- `StockAlertsPage.GetAlertLevel`: takes integers. The source's `typeof quantiteMin` check for a non-number threshold is not modelled.
- `ArticleForm`: the parts of the form not modelled are:
  - the reset and the loading of an existing article into the form;
  - the `FileReader` read, whose result `UploadPhoto` takes as a parameter;
  - edits of individual inputs;
  - parsing of numeric inputs (an empty numeric field is not modelled).
- The photos of the article form are never sent by the create request; the model states this (`CreatedArticleSpec`) rather than modelling an upload.
- `StockMovements`: the icons and colours per movement type are left out. They are presentational.
- `frontend/src/pages/VendorsManagement.tsx` refers to identifiers it never defines, so it has no behaviour to model.
- `LanguageContext.Translate`: a language that names an `Object.prototype` property (a saved "constructor", say) makes `translations[language]` (LanguageContext.tsx:212) an inherited function rather than a missing table. The model treats it as a missing table and gives `None`; the properties of that function are not modelled. Inherited keys of the tables themselves are modelled (`Common.InheritedKey`).
- Concurrency between requests is not modelled. Each handler runs to completion on the single store.
