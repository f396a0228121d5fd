/** The catalogue page (frontend/src/pages/Catalogue.tsx): the query it
    sends, the per-article stock total and alert badge, the collection
    colour and icon, and the pagination controls. */
module CataloguePage {
  import opened Common
  import opened StockTypes
  import DemoCatalog

  // ------------------------------------------------------------------ query

  const PAGE_SIZE: int := 12

  /** The query of `loadArticles`, for the current page, search field and
      collection selector. */
  function CatalogueQuery(page: int, searchTerm: string, collection: string): DemoCatalog.ListQuery
  {
    DemoCatalog.ListQuery(page, PAGE_SIZE, OrAbsent(searchTerm), OrAbsent(collection))
  }

  /** With both fields empty the backend selects the whole catalogue, and
      with an empty search field it selects exactly the articles of the
      chosen collection. */
  lemma CatalogueQuerySelects(arts: seq<Article>, page: int, collection: string, x: Article)
    ensures var q := CatalogueQuery(page, "", collection);
      && (x in DemoCatalog.FilterArticles(arts, q) <==> x in arts && (collection != [] ==> x.collection == collection))
      && (collection == [] ==> DemoCatalog.FilterArticles(arts, q) == arts)
  {
    DemoCatalog.FilterArticlesIff(arts, CatalogueQuery(page, "", collection), x);
  }

  // --------------------------------------------------------- article cards

  /** `getTotalStock`: `reduce` adds the quantities from the left. */
  function TotalStock(ds: seq<Declinaison>): int
  {
    if ds == [] then 0 else TotalStock(ds[..|ds| - 1]) + ds[|ds| - 1].quantite
  }

  /** The left-to-right total is the backend's per-article stock, the sum
      of the variant quantities. */
  lemma {:induction false} TotalStockIsArticleStock(a: Article)
    ensures TotalStock(a.declinaisons) == DemoCatalog.ArticleStock(a)
  {
    TotalStockPrefix(a.declinaisons, |a.declinaisons|);
    assert a.declinaisons[..|a.declinaisons|] == a.declinaisons;
  }

  lemma {:induction false} TotalStockPrefix(ds: seq<Declinaison>, n: nat)
    requires n <= |ds|
    ensures TotalStock(ds[..n]) == SumOf(ds[..n], DemoCatalog.DeclQuantity)
  {
    if n > 0 {
      TotalStockPrefix(ds, n - 1);
      assert ds[..n][..n - 1] == ds[..n - 1];
      SumOfSnoc(ds, n - 1, DemoCatalog.DeclQuantity);
    }
  }

  function IsLowFn(): Declinaison -> bool
  {
    (d: Declinaison) => d.quantite <= d.quantite_min
  }

  /** `hasStockAlerts` */
  predicate HasStockAlerts(a: Article)
  {
    AnyOf(a.declinaisons, IsLowFn())
  }

  /** The badge shows exactly when the backend's alert scan reports the
      article: some variant is at or below its threshold. */
  lemma HasStockAlertsIff(a: Article)
    ensures HasStockAlerts(a) <==> exists i :: 0 <= i < |a.declinaisons| && DemoCatalog.IsLow(a.declinaisons[i])
    ensures HasStockAlerts(a) <==> DemoCatalog.ArticleAlerts(a, a.declinaisons) != []
  {
    if HasStockAlerts(a) {
      var i :| 0 <= i < |a.declinaisons| && IsLowFn()(a.declinaisons[i]);
      DemoCatalog.ArticleAlertsComplete(a, a.declinaisons, i);
    }
    if DemoCatalog.ArticleAlerts(a, a.declinaisons) != [] {
      var d := DemoCatalog.ArticleAlertsSound(a, a.declinaisons, 0);
      assert IsLowFn()(a.declinaisons[d]);
    }
  }

  // --------------------------------------------------- collection styling

  const DEFAULT_COLOR: string := "bg-gray-500"
  const DEFAULT_ICON: string := "📦"

  /** The keys of the colour and icon dictionaries. */
  predicate Listed(collection: string)
  {
    collection in ["Vêtements", "Chaussures", "Accessoires", "Sac", "Montre", "Parfum"]
  }

  /** `getCollectionColor`: `colors[collection] || 'bg-gray-500'`. */
  function CollectionColor(collection: string): Lookup
  {
    match collection
    case "Vêtements" => Text("bg-blue-500")
    case "Chaussures" => Text("bg-green-500")
    case "Accessoires" => Text("bg-purple-500")
    case "Sac" => Text("bg-orange-500")
    case "Montre" => Text("bg-pink-500")
    case "Parfum" => Text("bg-indigo-500")
    case _ => if InheritedKey(collection) then Inherited(collection) else Text(DEFAULT_COLOR)
  }

  /** `getCollectionIcon`: `icons[collection] || '📦'`. */
  function CollectionIcon(collection: string): Lookup
  {
    match collection
    case "Vêtements" => Text("👕")
    case "Chaussures" => Text("👟")
    case "Accessoires" => Text("✨")
    case "Sac" => Text("👜")
    case "Montre" => Text("⌚")
    case "Parfum" => Text("🌸")
    case _ => if InheritedKey(collection) then Inherited(collection) else Text(DEFAULT_ICON)
  }

  /** A listed key gets its own colour and icon; a key the dictionaries
      inherit from `Object.prototype` gets that inherited member; any other
      key gets the default pair. In particular the four collection codes an
      article can carry all get the default. */
  lemma CollectionStyleSpec(collection: string)
    ensures Listed(collection) ==>
      && CollectionColor(collection).Text? && CollectionColor(collection) != Text(DEFAULT_COLOR)
      && CollectionIcon(collection).Text? && CollectionIcon(collection) != Text(DEFAULT_ICON)
    ensures InheritedKey(collection) ==>
      CollectionColor(collection) == Inherited(collection) && CollectionIcon(collection) == Inherited(collection)
    ensures CollectionColor(collection) == Text(DEFAULT_COLOR) <==> !Listed(collection) && !InheritedKey(collection)
    ensures CollectionIcon(collection) == Text(DEFAULT_ICON) <==> !Listed(collection) && !InheritedKey(collection)
    ensures collection in [HIVER_2024, ETE_2024, AUTOMNE_2024, PRINTEMPS_2025] ==>
      CollectionColor(collection) == Text(DEFAULT_COLOR) && CollectionIcon(collection) == Text(DEFAULT_ICON)
  {
  }

  // ------------------------------------------------------------ pagination

  /** "Précédent": `Math.max(prev - 1, 1)` */
  function PrevPage(page: int): int
  {
    DemoCatalog.Max(page - 1, 1)
  }

  /** "Suivant": `Math.min(prev + 1, totalPages)` */
  function NextPage(page: int, totalPages: int): int
  {
    DemoCatalog.Min(page + 1, totalPages)
  }

  /** From a page in [1, totalPages] both buttons stay in that range; each
      moves by one page except at its end, where it keeps the page and the
      button is disabled. */
  lemma PageClampSpec(page: int, totalPages: int)
    requires 1 <= page <= totalPages
    ensures 1 <= PrevPage(page) <= totalPages && 1 <= NextPage(page, totalPages) <= totalPages
    ensures PrevPage(page) == page <==> page == 1
    ensures page > 1 ==> PrevPage(page) == page - 1
    ensures NextPage(page, totalPages) == page <==> page == totalPages
    ensures page < totalPages ==> NextPage(page, totalPages) == page + 1
  {
  }

  /** The numbered buttons: `[...Array(Math.min(5, totalPages))]`, button i
      going to page i + 1. */
  function PageButtons(totalPages: nat): seq<int>
  {
    seq(DemoCatalog.Min(5, totalPages), i => i + 1)
  }

  /** There are min(5, totalPages) buttons, numbered 1, 2, ... in order,
      each a page that exists. */
  lemma PageButtonsSpec(totalPages: nat)
    ensures |PageButtons(totalPages)| == DemoCatalog.Min(5, totalPages) <= 5
    ensures forall i :: 0 <= i < |PageButtons(totalPages)| ==>
      PageButtons(totalPages)[i] == i + 1 && 1 <= PageButtons(totalPages)[i] <= totalPages
  {
  }

  /** The pagination sits in the branch drawn when the page has articles
      (`articles.length === 0 ? … : …`), behind `totalPages > 1 &&`. */
  predicate PaginationShown(totalPages: int, shown: seq<Article>)
  {
    |shown| > 0 && totalPages > 1
  }

  /** `currentPage` is kept when the search or the collection changes, so a
      narrower selection can leave it beyond the new last page. That page
      shows no article, only the empty state, and so no pagination: the
      pagination's buttons are the only setters of `currentPage`, so no
      click leaves the page until the query changes. Within the pages, the
      pagination is drawn exactly when there is more than one. */
  lemma BeyondLastPage(arts: seq<Article>, page: int, searchTerm: string, collection: string)
    requires page >= 1
    ensures var r := DemoCatalog.ListArticles(arts, CatalogueQuery(page, searchTerm, collection));
      var tp := r.pagination.totalPages;
      && (page > tp ==> r.data == [] && !PaginationShown(tp, r.data))
      && (PaginationShown(tp, r.data) <==> 1 < tp && page <= tp)
  {
    DemoCatalog.ListArticlesPage(arts, CatalogueQuery(page, searchTerm, collection));
  }

  /** A click on the pagination: one of the two arrows, or the numbered
      button at position `button`. */
  datatype PageAction = Prev | Next | GoTo(button: nat)

  predicate ActionShown(action: PageAction, totalPages: nat)
  {
    action.GoTo? ==> action.button < |PageButtons(totalPages)|
  }

  function Apply(page: int, action: PageAction, totalPages: nat): int
    requires ActionShown(action, totalPages)
  {
    match action
    case Prev => PrevPage(page)
    case Next => NextPage(page, totalPages)
    case GoTo(i) => PageButtons(totalPages)[i]
  }

  /** The page after a series of clicks. */
  function ApplyAll(page: int, actions: seq<PageAction>, totalPages: nat): int
    requires forall i :: 0 <= i < |actions| ==> ActionShown(actions[i], totalPages)
    decreases |actions|
  {
    if actions == [] then page else ApplyAll(Apply(page, actions[0], totalPages), actions[1..], totalPages)
  }

  /** Whatever the clicks, starting from an existing page the current
      page remains an existing one. */
  lemma {:induction false} ClicksStayInRange(page: int, actions: seq<PageAction>, totalPages: nat)
    requires 1 <= page <= totalPages
    requires forall i :: 0 <= i < |actions| ==> ActionShown(actions[i], totalPages)
    ensures 1 <= ApplyAll(page, actions, totalPages) <= totalPages
    decreases |actions|
  {
    if actions != [] {
      PageClampSpec(page, totalPages);
      PageButtonsSpec(totalPages);
      ClicksStayInRange(Apply(page, actions[0], totalPages), actions[1..], totalPages);
    }
  }
}
