/** The catalogue side of the in-memory backend
    (backend/src/routes/demo.routes.ts): listing with search, collection
    filter and pagination; lookup, creation, update and removal of an
    article; the low-stock alert scan; the statistics roll-up. */
module DemoCatalog {
  import opened Common
  import opened StockTypes
  import opened DemoSales

  const ARTICLE_NOT_FOUND: ApiError := ApiError(404, "Article non trouvé")

  // ---------------------------------------------------------------- listing

  /** The query string of GET /articles, its numbers already parsed. */
  datatype ListQuery = ListQuery(page: int, limit: int, search: Option<string>, collection: Option<string>)

  datatype Pagination = Pagination(page: int, limit: int, total: nat, totalPages: int)

  datatype ArticlePage = ArticlePage(data: seq<Article>, pagination: Pagination)

  /** A query string parameter is applied only when it is present and not
      the empty string. */
  predicate Given(p: Option<string>)
  {
    p.Some? && p.value != []
  }

  predicate MatchesSearch(a: Article, term: string)
  {
    IncludesIgnoringCase(a.nom, term) || IncludesIgnoringCase(a.reference, term)
  }

  /** The articles the query selects, in catalogue order. */
  function FilterArticles(arts: seq<Article>, q: ListQuery): seq<Article>
  {
    var searched := if Given(q.search) then Filter(arts, (a: Article) => MatchesSearch(a, q.search.value)) else arts;
    if Given(q.collection) then Filter(searched, (a: Article) => a.collection == q.collection.value) else searched
  }

  /** An article is listed exactly when it is in the catalogue, its name or
      reference contains the search term ignoring case, and its collection is
      the requested one; an absent or empty parameter does not filter. */
  lemma FilterArticlesIff(arts: seq<Article>, q: ListQuery, x: Article)
    ensures x in FilterArticles(arts, q) <==>
      && x in arts
      && (Given(q.search) ==> MatchesSearch(x, q.search.value))
      && (Given(q.collection) ==> x.collection == q.collection.value)
  {
    var searched := if Given(q.search) then Filter(arts, (a: Article) => MatchesSearch(a, q.search.value)) else arts;
    if Given(q.search) {
      InFilter(arts, (a: Article) => MatchesSearch(a, q.search.value), x);
    }
    if Given(q.collection) {
      InFilter(searched, (a: Article) => a.collection == q.collection.value, x);
    }
  }

  lemma InFilter<T>(s: seq<T>, p: T -> bool, x: T)
    ensures x in Filter(s, p) <==> x in s && p(x)
  {
    var r := Filter(s, p);
    if x in r {
      var i :| 0 <= i < |r| && r[i] == x;
    }
    if x in s && p(x) {
      var i :| 0 <= i < |s| && s[i] == x;
    }
  }

  /** `Array.prototype.slice(start, end)`: negative bounds count from the
      end, and both bounds are clamped to the sequence. */
  function JsSlice<T>(s: seq<T>, start: int, end: int): (r: seq<T>)
    ensures |r| <= |s|
  {
    var from := if start < 0 then Max(|s| + start, 0) else Min(start, |s|);
    var to := if end < 0 then Max(|s| + end, 0) else Min(end, |s|);
    if from < to then s[from..to] else []
  }

  function Min(x: int, y: int): int
  {
    if x <= y then x else y
  }

  function Max(x: int, y: int): int
  {
    if x >= y then x else y
  }

  /** `Math.ceil(n / d)` for a positive divisor: the least k with k·d ≥ n. */
  function CeilDiv(n: nat, d: int): (k: nat)
    requires d >= 1
    ensures k * d >= n
    ensures (k - 1) * d < n || k == 0
  {
    (n + d - 1) / d
  }

  /** GET /articles */
  function ListArticles(arts: seq<Article>, q: ListQuery): ArticlePage
    requires q.limit >= 1
  {
    var filtered := FilterArticles(arts, q);
    var offset := (q.page - 1) * q.limit;
    ArticlePage(JsSlice(filtered, offset, offset + q.limit),
                Pagination(q.page, q.limit, |filtered|, CeilDiv(|filtered|, q.limit)))
  }

  /** `GET /articles` without parameters: `page = 1, limit = 20`. */
  const BARE_QUERY: ListQuery := ListQuery(1, 20, None, None)

  /** Without parameters the route answers with the first twenty articles
      of the catalogue, in order, and counts them all. */
  lemma BareListing(arts: seq<Article>)
    ensures var r := ListArticles(arts, BARE_QUERY);
      && r.data == arts[..Min(20, |arts|)]
      && r.pagination.total == |arts|
  {
    assert FilterArticles(arts, BARE_QUERY) == arts;
  }

  /** For a page number of at least 1: the page holds the selected articles
      from position (page-1)·limit on, at most `limit` of them; it is
      non-empty exactly when the page number is at most `totalPages`; and
      `total` is the number of selected articles. */
  lemma ListArticlesPage(arts: seq<Article>, q: ListQuery)
    requires q.limit >= 1 && q.page >= 1
    ensures var r := ListArticles(arts, q);
      var f := FilterArticles(arts, q);
      var offset := (q.page - 1) * q.limit;
      && r.pagination.total == |f|
      && |r.data| <= q.limit
      && (offset < |f| ==> r.data == f[offset..Min(offset + q.limit, |f|)])
      && (offset >= |f| ==> r.data == [])
      && (r.data != [] <==> q.page <= r.pagination.totalPages)
  {
    var f := FilterArticles(arts, q);
    var offset := (q.page - 1) * q.limit;
    PageInRange(q.page, q.limit, |f|);
    assert offset >= 0 by { NonNegativeProduct(q.page - 1, q.limit); }
  }

  lemma NonNegativeProduct(x: int, y: int)
    requires x >= 0 && y >= 0
    ensures x * y >= 0
  {
  }

  /** A page starts inside the selection exactly when its number is at most
      the page count. */
  lemma PageInRange(page: int, limit: int, n: nat)
    requires page >= 1 && limit >= 1
    ensures (page - 1) * limit < n <==> page <= CeilDiv(n, limit)
  {
    var tp := CeilDiv(n, limit);
    if page <= tp {
      MulMonotone(page - 1, tp - 1, limit);
    } else {
      MulMonotone(tp, page - 1, limit);
    }
  }

  lemma MulMonotone(x: int, y: int, m: int)
    requires x <= y && m >= 0
    ensures x * m <= y * m
  {
  }

  // -------------------------------------------------------- single article

  /** GET /articles/:id */
  function GetArticle(arts: seq<Article>, id: string): (r: Result<Article, ApiError>)
    ensures r.Success? <==> exists i :: 0 <= i < |arts| && arts[i].id == id
    ensures r.Success? ==> r.value.id == id && r.value == arts[FindArticle(arts, id).value]
    ensures r.Failure? ==> r.error == ARTICLE_NOT_FOUND
  {
    match FindArticle(arts, id)
    case None => Failure(ARTICLE_NOT_FOUND)
    case Some(i) => Success(arts[i])
  }

  /** `demo-article-${Date.now()}` from clock reading k. */
  function ArticleIdAt(clock: Clock, k: nat): string
  {
    "demo-article-" + NatToString(clock.now(k))
  }

  /** The new article's own id takes the handler's first clock reading. */
  function NewArticleId(clock: Clock): string
  {
    ArticleIdAt(clock, 0)
  }

  /** `demo-decl-${Date.now()}-${index}`: variant k's id is read after the
      article's and after the two readings of each earlier variant. */
  function NewDeclId(clock: Clock, k: nat): string
  {
    "demo-decl-" + NatToString(clock.now(1 + 2 * k)) + "-" + NatToString(k)
  }

  /** The article POST /articles builds: the supplied fields, fresh ids, and
      no photos. Variant k's `article_id` is a clock reading of its own, the
      one that follows its id's. */
  function NewArticle(req: CreateArticleRequest, clock: Clock): Article
  {
    var ds := req.declinaisons;
    Article(NewArticleId(clock), req.reference, req.nom, req.marque, req.collection,
            req.prix_achat, req.prix_vente, [], clock.iso,
            seq(|ds|, k requires 0 <= k < |ds| =>
              Declinaison(NewDeclId(clock, k), ArticleIdAt(clock, 2 + 2 * k), ds[k].taille, ds[k].couleur,
                          ds[k].quantite, ds[k].quantite_min, ds[k].code_barre)))
  }

  /** The new article keeps the request's fields and variants in order; a
      variant points back at the article exactly when its clock reading
      equals the article's; and the variant ids are pairwise distinct as
      long as the readings they use have the same number of digits. */
  lemma NewArticleShape(req: CreateArticleRequest, clock: Clock)
    ensures var a := NewArticle(req, clock);
      && a.reference == req.reference && a.nom == req.nom && a.marque == req.marque
      && a.collection == req.collection && a.prix_achat == req.prix_achat && a.prix_vente == req.prix_vente
      && a.photos == []
      && |a.declinaisons| == |req.declinaisons|
      && (forall k :: 0 <= k < |a.declinaisons| ==>
            && (a.declinaisons[k].article_id == a.id <==> SameReading(clock, 2 + 2 * k, 0))
            && a.declinaisons[k].taille == req.declinaisons[k].taille
            && a.declinaisons[k].couleur == req.declinaisons[k].couleur
            && a.declinaisons[k].quantite == req.declinaisons[k].quantite
            && a.declinaisons[k].quantite_min == req.declinaisons[k].quantite_min
            && a.declinaisons[k].code_barre == req.declinaisons[k].code_barre)
      && (forall j, k ::
            (0 <= j < k < |a.declinaisons| && |NatToString(clock.now(1 + 2 * j))| == |NatToString(clock.now(1 + 2 * k))|)
            ==> a.declinaisons[j].id != a.declinaisons[k].id)
  {
    var a := NewArticle(req, clock);
    forall k | 0 <= k < |a.declinaisons|
      ensures a.declinaisons[k].article_id == a.id <==> SameReading(clock, 2 + 2 * k, 0)
    {
      ArticleIdAgree(clock, 2 + 2 * k, 0);
    }
    forall j, k | 0 <= j < k < |a.declinaisons|
        && |NatToString(clock.now(1 + 2 * j))| == |NatToString(clock.now(1 + 2 * k))|
      ensures a.declinaisons[j].id != a.declinaisons[k].id
    {
      if a.declinaisons[j].id == a.declinaisons[k].id {
        NewDeclIdInjective(clock, j, k);
      }
    }
  }

  /** Two article ids agree exactly when their clock readings do. */
  lemma ArticleIdAgree(clock: Clock, j: nat, k: nat)
    ensures ArticleIdAt(clock, j) == ArticleIdAt(clock, k) <==> SameReading(clock, j, k)
  {
    if ArticleIdAt(clock, j) == ArticleIdAt(clock, k) {
      var n := |"demo-article-"|;
      assert NatToString(clock.now(j)) == ArticleIdAt(clock, j)[n..];
      assert NatToString(clock.now(k)) == ArticleIdAt(clock, k)[n..];
      NatToStringInjective(clock.now(j), clock.now(k));
    }
  }

  lemma NewDeclIdInjective(clock: Clock, j: nat, k: nat)
    requires |NatToString(clock.now(1 + 2 * j))| == |NatToString(clock.now(1 + 2 * k))|
    requires NewDeclId(clock, j) == NewDeclId(clock, k)
    ensures j == k
  {
    var x := "demo-decl-" + NatToString(clock.now(1 + 2 * j)) + "-";
    var y := "demo-decl-" + NatToString(clock.now(1 + 2 * k)) + "-";
    assert |x| == |y|;
    assert NewDeclId(clock, j) == x + NatToString(j);
    assert NewDeclId(clock, k) == y + NatToString(k);
    assert NatToString(j) == (x + NatToString(j))[|x|..];
    assert NatToString(k) == (y + NatToString(k))[|y|..];
    NatToStringInjective(j, k);
  }

  /** POST /articles: the new article is appended. */
  function CreateArticle(arts: seq<Article>, req: CreateArticleRequest, clock: Clock): seq<Article>
  {
    arts + [NewArticle(req, clock)]
  }

  /** A created article can be fetched by its id when no earlier article
      carries the same id. */
  lemma CreateThenGet(arts: seq<Article>, req: CreateArticleRequest, clock: Clock)
    requires forall i :: 0 <= i < |arts| ==> arts[i].id != NewArticleId(clock)
    ensures GetArticle(CreateArticle(arts, req, clock), NewArticleId(clock)) == Success(NewArticle(req, clock))
  {
    var r := CreateArticle(arts, req, clock);
    assert r[|arts|].id == NewArticleId(clock);
    assert FindArticle(r, NewArticleId(clock)) == Some(|arts|);
  }

  /** `{ ...article, ...updateData }`: each field the body supplies replaces
      the stored one. */
  function ApplyPatch(a: Article, p: ArticlePatch): Article
  {
    Article(
      if p.id.Some? then p.id.value else a.id,
      if p.reference.Some? then p.reference.value else a.reference,
      if p.nom.Some? then p.nom.value else a.nom,
      if p.marque.Some? then p.marque.value else a.marque,
      if p.collection.Some? then p.collection.value else a.collection,
      if p.prix_achat.Some? then p.prix_achat.value else a.prix_achat,
      if p.prix_vente.Some? then p.prix_vente.value else a.prix_vente,
      if p.photos.Some? then p.photos.value else a.photos,
      if p.created_at.Some? then p.created_at.value else a.created_at,
      if p.declinaisons.Some? then p.declinaisons.value else a.declinaisons)
  }

  const EMPTY_PATCH: ArticlePatch := ArticlePatch(None, None, None, None, None, None, None, None, None, None)

  /** An empty body leaves the article as it is. */
  lemma ApplyEmptyPatch(a: Article)
    ensures ApplyPatch(a, EMPTY_PATCH) == a
  {
  }

  /** Sending the same body twice has the effect of sending it once. */
  lemma ApplyPatchIdempotent(a: Article, p: ArticlePatch)
    ensures ApplyPatch(ApplyPatch(a, p), p) == ApplyPatch(a, p)
  {
  }

  /** A body that supplies neither `declinaisons` nor `id` leaves the
      variants and the id alone. */
  lemma ApplyPatchKeepsVariants(a: Article, p: ArticlePatch)
    requires p.declinaisons.None? && p.id.None?
    ensures ApplyPatch(a, p).declinaisons == a.declinaisons && ApplyPatch(a, p).id == a.id
  {
  }

  /** PUT /articles/:id: 404 for an unknown id; otherwise the first article
      with that id is replaced by the patched one and the others stay. */
  function UpdateArticle(arts: seq<Article>, id: string, p: ArticlePatch): (r: (Result<Article, ApiError>, seq<Article>))
    ensures r.0.Failure? <==> forall i :: 0 <= i < |arts| ==> arts[i].id != id
    ensures r.0.Failure? ==> r.0.error == ARTICLE_NOT_FOUND && r.1 == arts
    ensures r.0.Success? ==>
      var i := FindArticle(arts, id).value;
      && |r.1| == |arts|
      && r.1[i] == r.0.value == ApplyPatch(arts[i], p)
      && forall j :: 0 <= j < |arts| && j != i ==> r.1[j] == arts[j]
  {
    match FindArticle(arts, id)
    case None => (Failure(ARTICLE_NOT_FOUND), arts)
    case Some(i) =>
      var updated := ApplyPatch(arts[i], p);
      (Success(updated), arts[i := updated])
  }

  /** DELETE /articles/:id: 404 for an unknown id; otherwise the first
      article with that id is spliced out and the others keep their order. */
  function DeleteArticle(arts: seq<Article>, id: string): (r: (Result<(), ApiError>, seq<Article>))
    ensures r.0.Failure? <==> forall i :: 0 <= i < |arts| ==> arts[i].id != id
    ensures r.0.Failure? ==> r.0.error == ARTICLE_NOT_FOUND && r.1 == arts
    ensures r.0.Success? ==>
      var i := FindArticle(arts, id).value;
      && r.1 == arts[..i] + arts[i + 1..]
      && |r.1| == |arts| - 1
      && multiset(r.1) + multiset{arts[i]} == multiset(arts)
  {
    match FindArticle(arts, id)
    case None => (Failure(ARTICLE_NOT_FOUND), arts)
    case Some(i) =>
      assert arts == arts[..i] + [arts[i]] + arts[i + 1..];
      (Success(()), arts[..i] + arts[i + 1..])
  }

  /** With unique ids, the deleted article can no longer be found. */
  lemma DeleteThenGet(arts: seq<Article>, id: string)
    requires forall i, j :: 0 <= i < j < |arts| ==> arts[i].id != arts[j].id
    ensures GetArticle(DeleteArticle(arts, id).1, id).Failure?
  {
    var r := DeleteArticle(arts, id).1;
    if FindArticle(arts, id).Some? {
      var i := FindArticle(arts, id).value;
      forall j | 0 <= j < |r| ensures r[j].id != id {
        if j < i {
          assert r[j] == arts[j];
        } else {
          assert r[j] == arts[j + 1];
        }
      }
    }
  }

  // ------------------------------------------------------------- alerts

  predicate IsLow(d: Declinaison)
  {
    d.quantite <= d.quantite_min
  }

  function MakeAlert(a: Article, d: Declinaison): StockAlert
  {
    StockAlert(a.id, a.reference, a.nom, a.marque, d.id, d.taille, d.couleur,
               d.quantite, d.quantite_min, d.quantite_min - d.quantite)
  }

  /** The inner loop of the alert scan over the variants ds of article a. */
  function ArticleAlerts(a: Article, ds: seq<Declinaison>): (r: seq<StockAlert>)
    ensures |r| <= |ds|
  {
    if ds == [] then []
    else (if IsLow(ds[0]) then [MakeAlert(a, ds[0])] else []) + ArticleAlerts(a, ds[1..])
  }

  /** GET /articles/alerts/stock-bas: every alert is for a variant at or
      below its threshold, and the shortfall is the threshold minus the
      stock, never negative. */
  function Alerts(arts: seq<Article>): (r: seq<StockAlert>)
    ensures forall i :: 0 <= i < |r| ==>
      r[i].quantite <= r[i].quantite_min && r[i].quantite_manquante == r[i].quantite_min - r[i].quantite >= 0
  {
    if arts == [] then []
    else
      var here := ArticleAlerts(arts[0], arts[0].declinaisons);
      ArticleAlertsLow(arts[0], arts[0].declinaisons);
      here + Alerts(arts[1..])
  }

  lemma {:induction false} ArticleAlertsLow(a: Article, ds: seq<Declinaison>)
    ensures forall i :: 0 <= i < |ArticleAlerts(a, ds)| ==>
      var x := ArticleAlerts(a, ds)[i];
      x.quantite <= x.quantite_min && x.quantite_manquante == x.quantite_min - x.quantite
  {
    if ds != [] {
      ArticleAlertsLow(a, ds[1..]);
    }
  }

  /** The scan goes article by article: the alerts of two catalogues joined
      are the alerts of the first followed by those of the second. */
  lemma {:induction false} AlertsAppend(x: seq<Article>, y: seq<Article>)
    ensures Alerts(x + y) == Alerts(x) + Alerts(y)
  {
    if x == [] {
      assert x + y == y;
    } else {
      assert (x + y)[1..] == x[1..] + y;
      AlertsAppend(x[1..], y);
    }
  }

  /** Every variant at or below its threshold gets an alert. */
  lemma {:induction false} AlertsComplete(arts: seq<Article>, a: nat, d: nat)
    requires ValidPos(arts, a, d) && IsLow(arts[a].declinaisons[d])
    ensures MakeAlert(arts[a], arts[a].declinaisons[d]) in Alerts(arts)
  {
    if a == 0 {
      ArticleAlertsComplete(arts[0], arts[0].declinaisons, d);
    } else {
      AlertsComplete(arts[1..], a - 1, d);
    }
  }

  lemma {:induction false} ArticleAlertsComplete(x: Article, ds: seq<Declinaison>, d: nat)
    requires d < |ds| && IsLow(ds[d])
    ensures MakeAlert(x, ds[d]) in ArticleAlerts(x, ds)
  {
    if d > 0 {
      ArticleAlertsComplete(x, ds[1..], d - 1);
    }
  }

  /** Every alert comes from a variant of the catalogue that is at or below
      its threshold. */
  lemma {:induction false} AlertsSound(arts: seq<Article>, k: nat) returns (a: nat, d: nat)
    requires k < |Alerts(arts)|
    ensures ValidPos(arts, a, d) && IsLow(arts[a].declinaisons[d])
    ensures Alerts(arts)[k] == MakeAlert(arts[a], arts[a].declinaisons[d])
  {
    var here := ArticleAlerts(arts[0], arts[0].declinaisons);
    if k < |here| {
      a := 0;
      d := ArticleAlertsSound(arts[0], arts[0].declinaisons, k);
    } else {
      a, d := AlertsSound(arts[1..], k - |here|);
      a := a + 1;
    }
  }

  lemma {:induction false} ArticleAlertsSound(x: Article, ds: seq<Declinaison>, k: nat) returns (d: nat)
    requires k < |ArticleAlerts(x, ds)|
    ensures d < |ds| && IsLow(ds[d]) && ArticleAlerts(x, ds)[k] == MakeAlert(x, ds[d])
  {
    if IsLow(ds[0]) && k == 0 {
      d := 0;
    } else {
      var k' := if IsLow(ds[0]) then k - 1 else k;
      d := ArticleAlertsSound(x, ds[1..], k');
      d := d + 1;
    }
  }

  // -------------------------------------------------------------- stats

  datatype CollectionCounts = CollectionCounts(ete_2024: nat, hiver_2024: nat, automne_2024: nat, printemps_2025: nat)

  /** GET /stats/overview, with `valeurStock` in cents times units. */
  datatype Stats = Stats(
    totalArticles: nat,
    totalDeclinaisons: int,
    totalStock: int,
    stockBas: int,
    valeurStock: int,
    articlesParCollection: CollectionCounts)

  function DeclQuantity(d: Declinaison): int
  {
    d.quantite
  }

  function DeclCount(a: Article): int
  {
    |a.declinaisons|
  }

  function ArticleStock(a: Article): int
  {
    SumOf(a.declinaisons, DeclQuantity)
  }

  function LowCount(a: Article): int
  {
    |Filter(a.declinaisons, IsLow)|
  }

  function ArticleValue(a: Article): int
  {
    SumOf(a.declinaisons, (d: Declinaison) => d.quantite * a.prix_achat)
  }

  function TotalStock(arts: seq<Article>): int
  {
    SumOf(arts, ArticleStock)
  }

  function InCollection(code: string): Article -> bool
  {
    (a: Article) => a.collection == code
  }

  function ComputeStats(arts: seq<Article>): Stats
  {
    Stats(|arts|, SumOf(arts, DeclCount), TotalStock(arts), SumOf(arts, LowCount), SumOf(arts, ArticleValue),
          CollectionCounts(Count(arts, InCollection(ETE_2024)), Count(arts, InCollection(HIVER_2024)),
                           Count(arts, InCollection(AUTOMNE_2024)), Count(arts, InCollection(PRINTEMPS_2025))))
  }

  /** `stockBas` is the length of the alert list. */
  lemma {:induction false} StockBasIsAlertCount(arts: seq<Article>)
    ensures ComputeStats(arts).stockBas == |Alerts(arts)|
  {
    if arts != [] {
      StockBasIsAlertCount(arts[1..]);
      ArticleAlertsCount(arts[0], arts[0].declinaisons);
    }
  }

  lemma {:induction false} ArticleAlertsCount(a: Article, ds: seq<Declinaison>)
    ensures |ArticleAlerts(a, ds)| == |Filter(ds, IsLow)|
  {
    if ds != [] {
      ArticleAlertsCount(a, ds[1..]);
    }
  }

  /** Changing one variant's stock by delta changes `totalStock` by delta. */
  lemma TotalStockAdjust(arts: seq<Article>, a: nat, d: nat, delta: int)
    requires ValidPos(arts, a, d)
    ensures TotalStock(AdjustStock(arts, a, d, delta)) == TotalStock(arts) + delta
  {
    var ds := arts[a].declinaisons;
    var decl := ds[d];
    var ds' := ds[d := decl.(quantite := decl.quantite + delta)];
    SumOfUpdate(ds, d, decl.(quantite := decl.quantite + delta), DeclQuantity);
    SumOfUpdate(arts, a, arts[a].(declinaisons := ds'), ArticleStock);
  }

  function LineQuantity(l: SaleLine): int
  {
    l.quantite
  }

  /** A run of the sale loop that goes through lowers `totalStock` by the
      number of units its lines sell. */
  lemma {:induction false} SaleLowersTotalStock(arts0: seq<Article>, lines: seq<SaleLine>, clock: Clock, rand: nat -> string)
    requires ProcessLines(arts0, lines, clock, rand).Done?
    ensures TotalStock(ProcessLines(arts0, lines, clock, rand).arts) == TotalStock(arts0) - SumOf(lines, LineQuantity)
  {
    if lines != [] {
      var n := |lines| - 1;
      var prev := ProcessLines(arts0, lines[..n], clock, rand);
      SaleLowersTotalStock(arts0, lines[..n], clock, rand);
      var p := StepPosition(arts0, lines, clock, rand);
      TotalStockAdjust(prev.arts, p.0, p.1, -lines[n].quantite);
      SumOfSnoc(lines, n, LineQuantity);
      assert lines[..n + 1] == lines;
    }
  }

  /** The four collection counts add up to at most the number of articles,
      and to exactly that number when every article is in one of the four
      collections. */
  lemma {:induction false} CollectionCountsBound(arts: seq<Article>)
    ensures var c := ComputeStats(arts).articlesParCollection;
      && c.ete_2024 + c.hiver_2024 + c.automne_2024 + c.printemps_2025 <= |arts|
      && ((forall i :: 0 <= i < |arts| ==> arts[i].collection in {ETE_2024, HIVER_2024, AUTOMNE_2024, PRINTEMPS_2025})
          ==> c.ete_2024 + c.hiver_2024 + c.automne_2024 + c.printemps_2025 == |arts|)
  {
    if arts != [] {
      CollectionCountsBound(arts[1..]);
      CountCons(arts, InCollection(ETE_2024));
      CountCons(arts, InCollection(HIVER_2024));
      CountCons(arts, InCollection(AUTOMNE_2024));
      CountCons(arts, InCollection(PRINTEMPS_2025));
    }
  }
}
