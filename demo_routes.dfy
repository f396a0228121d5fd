/** The in-memory store of backend/src/routes/demo.routes.ts as an object: the
    module-level `demoArticles`, `demoVentes` and `venteCounter` become the
    fields of `Store`, and each route handler that touches them becomes a
    method. The handlers that change state run their loops in place and are
    proved to compute the specification functions of DemoSales and
    DemoCatalog, where the properties of those operations are proved. */
module DemoRoutes {
  import opened Common
  import opened StockTypes
  import opened DemoSales
  import opened DemoCatalog

  class Store {
    var articles: seq<Article>
    var ventes: seq<Vente>
    var counter: nat
    /** The year and the counter value each sale was numbered with. */
    ghost var years: seq<nat>
    ghost var numbers: seq<nat>

    ghost function State(): StoreState
      reads this
    {
      StoreState(articles, ventes, counter)
    }

    /** Every sale carries the number built from its year and counter; the
        counters decrease from the newest sale (first) to the oldest, and
        all are below the next one to be used. */
    ghost predicate Valid()
      reads this`ventes, this`counter, this`years, this`numbers
    {
      counter >= 1 && Numbered(ventes, years, numbers, counter)
    }

    /** The module's initial state: the seed catalogue, no sales, the
        counter at 1. */
    constructor(initial: seq<Article>)
      ensures Valid()
      ensures articles == initial && ventes == [] && counter == 1
    {
      articles := initial;
      ventes := [];
      counter := 1;
      years := [];
      numbers := [];
    }

    /** Two sales of the same year never share a number. */
    lemma SaleNumbersDistinct(i: nat, j: nat)
      requires Valid()
      requires i < j < |ventes| && years[i] == years[j]
      ensures ventes[i].numero_vente != ventes[j].numero_vente
    {
      if ventes[i].numero_vente == ventes[j].numero_vente {
        NumeroVenteInjective(years[i], numbers[i], numbers[j]);
      }
    }

    /** POST /ventes */
    method CreateVente(req: CreateVenteRequest, clock: Clock, rand: nat -> string) returns (r: Result<Vente, ApiError>)
      requires Valid()
      modifies this
      ensures Valid()
      ensures (r, State()) == DemoSales.CreateVente(old(State()), req, clock, rand)
    {
      ghost var st0 := State();
      if req.items.None? || |req.items.value| == 0 {
        CreateVenteRejectsEmpty(st0, req, clock, rand);
        return Failure(ApiError(400, EMPTY_SALE_MESSAGE));
      }
      var outcome := RunLines(articles, req.items.value, clock, rand);
      if outcome.Stopped? {
        CreateVenteStopped(st0, req, clock, rand, outcome.arts, outcome.error);
        articles := outcome.arts;
        return Failure(outcome.error);
      }
      CreateVenteDone(st0, req, clock, rand, outcome.arts, outcome.items, outcome.total);
      articles := outcome.arts;
      var v := BuildVente(req, outcome.items, outcome.total, counter, clock);
      RecordSale(v, clock.year);
      r := Success(v);
    }

    /** `demoVentes.unshift(vente)` and `venteCounter++`: the sale, numbered
        with the current counter, goes first. */
    method RecordSale(v: Vente, year: nat)
      requires Valid() && v.numero_vente == NumeroVente(year, counter)
      modifies this`ventes, this`counter, this`years, this`numbers
      ensures Valid()
      ensures ventes == [v] + old(ventes) && counter == old(counter) + 1
    {
      NumberedPrepend(v, ventes, years, numbers, counter, year);
      years := [year] + years;
      numbers := [counter] + numbers;
      counter := counter + 1;
      ventes := [v] + ventes;
    }

    /** GET /ventes: the stored list, newest first because `RecordSale`
        puts each new sale at the front. */
    method ListVentes() returns (r: seq<Vente>)
      ensures r == ventes
    {
      r := ventes;
    }

    /** GET /ventes/:id */
    method GetVente(id: string) returns (r: Result<Vente, ApiError>)
      ensures r == DemoSales.GetVente(ventes, id)
    {
      var found := FindVente(ventes, id);
      if found.None? {
        return Failure(SALE_NOT_FOUND);
      }
      r := Success(ventes[found.value]);
    }

    /** DELETE /ventes/:id */
    method CancelVente(id: string) returns (r: Result<(), ApiError>)
      requires Valid()
      modifies this
      ensures Valid()
      ensures (r, State()) == DemoSales.CancelVente(old(State()), id)
    {
      var found := FindVente(ventes, id);
      if found.None? {
        return Failure(SALE_NOT_FOUND);
      }
      var venteIndex := found.value;
      var vente := ventes[venteIndex];
      articles := RestoreItems(articles, vente.items);
      NumberedUpdate(ventes, years, numbers, counter, venteIndex, vente.(statut := Annulee));
      ventes := ventes[venteIndex := vente.(statut := Annulee)];
      r := Success(());
    }

    /** GET /articles */
    method ListArticles(q: ListQuery) returns (r: ArticlePage)
      requires q.limit >= 1
      ensures r == DemoCatalog.ListArticles(articles, q)
    {
      r := DemoCatalog.ListArticles(articles, q);
    }

    /** GET /articles/:id */
    method GetArticle(id: string) returns (r: Result<Article, ApiError>)
      ensures r == DemoCatalog.GetArticle(articles, id)
    {
      var found := FindArticle(articles, id);
      if found.None? {
        return Failure(ARTICLE_NOT_FOUND);
      }
      r := Success(articles[found.value]);
    }

    /** POST /articles */
    method CreateArticle(req: CreateArticleRequest, clock: Clock) returns (r: Article)
      requires Valid()
      modifies this
      ensures Valid()
      ensures r == NewArticle(req, clock)
      ensures articles == DemoCatalog.CreateArticle(old(articles), req, clock)
      ensures ventes == old(ventes) && counter == old(counter)
    {
      r := NewArticle(req, clock);
      articles := articles + [r];
    }

    /** PUT /articles/:id */
    method UpdateArticle(id: string, patch: ArticlePatch) returns (r: Result<Article, ApiError>)
      requires Valid()
      modifies this
      ensures Valid()
      ensures (r, articles) == DemoCatalog.UpdateArticle(old(articles), id, patch)
      ensures ventes == old(ventes) && counter == old(counter)
    {
      var found := FindArticle(articles, id);
      if found.None? {
        return Failure(ARTICLE_NOT_FOUND);
      }
      var articleIndex := found.value;
      articles := articles[articleIndex := ApplyPatch(articles[articleIndex], patch)];
      r := Success(articles[articleIndex]);
    }

    /** DELETE /articles/:id */
    method DeleteArticle(id: string) returns (r: Result<(), ApiError>)
      requires Valid()
      modifies this
      ensures Valid()
      ensures (r, articles) == DemoCatalog.DeleteArticle(old(articles), id)
      ensures ventes == old(ventes) && counter == old(counter)
    {
      var found := FindArticle(articles, id);
      if found.None? {
        return Failure(ARTICLE_NOT_FOUND);
      }
      var articleIndex := found.value;
      articles := articles[..articleIndex] + articles[articleIndex + 1..];
      r := Success(());
    }

    /** GET /articles/alerts/stock-bas: the alert list, which
        `DemoCatalog.AlertsSound` and `DemoCatalog.AlertsComplete` prove
        sound and complete. */
    method StockAlerts() returns (r: seq<StockAlert>)
      ensures r == Alerts(articles)
    {
      r := Alerts(articles);
    }

    /** GET /stats/overview: the statistics, whose `stockBas` is the alert
        count (`DemoCatalog.StockBasIsAlertCount`). */
    method Overview() returns (r: Stats)
      ensures r == ComputeStats(articles)
    {
      r := ComputeStats(articles);
    }
  }

  /** Sale i carries the number built from years[i] and numbers[i]; the
      numbers decrease along the list and stay below the counter. */
  ghost predicate Numbered(ventes: seq<Vente>, years: seq<nat>, numbers: seq<nat>, counter: nat)
  {
    && |years| == |ventes| && |numbers| == |ventes|
    && (forall i :: 0 <= i < |ventes| ==> ventes[i].numero_vente == NumeroVente(years[i], numbers[i]))
    && (forall i :: 0 <= i < |numbers| ==> numbers[i] < counter)
    && Decreasing(numbers)
  }

  ghost predicate Decreasing(ns: seq<nat>)
  {
    forall i, j :: 0 <= i < j < |ns| ==> ns[i] > ns[j]
  }

  /** Putting a sale numbered with the current counter first, and advancing
      the counter, keeps the numbering. */
  lemma NumberedPrepend(v: Vente, ventes: seq<Vente>, years: seq<nat>, numbers: seq<nat>, counter: nat, year: nat)
    requires Numbered(ventes, years, numbers, counter)
    requires v.numero_vente == NumeroVente(year, counter)
    ensures Numbered([v] + ventes, [year] + years, [counter] + numbers, counter + 1)
  {
    var vs, ys, ns := [v] + ventes, [year] + years, [counter] + numbers;
    forall i | 0 <= i < |vs| ensures vs[i].numero_vente == NumeroVente(ys[i], ns[i]) {
      if i > 0 {
        assert vs[i] == ventes[i - 1] && ys[i] == years[i - 1] && ns[i] == numbers[i - 1];
      }
    }
    DecreasingPrepend(counter, numbers);
  }

  lemma DecreasingPrepend(c: nat, ns: seq<nat>)
    requires Decreasing(ns)
    requires forall k :: 0 <= k < |ns| ==> ns[k] < c
    ensures Decreasing([c] + ns)
    ensures forall k :: 0 <= k < |ns| + 1 ==> ([c] + ns)[k] < c + 1
  {
    var s := [c] + ns;
    forall i, j | 0 <= i < j < |s| ensures s[i] > s[j] {
      assert s[j] == ns[j - 1];
      if i > 0 {
        assert s[i] == ns[i - 1];
      }
    }
  }

  /** Replacing a sale by one with the same number keeps the numbering. */
  lemma NumberedUpdate(ventes: seq<Vente>, years: seq<nat>, numbers: seq<nat>, counter: nat, k: nat, v: Vente)
    requires Numbered(ventes, years, numbers, counter)
    requires k < |ventes| && v.numero_vente == ventes[k].numero_vente
    ensures Numbered(ventes[k := v], years, numbers, counter)
  {
  }

  /** The validation loop of POST /ventes: each line is checked against the
      stock the lines before it left, recorded, priced and taken off the
      stock; the first line that fails ends the loop with the stock as it
      then stands. */
  method RunLines(arts0: seq<Article>, lines: seq<SaleLine>, clock: Clock, rand: nat -> string) returns (r: LinesOutcome)
    ensures r == ProcessLines(arts0, lines, clock, rand)
  {
    var stock := arts0;
    var montantTotal := 0;
    var venteItems: seq<VenteItem> := [];
    var i := 0;
    while i < |lines|
      invariant 0 <= i <= |lines|
      invariant ProcessLines(arts0, lines[..i], clock, rand) == Done(stock, venteItems, montantTotal)
    {
      var outcome := TakeLine(stock, venteItems, montantTotal, lines[i], ItemId(clock, rand, i));
      ProcessLinesSnoc(arts0, lines, i, clock, rand);
      if outcome.Stopped? {
        StoppedPersists(arts0, lines, i + 1, clock, rand);
        return outcome;
      }
      stock, venteItems, montantTotal := outcome.arts, outcome.items, outcome.total;
      i := i + 1;
    }
    assert lines[..|lines|] == lines;
    r := Done(stock, venteItems, montantTotal);
  }

  /** One turn of the loop of POST /ventes: the line is checked; if it
      passes it is recorded with the article's and variant's display fields,
      its amount is added to the total and its quantity is taken off the
      variant's stock. */
  method TakeLine(stock: seq<Article>, venteItems: seq<VenteItem>, montantTotal: int, item: SaleLine, itemId: string)
    returns (r: LinesOutcome)
    ensures r == Step(Done(stock, venteItems, montantTotal), item, itemId)
  {
    var check := CheckItem(stock, item);
    if check.Failure? {
      return Stopped(stock, check.error);
    }
    var a, d := check.value.0, check.value.1;
    var article := stock[a];
    var declinaison := article.declinaisons[d];
    var prixTotal := item.prix_unitaire * item.quantite;
    var recorded := VenteItem(itemId, "", item.article_id, item.declinaison_id,
                              article.nom, article.reference, declinaison.taille, declinaison.couleur,
                              item.quantite, item.prix_unitaire, prixTotal);
    var updated := declinaison.(quantite := declinaison.quantite - item.quantite);
    r := Done(stock[a := article.(declinaisons := article.declinaisons[d := updated])],
              venteItems + [recorded], montantTotal + prixTotal);
  }

  /** The three checks POST /ventes makes on one line, in order: the
      article, then the variant under it, then the stock. */
  method CheckItem(stock: seq<Article>, item: SaleLine) returns (r: Result<(nat, nat), ApiError>)
    ensures r == CheckLine(stock, item)
  {
    var foundArticle := FindArticle(stock, item.article_id);
    if foundArticle.None? {
      return Failure(ApiError(404, "Article " + item.article_id + " introuvable"));
    }
    var a := foundArticle.value;
    var article := stock[a];
    var foundDecl := FindDecl(article.declinaisons, item.declinaison_id);
    if foundDecl.None? {
      return Failure(ApiError(404, "Déclinaison " + item.declinaison_id + " introuvable"));
    }
    var d := foundDecl.value;
    var declinaison := article.declinaisons[d];
    if declinaison.quantite < item.quantite {
      return Failure(ApiError(400, "Stock insuffisant pour " + article.nom + " (" + declinaison.taille + " - "
                                   + declinaison.couleur + "). Disponible: " + IntToString(declinaison.quantite)));
    }
    r := Success((a, d));
  }

  /** The restocking loop of DELETE /ventes/:id: each recorded line whose
      article and variant are still in the catalogue has its quantity put
      back; the others are skipped. */
  method RestoreItems(arts0: seq<Article>, items: seq<VenteItem>) returns (arts: seq<Article>)
    ensures arts == RestoreLines(arts0, items)
  {
    arts := arts0;
    var i := 0;
    while i < |items|
      invariant 0 <= i <= |items|
      invariant arts == RestoreLines(arts0, items[..i])
    {
      var item := items[i];
      assert items[..i + 1][..i] == items[..i];
      var foundArticle := FindArticle(arts, item.article_id);
      if foundArticle.Some? {
        var article := arts[foundArticle.value];
        var foundDecl := FindDecl(article.declinaisons, item.declinaison_id);
        if foundDecl.Some? {
          var declinaison := article.declinaisons[foundDecl.value];
          var updated := declinaison.(quantite := declinaison.quantite + item.quantite);
          arts := arts[foundArticle.value := article.(declinaisons := article.declinaisons[foundDecl.value := updated])];
        }
      }
      i := i + 1;
    }
    assert items[..|items|] == items;
  }
}
