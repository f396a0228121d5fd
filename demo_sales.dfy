/** The sale engine of the in-memory backend (backend/src/routes/demo.routes.ts,
    POST, GET and DELETE on `/ventes`), stated on values.

    `ProcessLines` is the validation loop of sale creation written as a left
    fold over the request's lines: each line is looked up and checked against
    the catalogue as the earlier lines have left it, and its stock is taken
    off before the next line is looked at. `RestoreLines` is the loop of
    cancellation. The class in module DemoRoutes runs these loops and is
    proved to compute exactly these functions. */
module DemoSales {
  import opened Common
  import opened StockTypes

  // ------------------------------------------------------------ the store

  /** The three pieces of module-level state: `demoArticles`, `demoVentes`
      and `venteCounter`. */
  datatype StoreState = StoreState(articles: seq<Article>, ventes: seq<Vente>, counter: nat)

  // --------------------------------------------------------------- lookups

  /** `arts.find(a => a.id === id)`, as the index of the first match. */
  function FindArticle(arts: seq<Article>, id: string): (r: Option<nat>)
    ensures r.Some? ==> r.value < |arts| && arts[r.value].id == id
    ensures r.Some? ==> forall j :: 0 <= j < r.value ==> arts[j].id != id
    ensures r.None? ==> forall j :: 0 <= j < |arts| ==> arts[j].id != id
  {
    if arts == [] then None
    else if arts[0].id == id then Some(0)
    else match FindArticle(arts[1..], id)
      case None => None
      case Some(k) => Some(k + 1)
  }

  /** `article.declinaisons.find(d => d.id === id)`, as an index. */
  function FindDecl(ds: seq<Declinaison>, id: string): (r: Option<nat>)
    ensures r.Some? ==> r.value < |ds| && ds[r.value].id == id
    ensures r.Some? ==> forall j :: 0 <= j < r.value ==> ds[j].id != id
    ensures r.None? ==> forall j :: 0 <= j < |ds| ==> ds[j].id != id
  {
    if ds == [] then None
    else if ds[0].id == id then Some(0)
    else match FindDecl(ds[1..], id)
      case None => None
      case Some(k) => Some(k + 1)
  }

  /** The (article, variant) position that a pair of ids designates. */
  function Resolve(arts: seq<Article>, aid: string, did: string): (r: Option<(nat, nat)>)
    ensures r.Some? ==> r.value.0 < |arts| && r.value.1 < |arts[r.value.0].declinaisons|
  {
    match FindArticle(arts, aid)
    case None => None
    case Some(a) =>
      match FindDecl(arts[a].declinaisons, did)
      case None => None
      case Some(d) => Some((a, d))
  }

  predicate ValidPos(arts: seq<Article>, a: int, d: int)
  {
    0 <= a < |arts| && 0 <= d < |arts[a].declinaisons|
  }

  /** The stock of the variant at (a, d), zero off the catalogue. */
  function StockAt(arts: seq<Article>, a: int, d: int): int
  {
    if ValidPos(arts, a, d) then arts[a].declinaisons[d].quantite else 0
  }

  /** Every variant's stock is at least zero. */
  ghost predicate NonNegativeStock(arts: seq<Article>)
  {
    forall a, d :: ValidPos(arts, a, d) ==> StockAt(arts, a, d) >= 0
  }

  // ----------------------------------------------------- catalogue shape

  /** Two catalogues that differ at most in their stock quantities. */
  ghost predicate SameShape(x: seq<Article>, y: seq<Article>)
  {
    && |x| == |y|
    && (forall a :: 0 <= a < |x| ==>
          && x[a].(declinaisons := []) == y[a].(declinaisons := [])
          && |x[a].declinaisons| == |y[a].declinaisons|)
    && (forall a, d :: ValidPos(x, a, d) ==>
          x[a].declinaisons[d].(quantite := 0) == y[a].declinaisons[d].(quantite := 0))
  }

  lemma SameShapeRefl(x: seq<Article>)
    ensures SameShape(x, x)
  {
  }

  lemma SameShapeTrans(x: seq<Article>, y: seq<Article>, z: seq<Article>)
    requires SameShape(x, y) && SameShape(y, z)
    ensures SameShape(x, z)
  {
    forall a, d | ValidPos(x, a, d)
      ensures x[a].declinaisons[d].(quantite := 0) == z[a].declinaisons[d].(quantite := 0)
    {
      assert ValidPos(y, a, d);
    }
  }

  /** Ids are part of the shape, so lookups give the same positions in two
      catalogues of the same shape. */
  lemma ResolveStable(x: seq<Article>, y: seq<Article>, aid: string, did: string)
    requires SameShape(x, y)
    ensures Resolve(x, aid, did) == Resolve(y, aid, did)
  {
    assert forall a :: 0 <= a < |x| ==> x[a].id == y[a].id by {
      forall a | 0 <= a < |x| ensures x[a].id == y[a].id {
        assert x[a].(declinaisons := []).id == y[a].(declinaisons := []).id;
      }
    }
    FindArticleStable(x, y, aid);
    match FindArticle(x, aid)
    case None =>
    case Some(a) =>
      forall d | 0 <= d < |x[a].declinaisons|
        ensures x[a].declinaisons[d].id == y[a].declinaisons[d].id
      {
        assert ValidPos(x, a, d);
        assert x[a].declinaisons[d].(quantite := 0).id == y[a].declinaisons[d].(quantite := 0).id;
      }
      FindDeclStable(x[a].declinaisons, y[a].declinaisons, did);
  }

  lemma {:induction false} FindArticleStable(x: seq<Article>, y: seq<Article>, id: string)
    requires |x| == |y|
    requires forall a :: 0 <= a < |x| ==> x[a].id == y[a].id
    ensures FindArticle(x, id) == FindArticle(y, id)
  {
    if x != [] && x[0].id != id {
      FindArticleStable(x[1..], y[1..], id);
    }
  }

  lemma {:induction false} FindDeclStable(x: seq<Declinaison>, y: seq<Declinaison>, id: string)
    requires |x| == |y|
    requires forall d :: 0 <= d < |x| ==> x[d].id == y[d].id
    ensures FindDecl(x, id) == FindDecl(y, id)
  {
    if x != [] && x[0].id != id {
      FindDeclStable(x[1..], y[1..], id);
    }
  }

  /** Two catalogues of the same shape and the same quantities are equal. */
  lemma ShapeAndStockDetermine(x: seq<Article>, y: seq<Article>)
    requires SameShape(x, y)
    requires forall a, d :: ValidPos(x, a, d) ==> StockAt(x, a, d) == StockAt(y, a, d)
    ensures x == y
  {
    forall a | 0 <= a < |x| ensures x[a] == y[a] {
      var dx, dy := x[a].declinaisons, y[a].declinaisons;
      forall d | 0 <= d < |dx| ensures dx[d] == dy[d] {
        assert ValidPos(x, a, d);
        assert dx[d].(quantite := 0) == dy[d].(quantite := 0);
        assert StockAt(x, a, d) == StockAt(y, a, d);
      }
      assert dx == dy;
      assert x[a].(declinaisons := []) == y[a].(declinaisons := []);
    }
  }

  // --------------------------------------------------------- stock changes

  /** `declinaison.quantite += delta` on the variant at (a, d). */
  function AdjustStock(arts: seq<Article>, a: nat, d: nat, delta: int): seq<Article>
    requires ValidPos(arts, a, d)
  {
    var decl := arts[a].declinaisons[d];
    var ds := arts[a].declinaisons[d := decl.(quantite := decl.quantite + delta)];
    arts[a := arts[a].(declinaisons := ds)]
  }

  /** An adjustment changes the stock of that one variant by delta and
      nothing else. */
  lemma AdjustStockEffect(arts: seq<Article>, a: nat, d: nat, delta: int)
    requires ValidPos(arts, a, d)
    ensures SameShape(arts, AdjustStock(arts, a, d, delta))
    ensures forall a', d' :: StockAt(AdjustStock(arts, a, d, delta), a', d')
                          == StockAt(arts, a', d') + (if a' == a && d' == d then delta else 0)
  {
  }

  // ------------------------------------------------------- sale creation

  const EMPTY_SALE_MESSAGE: string := "La vente doit contenir au moins un article"

  /** The three checks one line goes through, in order; on success, the
      position of the variant it designates. */
  function CheckLine(arts: seq<Article>, line: SaleLine): (r: Result<(nat, nat), ApiError>)
    ensures r.Success? ==> ValidPos(arts, r.value.0, r.value.1)
  {
    match FindArticle(arts, line.article_id)
    case None => Failure(ApiError(404, "Article " + line.article_id + " introuvable"))
    case Some(a) =>
      match FindDecl(arts[a].declinaisons, line.declinaison_id)
      case None => Failure(ApiError(404, "Déclinaison " + line.declinaison_id + " introuvable"))
      case Some(d) =>
        var article := arts[a];
        var decl := article.declinaisons[d];
        if decl.quantite < line.quantite then
          Failure(ApiError(400, "Stock insuffisant pour " + article.nom + " (" + decl.taille + " - "
                                + decl.couleur + "). Disponible: " + IntToString(decl.quantite)))
        else Success((a, d))
  }

  /** The checks come in a fixed order and the first that fails decides:
      an unknown article, then a variant unknown under that article (both
      404), then a stock below the requested quantity (400). A line that
      passes all three yields the position its ids designate. */
  lemma CheckLineOrder(arts: seq<Article>, line: SaleLine)
    ensures var r := CheckLine(arts, line);
      && (FindArticle(arts, line.article_id).None? ==>
            r == Failure(ApiError(404, "Article " + line.article_id + " introuvable")))
      && (FindArticle(arts, line.article_id).Some? && Resolve(arts, line.article_id, line.declinaison_id).None? ==>
            r == Failure(ApiError(404, "Déclinaison " + line.declinaison_id + " introuvable")))
      && match Resolve(arts, line.article_id, line.declinaison_id)
         case None => r.Failure? && r.error.status == 404
         case Some(p) =>
           var article := arts[p.0];
           var decl := article.declinaisons[p.1];
           if decl.quantite < line.quantite
           then r == Failure(ApiError(400, "Stock insuffisant pour " + article.nom + " (" + decl.taille + " - "
                                           + decl.couleur + "). Disponible: " + IntToString(decl.quantite)))
           else r == Success(p)
  {
  }

  /** `item.prix_unitaire * item.quantite` */
  function LineAmount(line: SaleLine): int
  {
    line.prix_unitaire * line.quantite
  }

  /** `item-${Date.now()}-${Math.random()}` for line k: the loop's k-th
      clock reading, the random part supplied per line. */
  function ItemId(clock: Clock, rand: nat -> string, k: nat): string
  {
    "item-" + NatToString(clock.now(k)) + "-" + rand(k)
  }

  /** The recorded line: the request's quantity and price, and the article's
      name and reference and the variant's size and colour at this moment. */
  function Snapshot(arts: seq<Article>, a: nat, d: nat, line: SaleLine, id: string): VenteItem
    requires ValidPos(arts, a, d)
  {
    var article := arts[a];
    var decl := article.declinaisons[d];
    VenteItem(id, "", line.article_id, line.declinaison_id, article.nom, article.reference,
              decl.taille, decl.couleur, line.quantite, line.prix_unitaire, LineAmount(line))
  }

  datatype LinesOutcome =
    | Done(arts: seq<Article>, items: seq<VenteItem>, total: int)
    | Stopped(arts: seq<Article>, error: ApiError)

  /** The validation loop of sale creation over `lines`, from the catalogue
      `arts0`: the catalogue as the loop leaves it, and either the recorded
      lines with the running total, or the first error. */
  function ProcessLines(arts0: seq<Article>, lines: seq<SaleLine>, clock: Clock, rand: nat -> string): (r: LinesOutcome)
    ensures r.Done? ==> |r.items| == |lines|
  {
    if lines == [] then Done(arts0, [], 0)
    else
      var n := |lines| - 1;
      Step(ProcessLines(arts0, lines[..n], clock, rand), lines[n], ItemId(clock, rand, n))
  }

  /** One turn of the loop: check the line against the current catalogue,
      record it, add its amount and take its quantity off. */
  function Step(prev: LinesOutcome, line: SaleLine, id: string): (r: LinesOutcome)
    ensures r.Done? ==> prev.Done? && |r.items| == |prev.items| + 1
  {
    match prev
    case Stopped(cur, e) => Stopped(cur, e)
    case Done(cur, items, total) =>
      match CheckLine(cur, line)
      case Failure(e) => Stopped(cur, e)
      case Success(p) =>
        Done(AdjustStock(cur, p.0, p.1, -line.quantite), items + [Snapshot(cur, p.0, p.1, line, id)], total + LineAmount(line))
  }

  /** The loop over one more line is one more step. */
  lemma ProcessLinesSnoc(arts0: seq<Article>, lines: seq<SaleLine>, i: nat, clock: Clock, rand: nat -> string)
    requires i < |lines|
    ensures ProcessLines(arts0, lines[..i + 1], clock, rand)
         == Step(ProcessLines(arts0, lines[..i], clock, rand), lines[i], ItemId(clock, rand, i))
  {
    assert lines[..i + 1][..i] == lines[..i];
  }

  /** A stopped loop stays stopped. */
  lemma StepKeepsStopped(prev: LinesOutcome, line: SaleLine, id: string)
    requires prev.Stopped?
    ensures Step(prev, line, id) == prev
  {
  }

  /** One step changes stock quantities only. */
  lemma StepShape(prev: LinesOutcome, line: SaleLine, id: string)
    ensures SameShape(prev.arts, Step(prev, line, id).arts)
  {
    var r := Step(prev, line, id);
    if r.Done? {
      var p := CheckLine(prev.arts, line).value;
      AdjustStockEffect(prev.arts, p.0, p.1, -line.quantite);
    } else {
      SameShapeRefl(prev.arts);
    }
  }

  /** Once the loop has stopped, the remaining lines are never looked at. */
  lemma {:induction false} StoppedPersists(arts0: seq<Article>, lines: seq<SaleLine>, k: nat, clock: Clock, rand: nat -> string)
    requires k <= |lines|
    requires ProcessLines(arts0, lines[..k], clock, rand).Stopped?
    ensures ProcessLines(arts0, lines, clock, rand) == ProcessLines(arts0, lines[..k], clock, rand)
    decreases |lines| - k
  {
    if k < |lines| {
      ProcessLinesSnoc(arts0, lines, k, clock, rand);
      StepKeepsStopped(ProcessLines(arts0, lines[..k], clock, rand), lines[k], ItemId(clock, rand, k));
      StoppedPersists(arts0, lines, k + 1, clock, rand);
    } else {
      assert lines[..k] == lines;
    }
  }

  /** The loop changes stock quantities and nothing else in the catalogue. */
  lemma {:induction false} ProcessLinesShape(arts0: seq<Article>, lines: seq<SaleLine>, clock: Clock, rand: nat -> string)
    ensures SameShape(arts0, ProcessLines(arts0, lines, clock, rand).arts)
  {
    if lines == [] {
      SameShapeRefl(arts0);
    } else {
      var n := |lines| - 1;
      var prev := ProcessLines(arts0, lines[..n], clock, rand);
      ProcessLinesShape(arts0, lines[..n], clock, rand);
      StepShape(prev, lines[n], ItemId(clock, rand, n));
      SameShapeTrans(arts0, prev.arts, ProcessLines(arts0, lines, clock, rand).arts);
    }
  }

  /** The quantity that `lines` ask of the variant at (a, d) of `arts`. */
  function Requested(arts: seq<Article>, lines: seq<SaleLine>, a: nat, d: nat): int
  {
    if lines == [] then 0
    else
      var line := lines[|lines| - 1];
      Requested(arts, lines[..|lines| - 1], a, d)
        + (if Resolve(arts, line.article_id, line.declinaison_id) == Some((a, d)) then line.quantite else 0)
  }

  /** One of `lines` designates the variant at (a, d). */
  ghost predicate Touches(arts: seq<Article>, lines: seq<SaleLine>, a: nat, d: nat)
  {
    exists k :: 0 <= k < |lines| && Resolve(arts, lines[k].article_id, lines[k].declinaison_id) == Some((a, d))
  }

  /** The last turn of a successful loop: the position the last line
      designates, in the initial catalogue and in the one the earlier lines
      left, and the catalogue it produces. */
  lemma StepPosition(arts0: seq<Article>, lines: seq<SaleLine>, clock: Clock, rand: nat -> string)
    returns (p: (nat, nat))
    requires lines != [] && ProcessLines(arts0, lines, clock, rand).Done?
    ensures var n := |lines| - 1;
      var prev := ProcessLines(arts0, lines[..n], clock, rand);
      && prev.Done?
      && Resolve(arts0, lines[n].article_id, lines[n].declinaison_id) == Some(p)
      && ValidPos(prev.arts, p.0, p.1)
      && CheckLine(prev.arts, lines[n]) == Success(p)
      && StockAt(prev.arts, p.0, p.1) >= lines[n].quantite
      && ProcessLines(arts0, lines, clock, rand).arts == AdjustStock(prev.arts, p.0, p.1, -lines[n].quantite)
  {
    var n := |lines| - 1;
    var prev := ProcessLines(arts0, lines[..n], clock, rand);
    ProcessLinesShape(arts0, lines[..n], clock, rand);
    ResolveStable(arts0, prev.arts, lines[n].article_id, lines[n].declinaison_id);
    CheckLineOrder(prev.arts, lines[n]);
    p := CheckLine(prev.arts, lines[n]).value;
  }

  /** The stock at (a, d) after adjusting the variant at p by delta. */
  lemma AdjustedStockAt(arts: seq<Article>, p: (nat, nat), delta: int, a: nat, d: nat)
    requires ValidPos(arts, p.0, p.1)
    ensures StockAt(AdjustStock(arts, p.0, p.1, delta), a, d) == StockAt(arts, a, d) + (if p == (a, d) then delta else 0)
  {
    AdjustStockEffect(arts, p.0, p.1, delta);
  }

  /** A loop that goes through lowers each variant by the total its lines ask
      of it. */
  lemma {:induction false} ProcessLinesStock(arts0: seq<Article>, lines: seq<SaleLine>, clock: Clock, rand: nat -> string)
    requires ProcessLines(arts0, lines, clock, rand).Done?
    ensures forall a: nat, d: nat | ValidPos(arts0, a, d) ::
      StockAt(ProcessLines(arts0, lines, clock, rand).arts, a, d) == StockAt(arts0, a, d) - Requested(arts0, lines, a, d)
  {
    if lines != [] {
      var n := |lines| - 1;
      var prev := ProcessLines(arts0, lines[..n], clock, rand);
      var p := StepPosition(arts0, lines, clock, rand);
      ProcessLinesStock(arts0, lines[..n], clock, rand);
      forall a: nat, d: nat | ValidPos(arts0, a, d)
        ensures StockAt(ProcessLines(arts0, lines, clock, rand).arts, a, d) == StockAt(arts0, a, d) - Requested(arts0, lines, a, d)
      {
        AdjustedStockAt(prev.arts, p, -lines[n].quantite, a, d);
      }
    }
  }

  /** In a loop that goes through, a variant any line asked of is left at
      zero or above: each line is checked against the stock the lines
      before it have left. */
  lemma {:induction false} ProcessLinesTouchedNonNegative(arts0: seq<Article>, lines: seq<SaleLine>, clock: Clock, rand: nat -> string, a: nat, d: nat)
    requires ProcessLines(arts0, lines, clock, rand).Done?
    requires Touches(arts0, lines, a, d)
    ensures StockAt(ProcessLines(arts0, lines, clock, rand).arts, a, d) >= 0
  {
    var n := |lines| - 1;
    var prev := ProcessLines(arts0, lines[..n], clock, rand);
    var p := StepPosition(arts0, lines, clock, rand);
    AdjustedStockAt(prev.arts, p, -lines[n].quantite, a, d);
    if p != (a, d) {
      TouchesEarlier(arts0, lines, a, d, p);
      ProcessLinesTouchedNonNegative(arts0, lines[..n], clock, rand, a, d);
    }
  }

  /** A variant some line designates, but not the last one, is designated
      by one of the lines before the last. */
  lemma TouchesEarlier(arts: seq<Article>, lines: seq<SaleLine>, a: nat, d: nat, p: (nat, nat))
    requires lines != [] && Touches(arts, lines, a, d)
    requires Resolve(arts, lines[|lines| - 1].article_id, lines[|lines| - 1].declinaison_id) == Some(p)
    requires p != (a, d)
    ensures Touches(arts, lines[..|lines| - 1], a, d)
  {
    var k :| 0 <= k < |lines| && Resolve(arts, lines[k].article_id, lines[k].declinaison_id) == Some((a, d));
    assert k != |lines| - 1;
    assert lines[..|lines| - 1][k] == lines[k];
  }

  /** When the loop stops at line k, the lines before it stay applied: the
      catalogue is left as the first k lines, all accepted, made it, and
      line k's check against that catalogue is the error returned. */
  lemma {:induction false} ProcessLinesNoRollback(arts0: seq<Article>, lines: seq<SaleLine>, clock: Clock, rand: nat -> string)
    returns (k: nat)
    requires ProcessLines(arts0, lines, clock, rand).Stopped?
    ensures k < |lines|
    ensures var before := ProcessLines(arts0, lines[..k], clock, rand);
      && before.Done?
      && before.arts == ProcessLines(arts0, lines, clock, rand).arts
      && CheckLine(before.arts, lines[k]) == Failure(ProcessLines(arts0, lines, clock, rand).error)
  {
    var n := |lines| - 1;
    if ProcessLines(arts0, lines[..n], clock, rand).Stopped? {
      k := ProcessLinesNoRollback(arts0, lines[..n], clock, rand);
      assert lines[..n][..k] == lines[..k];
    } else {
      k := n;
    }
  }

  /** On success the total is the sum of price times quantity over the lines. */
  lemma {:induction false} ProcessLinesTotal(arts0: seq<Article>, lines: seq<SaleLine>, clock: Clock, rand: nat -> string)
    requires ProcessLines(arts0, lines, clock, rand).Done?
    ensures ProcessLines(arts0, lines, clock, rand).total == SumOf(lines, LineAmount)
  {
    if lines != [] {
      var n := |lines| - 1;
      ProcessLinesTotal(arts0, lines[..n], clock, rand);
      SumOfSnoc(lines, n, LineAmount);
      assert lines[..n + 1] == lines;
    }
  }

  /** On success each recorded line copies its request line and the display
      fields of the variant it designates. */
  lemma {:induction false} ProcessLinesItems(arts0: seq<Article>, lines: seq<SaleLine>, clock: Clock, rand: nat -> string)
    requires ProcessLines(arts0, lines, clock, rand).Done?
    ensures var r := ProcessLines(arts0, lines, clock, rand);
      forall k :: 0 <= k < |lines| ==> ItemMatches(arts0, lines[k], r.items[k])
  {
    if lines != [] {
      var n := |lines| - 1;
      var line := lines[n];
      ProcessLinesItems(arts0, lines[..n], clock, rand);
      var prev := ProcessLines(arts0, lines[..n], clock, rand);
      var p := StepPosition(arts0, lines, clock, rand);
      ProcessLinesShape(arts0, lines[..n], clock, rand);
      var item := Snapshot(prev.arts, p.0, p.1, line, ItemId(clock, rand, n));
      SnapshotMatches(arts0, prev.arts, p, line, ItemId(clock, rand, n));
      assert ProcessLines(arts0, lines, clock, rand).items == prev.items + [item];
      ItemsExtend(arts0, lines, prev.items, item);
    }
  }

  lemma ItemsExtend(arts0: seq<Article>, lines: seq<SaleLine>, items: seq<VenteItem>, item: VenteItem)
    requires |items| + 1 == |lines|
    requires forall k :: 0 <= k < |items| ==> ItemMatches(arts0, lines[..|items|][k], items[k])
    requires ItemMatches(arts0, lines[|items|], item)
    ensures forall k :: 0 <= k < |lines| ==> ItemMatches(arts0, lines[k], (items + [item])[k])
  {
    forall k | 0 <= k < |lines| ensures ItemMatches(arts0, lines[k], (items + [item])[k]) {
      if k < |items| {
        assert (items + [item])[k] == items[k];
        assert lines[..|items|][k] == lines[k];
      }
    }
  }

  /** The line recorded from a catalogue of the same shape as the initial
      one carries the initial catalogue's display fields. */
  lemma SnapshotMatches(arts0: seq<Article>, cur: seq<Article>, p: (nat, nat), line: SaleLine, id: string)
    requires SameShape(arts0, cur)
    requires Resolve(arts0, line.article_id, line.declinaison_id) == Some(p)
    ensures ValidPos(cur, p.0, p.1)
    ensures ItemMatches(arts0, line, Snapshot(cur, p.0, p.1, line, id))
  {
    assert ValidPos(arts0, p.0, p.1);
    assert cur[p.0].(declinaisons := []) == arts0[p.0].(declinaisons := []);
    assert cur[p.0].declinaisons[p.1].(quantite := 0) == arts0[p.0].declinaisons[p.1].(quantite := 0);
  }

  /** A recorded line agrees with its request line and with the catalogue. */
  predicate ItemMatches(arts: seq<Article>, line: SaleLine, item: VenteItem)
  {
    && item.article_id == line.article_id
    && item.declinaison_id == line.declinaison_id
    && item.quantite == line.quantite
    && item.prix_unitaire == line.prix_unitaire
    && item.prix_total == LineAmount(line)
    && match Resolve(arts, line.article_id, line.declinaison_id)
       case None => false
       case Some(p) =>
         && item.article_nom == arts[p.0].nom
         && item.article_reference == arts[p.0].reference
         && item.taille == arts[p.0].declinaisons[p.1].taille
         && item.couleur == arts[p.0].declinaisons[p.1].couleur
  }

  /** Whatever the outcome, a catalogue without negative stock stays so. */
  lemma {:induction false} ProcessLinesKeepsStockNonNegative(arts0: seq<Article>, lines: seq<SaleLine>, clock: Clock, rand: nat -> string)
    requires NonNegativeStock(arts0)
    ensures NonNegativeStock(ProcessLines(arts0, lines, clock, rand).arts)
  {
    if lines != [] {
      var n := |lines| - 1;
      ProcessLinesKeepsStockNonNegative(arts0, lines[..n], clock, rand);
      var prev := ProcessLines(arts0, lines[..n], clock, rand);
      var r := ProcessLines(arts0, lines, clock, rand);
      if r.Done? {
        var p := StepPosition(arts0, lines, clock, rand);
        AdjustStockEffect(prev.arts, p.0, p.1, -lines[n].quantite);
        forall a, d | ValidPos(r.arts, a, d) ensures StockAt(r.arts, a, d) >= 0 {
          assert ValidPos(prev.arts, a, d);
        }
      }
    }
  }

  /** `numero_vente`: "VTE-", the year, "-", the counter padded to 6 digits. */
  function NumeroVente(year: nat, counter: nat): string
  {
    "VTE-" + NatToString(year) + "-" + PadStart(NatToString(counter), 6, '0')
  }

  /** Within one year, different counters give different sale numbers. */
  lemma NumeroVenteInjective(year: nat, c1: nat, c2: nat)
    requires NumeroVente(year, c1) == NumeroVente(year, c2)
    ensures c1 == c2
  {
    var prefix := "VTE-" + NatToString(year) + "-";
    var s1, s2 := PadStart(NatToString(c1), 6, '0'), PadStart(NatToString(c2), 6, '0');
    assert NumeroVente(year, c1) == prefix + s1;
    assert NumeroVente(year, c2) == prefix + s2;
    assert s1 == (prefix + s1)[|prefix|..];
    assert s2 == (prefix + s2)[|prefix|..];
    PaddedRoundTrip(c1, 6);
    PaddedRoundTrip(c2, 6);
  }

  /** With a four-digit year and a counter below one million the number has
      the fixed shape VTE-YYYY-NNNNNN. */
  lemma NumeroVenteShape(year: nat, counter: nat)
    requires 1000 <= year <= 9999 && counter < 1000000
    ensures |NumeroVente(year, counter)| == 15
    ensures NumeroVente(year, counter)[..4] == "VTE-" && NumeroVente(year, counter)[8] == '-'
  {
    var y := NatToString(year);
    assert Pow10(3) == 1000 && Pow10(4) == 10000 && Pow10(6) == 1000000;
    NatToStringLength(year, 4);
    NatToStringLength(year, 3);
    assert |y| == 4;
    NatToStringLength(counter, 6);
    var c := PadStart(NatToString(counter), 6, '0');
    assert |c| == 6;
    var head := "VTE-" + y + "-";
    assert |head| == 9 && head[..4] == "VTE-" && head[8] == '-';
    assert NumeroVente(year, counter) == head + c;
  }

  function Max0(x: int): int
  {
    if x > 0 then x else 0
  }

  /** `vente-${Date.now()}` from clock reading k. */
  function VenteId(clock: Clock, k: nat): string
  {
    "vente-" + NatToString(clock.now(k))
  }

  /** Two sale ids agree exactly when their clock readings do. */
  lemma VenteIdAgree(clock: Clock, j: nat, k: nat)
    ensures VenteId(clock, j) == VenteId(clock, k) <==> SameReading(clock, j, k)
  {
    if VenteId(clock, j) == VenteId(clock, k) {
      assert NatToString(clock.now(j)) == VenteId(clock, j)[6..];
      assert NatToString(clock.now(k)) == VenteId(clock, k)[6..];
      NatToStringInjective(clock.now(j), clock.now(k));
    }
  }

  /** `venteItems.map(item => ({ ...item, vente_id: `vente-${Date.now()}` }))`,
      item k taking clock reading first + k. */
  function WithVenteIds(items: seq<VenteItem>, clock: Clock, first: nat): (r: seq<VenteItem>)
    ensures |r| == |items|
    ensures forall k :: 0 <= k < |items| ==> r[k] == items[k].(vente_id := VenteId(clock, first + k))
  {
    seq(|items|, k requires 0 <= k < |items| => items[k].(vente_id := VenteId(clock, first + k)))
  }

  /** The sale record built once every line has passed: after the n
      readings of the loop, its id takes reading n and item k reading
      n + 1 + k. */
  function BuildVente(req: CreateVenteRequest, items: seq<VenteItem>, total: int, counter: nat, clock: Clock): Vente
  {
    Vente(VenteId(clock, |items|), NumeroVente(clock.year, counter), req.client_nom, req.client_email, req.client_telephone,
          WithVenteIds(items, clock, |items| + 1), total, req.montant_paye, Max0(req.montant_paye - total),
          req.mode_paiement, Validee, req.notes, "demo-user-id", clock.iso)
  }

  /** POST /ventes on the store: the response and the new state. */
  function CreateVente(st: StoreState, req: CreateVenteRequest, clock: Clock, rand: nat -> string)
    : (Result<Vente, ApiError>, StoreState)
  {
    if req.items.None? || |req.items.value| == 0 then
      (Failure(ApiError(400, EMPTY_SALE_MESSAGE)), st)
    else
      match ProcessLines(st.articles, req.items.value, clock, rand)
      case Stopped(arts, e) => (Failure(e), st.(articles := arts))
      case Done(arts, items, total) =>
        var v := BuildVente(req, items, total, st.counter, clock);
        (Success(v), StoreState(arts, [v] + st.ventes, st.counter + 1))
  }

  /** The store after a line stopped the loop: the error, and the catalogue
      as that line found it. */
  lemma CreateVenteStopped(st: StoreState, req: CreateVenteRequest, clock: Clock, rand: nat -> string,
                           arts: seq<Article>, e: ApiError)
    requires req.items.Some? && req.items.value != []
    requires ProcessLines(st.articles, req.items.value, clock, rand) == Stopped(arts, e)
    ensures CreateVente(st, req, clock, rand) == (Failure(e), st.(articles := arts))
  {
  }

  /** The store after every line passed: the sale built from the recorded
      lines and total, put first, and the counter advanced. */
  lemma CreateVenteDone(st: StoreState, req: CreateVenteRequest, clock: Clock, rand: nat -> string,
                        arts: seq<Article>, items: seq<VenteItem>, total: int)
    requires req.items.Some? && req.items.value != []
    requires ProcessLines(st.articles, req.items.value, clock, rand) == Done(arts, items, total)
    ensures var v := BuildVente(req, items, total, st.counter, clock);
      CreateVente(st, req, clock, rand) == (Success(v), StoreState(arts, [v] + st.ventes, st.counter + 1))
  {
  }

  /** A request without items is refused with 400 and changes nothing. */
  lemma CreateVenteRejectsEmpty(st: StoreState, req: CreateVenteRequest, clock: Clock, rand: nat -> string)
    requires req.items.None? || req.items == Some([])
    ensures CreateVente(st, req, clock, rand) == (Failure(ApiError(400, EMPTY_SALE_MESSAGE)), st)
  {
  }

  /** A failing line: the error is returned, the counter and the sales list
      are untouched, and the catalogue keeps the stock taken by the lines
      before the failing one. */
  lemma CreateVenteFailure(st: StoreState, req: CreateVenteRequest, clock: Clock, rand: nat -> string)
    returns (k: nat)
    requires CreateVente(st, req, clock, rand).0.Failure?
    requires req.items.Some? && |req.items.value| > 0
    ensures var (r, st') := CreateVente(st, req, clock, rand);
      && st'.ventes == st.ventes && st'.counter == st.counter
      && k < |req.items.value|
      && (forall a: nat, d: nat | ValidPos(st.articles, a, d) ::
            StockAt(st'.articles, a, d) == StockAt(st.articles, a, d) - Requested(st.articles, req.items.value[..k], a, d))
      && CheckLine(st'.articles, req.items.value[k]) == Failure(r.error)
  {
    var lines := req.items.value;
    k := ProcessLinesNoRollback(st.articles, lines, clock, rand);
    ProcessLinesStock(st.articles, lines[..k], clock, rand);
  }

  /** A sale that goes through: its total, change, status, number and lines;
      the stock taken off; the sale put first in the list; the counter
      advanced by one. */
  lemma CreateVenteSuccess(st: StoreState, req: CreateVenteRequest, clock: Clock, rand: nat -> string)
    requires CreateVente(st, req, clock, rand).0.Success?
    ensures req.items.Some? && |req.items.value| > 0
    ensures var r := CreateVente(st, req, clock, rand);
      var v := r.0.value;
      var st' := r.1;
      var lines := req.items.value;
      && v.montant_total == SumOf(lines, LineAmount)
      && v.montant_paye == req.montant_paye
      && v.montant_rendu == (if req.montant_paye > v.montant_total then req.montant_paye - v.montant_total else 0)
      && v.statut == Validee
      && v.numero_vente == NumeroVente(clock.year, st.counter)
      && |v.items| == |lines|
      && st'.ventes == [v] + st.ventes
      && st'.counter == st.counter + 1
      && SameShape(st.articles, st'.articles)
      && (forall a: nat, d: nat | ValidPos(st.articles, a, d) ::
            && StockAt(st'.articles, a, d) == StockAt(st.articles, a, d) - Requested(st.articles, lines, a, d)
            && (Touches(st.articles, lines, a, d) ==> StockAt(st'.articles, a, d) >= 0))
  {
    var lines := req.items.value;
    var o := ProcessLines(st.articles, lines, clock, rand);
    var v := BuildVente(req, o.items, o.total, st.counter, clock);
    assert CreateVente(st, req, clock, rand) == (Success(v), StoreState(o.arts, [v] + st.ventes, st.counter + 1));
    ProcessLinesStock(st.articles, lines, clock, rand);
    ProcessLinesTotal(st.articles, lines, clock, rand);
    ProcessLinesItems(st.articles, lines, clock, rand);
    ProcessLinesShape(st.articles, lines, clock, rand);
    forall a: nat, d: nat | ValidPos(st.articles, a, d) && Touches(st.articles, lines, a, d)
      ensures StockAt(o.arts, a, d) >= 0
    {
      ProcessLinesTouchedNonNegative(st.articles, lines, clock, rand, a, d);
    }
  }

  /** The lines of a sale that goes through: line k records request line k
      against the catalogue as it was. */
  lemma CreateVenteSuccessItems(st: StoreState, req: CreateVenteRequest, clock: Clock, rand: nat -> string)
    requires CreateVente(st, req, clock, rand).0.Success?
    ensures req.items.Some?
    ensures var v := CreateVente(st, req, clock, rand).0.value;
      && |v.items| == |req.items.value|
      && forall k :: 0 <= k < |req.items.value| ==> ItemMatches(st.articles, req.items.value[k], v.items[k])
  {
    var lines := req.items.value;
    var o := ProcessLines(st.articles, lines, clock, rand);
    var v := BuildVente(req, o.items, o.total, st.counter, clock);
    assert CreateVente(st, req, clock, rand).0 == Success(v);
    ProcessLinesItems(st.articles, lines, clock, rand);
    WithVenteIdsMatch(st.articles, lines, o.items, clock);
  }

  /** The ids of a sale that goes through: after the n readings of the
      loop, the sale's id takes reading n and line k's `vente_id` reading
      n + 1 + k. By `VenteIdAgree`, a line therefore carries the sale's id
      exactly when those two readings agree. */
  lemma CreateVenteSaleIds(st: StoreState, req: CreateVenteRequest, clock: Clock, rand: nat -> string)
    requires CreateVente(st, req, clock, rand).0.Success?
    ensures req.items.Some?
    ensures var v := CreateVente(st, req, clock, rand).0.value;
      var n := |req.items.value|;
      && v.id == VenteId(clock, n)
      && |v.items| == n
      && forall k :: 0 <= k < n ==> v.items[k].vente_id == VenteId(clock, n + 1 + k)
  {
    var lines := req.items.value;
    var o := ProcessLines(st.articles, lines, clock, rand);
    var v := BuildVente(req, o.items, o.total, st.counter, clock);
    assert CreateVente(st, req, clock, rand).0 == Success(v);
  }

  lemma WithVenteIdsMatch(arts: seq<Article>, lines: seq<SaleLine>, items: seq<VenteItem>, clock: Clock)
    requires |items| == |lines|
    requires forall k :: 0 <= k < |lines| ==> ItemMatches(arts, lines[k], items[k])
    ensures forall k :: 0 <= k < |lines| ==> ItemMatches(arts, lines[k], WithVenteIds(items, clock, |items| + 1)[k])
  {
    var r := WithVenteIds(items, clock, |items| + 1);
    forall k | 0 <= k < |lines| ensures ItemMatches(arts, lines[k], r[k]) {
      assert r[k] == items[k].(vente_id := VenteId(clock, |items| + 1 + k));
      assert ItemMatches(arts, lines[k], items[k]);
    }
  }

  // ---------------------------------------------------- lookup and cancel

  /** `ventes.findIndex(v => v.id === id)`, as an index. */
  function FindVente(ventes: seq<Vente>, id: string): (r: Option<nat>)
    ensures r.Some? ==> r.value < |ventes| && ventes[r.value].id == id
    ensures r.Some? ==> forall j :: 0 <= j < r.value ==> ventes[j].id != id
    ensures r.None? ==> forall j :: 0 <= j < |ventes| ==> ventes[j].id != id
  {
    if ventes == [] then None
    else if ventes[0].id == id then Some(0)
    else match FindVente(ventes[1..], id)
      case None => None
      case Some(k) => Some(k + 1)
  }

  const SALE_NOT_FOUND: ApiError := ApiError(404, "Vente introuvable")

  /** GET /ventes/:id */
  function GetVente(ventes: seq<Vente>, id: string): (r: Result<Vente, ApiError>)
    ensures r.Success? <==> exists j :: 0 <= j < |ventes| && ventes[j].id == id
    ensures r.Success? ==> r.value in ventes && r.value.id == id
    ensures r.Failure? ==> r.error == SALE_NOT_FOUND
  {
    match FindVente(ventes, id)
    case None => Failure(SALE_NOT_FOUND)
    case Some(i) => Success(ventes[i])
  }

  /** The stock-restoring loop of cancellation: each line's quantity goes
      back to its variant when the article and the variant still exist. */
  function RestoreLines(arts: seq<Article>, items: seq<VenteItem>): seq<Article>
  {
    if items == [] then arts
    else
      var item := items[|items| - 1];
      var cur := RestoreLines(arts, items[..|items| - 1]);
      match Resolve(cur, item.article_id, item.declinaison_id)
      case None => cur
      case Some(p) => AdjustStock(cur, p.0, p.1, item.quantite)
  }

  /** Cancellation changes stock quantities and nothing else. */
  lemma {:induction false} RestoreLinesShape(arts: seq<Article>, items: seq<VenteItem>)
    ensures SameShape(arts, RestoreLines(arts, items))
  {
    if items == [] {
      SameShapeRefl(arts);
    } else {
      var item := items[|items| - 1];
      var cur := RestoreLines(arts, items[..|items| - 1]);
      RestoreLinesShape(arts, items[..|items| - 1]);
      var found := Resolve(cur, item.article_id, item.declinaison_id);
      if found.Some? {
        AdjustStockEffect(cur, found.value.0, found.value.1, item.quantite);
        SameShapeTrans(arts, cur, RestoreLines(arts, items));
      }
    }
  }

  /** A sale's recorded lines read back as request lines. */
  function AsLines(items: seq<VenteItem>): (r: seq<SaleLine>)
    ensures |r| == |items|
    ensures forall k :: 0 <= k < |items| ==>
      r[k] == SaleLine(items[k].article_id, items[k].declinaison_id, items[k].quantite, items[k].prix_unitaire)
  {
    seq(|items|, k requires 0 <= k < |items| =>
      SaleLine(items[k].article_id, items[k].declinaison_id, items[k].quantite, items[k].prix_unitaire))
  }

  /** Cancelling gives back to each variant the total its lines had taken. */
  lemma {:induction false} RestoreLinesStock(arts: seq<Article>, items: seq<VenteItem>)
    ensures forall a: nat, d: nat | ValidPos(arts, a, d) ::
      StockAt(RestoreLines(arts, items), a, d) == StockAt(arts, a, d) + Requested(arts, AsLines(items), a, d)
  {
    if items != [] {
      var n := |items| - 1;
      var item := items[n];
      var cur := RestoreLines(arts, items[..n]);
      RestoreLinesStock(arts, items[..n]);
      RestoreLinesShape(arts, items[..n]);
      ResolveStable(arts, cur, item.article_id, item.declinaison_id);
      var found := Resolve(cur, item.article_id, item.declinaison_id);
      if found.Some? {
        AdjustStockEffect(cur, found.value.0, found.value.1, item.quantite);
      }
      assert AsLines(items)[..n] == AsLines(items[..n]);
    }
  }

  /** DELETE /ventes/:id: the response and the new state. */
  function CancelVente(st: StoreState, id: string): (Result<(), ApiError>, StoreState)
  {
    match FindVente(st.ventes, id)
    case None => (Failure(SALE_NOT_FOUND), st)
    case Some(i) =>
      var v := st.ventes[i];
      (Success(()), st.(articles := RestoreLines(st.articles, v.items),
                        ventes := st.ventes[i := v.(statut := Annulee)]))
  }

  /** Creating a sale and then cancelling it gives the catalogue back as it
      was; the sale stays in the list, marked cancelled. */
  lemma CreateThenCancel(st: StoreState, req: CreateVenteRequest, clock: Clock, rand: nat -> string)
    requires CreateVente(st, req, clock, rand).0.Success?
    ensures var (r, st1) := CreateVente(st, req, clock, rand);
      CancelVente(st1, r.value.id) ==
        (Success(()), StoreState(st.articles, [r.value.(statut := Annulee)] + st.ventes, st.counter + 1))
  {
    var lines := req.items.value;
    var o := ProcessLines(st.articles, lines, clock, rand);
    var v := BuildVente(req, o.items, o.total, st.counter, clock);
    assert CreateVente(st, req, clock, rand) == (Success(v), StoreState(o.arts, [v] + st.ventes, st.counter + 1));
    ProcessLinesItems(st.articles, lines, clock, rand);
    ProcessLinesShape(st.articles, lines, clock, rand);
    ProcessLinesStock(st.articles, lines, clock, rand);
    RecordedLines(st.articles, lines, v.items, o.items, clock);
    RestoreUndoesProcess(st.articles, o.arts, lines, v.items);
    CancelNewest(o.arts, v, st.ventes, st.counter + 1);
  }

  /** Cancelling the sale at the head of the list restocks its lines and
      marks it, leaving the rest of the list alone. */
  lemma CancelNewest(arts: seq<Article>, v: Vente, ventes: seq<Vente>, counter: nat)
    ensures CancelVente(StoreState(arts, [v] + ventes, counter), v.id)
         == (Success(()), StoreState(RestoreLines(arts, v.items), [v.(statut := Annulee)] + ventes, counter))
  {
    assert FindVente([v] + ventes, v.id) == Some(0);
    UpdateFirst(v, v.(statut := Annulee), ventes);
  }

  /** The lines a sale records are, read back as request lines, the lines
      it was created from. */
  lemma RecordedLines(arts: seq<Article>, lines: seq<SaleLine>, recorded: seq<VenteItem>, items: seq<VenteItem>, clock: Clock)
    requires |items| == |lines|
    requires forall k :: 0 <= k < |lines| ==> ItemMatches(arts, lines[k], items[k])
    requires recorded == WithVenteIds(items, clock, |items| + 1)
    ensures AsLines(recorded) == lines
  {
    forall k | 0 <= k < |lines| ensures AsLines(recorded)[k] == lines[k] {
      assert ItemMatches(arts, lines[k], items[k]);
    }
  }

  /** Giving back what a set of lines took restores the catalogue. */
  lemma RestoreUndoesProcess(arts0: seq<Article>, arts1: seq<Article>, lines: seq<SaleLine>, items: seq<VenteItem>)
    requires SameShape(arts0, arts1)
    requires AsLines(items) == lines
    requires forall a: nat, d: nat | ValidPos(arts0, a, d) ::
      StockAt(arts1, a, d) == StockAt(arts0, a, d) - Requested(arts0, lines, a, d)
    ensures RestoreLines(arts1, items) == arts0
  {
    var back := RestoreLines(arts1, items);
    RestoreLinesStock(arts1, items);
    RestoreLinesShape(arts1, items);
    SameShapeTrans(arts0, arts1, back);
    forall a: nat, d: nat | ValidPos(arts0, a, d)
      ensures StockAt(back, a, d) == StockAt(arts0, a, d)
    {
      assert ValidPos(arts1, a, d);
      RequestedStable(arts0, arts1, lines, a, d);
    }
    ShapeAndStockDetermine(back, arts0);
  }

  lemma UpdateFirst<T>(x: T, y: T, s: seq<T>)
    ensures ([x] + s)[0 := y] == [y] + s
  {
    assert forall i :: 0 <= i < |s| + 1 ==> ([x] + s)[0 := y][i] == ([y] + s)[i];
  }

  /** Lookups agree on catalogues of the same shape, so the quantities asked
      of each variant do too. */
  lemma {:induction false} RequestedStable(x: seq<Article>, y: seq<Article>, lines: seq<SaleLine>, a: nat, d: nat)
    requires SameShape(x, y)
    ensures Requested(x, lines, a, d) == Requested(y, lines, a, d)
  {
    if lines != [] {
      var line := lines[|lines| - 1];
      ResolveStable(x, y, line.article_id, line.declinaison_id);
      RequestedStable(x, y, lines[..|lines| - 1], a, d);
    }
  }

  /** Cancellation does not look at the status: cancelling the same sale
      twice succeeds both times and gives its stock back twice. */
  lemma CancelTwice(st: StoreState, id: string)
    requires FindVente(st.ventes, id).Some?
    ensures var (r1, st1) := CancelVente(st, id);
      var (r2, st2) := CancelVente(st1, id);
      var items := st.ventes[FindVente(st.ventes, id).value].items;
      && r1.Success? && r2.Success?
      && forall a: nat, d: nat | ValidPos(st.articles, a, d) ::
           StockAt(st2.articles, a, d) == StockAt(st.articles, a, d) + 2 * Requested(st.articles, AsLines(items), a, d)
  {
    var i := FindVente(st.ventes, id).value;
    var items := st.ventes[i].items;
    var (r1, st1) := CancelVente(st, id);
    assert forall j :: 0 <= j < |st.ventes| ==> st1.ventes[j].id == st.ventes[j].id;
    FindVenteStable(st.ventes, st1.ventes, id);
    RestoreLinesStock(st.articles, items);
    RestoreLinesShape(st.articles, items);
    RestoreLinesStock(st1.articles, items);
    forall a: nat, d: nat | ValidPos(st.articles, a, d)
      ensures StockAt(CancelVente(st1, id).1.articles, a, d)
           == StockAt(st.articles, a, d) + 2 * Requested(st.articles, AsLines(items), a, d)
    {
      assert ValidPos(st1.articles, a, d);
      RequestedStable(st.articles, st1.articles, AsLines(items), a, d);
    }
  }

  lemma {:induction false} FindVenteStable(x: seq<Vente>, y: seq<Vente>, id: string)
    requires |x| == |y|
    requires forall j :: 0 <= j < |x| ==> x[j].id == y[j].id
    ensures FindVente(x, id) == FindVente(y, id)
  {
    if x != [] && x[0].id != id {
      FindVenteStable(x[1..], y[1..], id);
    }
  }

  /** Cancelling marks the sale cancelled, keeps it in the list and leaves
      every other sale as it was. */
  lemma CancelVenteMarks(st: StoreState, id: string)
    ensures var (r, st') := CancelVente(st, id);
      && (r.Failure? <==> forall j :: 0 <= j < |st.ventes| ==> st.ventes[j].id != id)
      && (r.Failure? ==> r.error == SALE_NOT_FOUND && st' == st)
      && |st'.ventes| == |st.ventes| && st'.counter == st.counter
      && (r.Success? ==> var i := FindVente(st.ventes, id).value;
            && st'.ventes[i] == st.ventes[i].(statut := Annulee)
            && forall j :: 0 <= j < |st.ventes| && j != i ==> st'.ventes[j] == st.ventes[j])
  {
  }
}
