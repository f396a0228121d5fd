/** The point-of-sale page (frontend/src/pages/NewSale.tsx): the cart the
    seller fills from the catalogue, its total and change, and the request
    the page sends to POST /ventes. Every handler of the page computes a new
    cart from the old one; they are functions here. Money is in cents, and
    the paid-amount field is `None` while it is empty. */
module NewSale {
  import opened Common
  import opened StockTypes
  import DemoSales
  import DemoCatalog

  /** One cart line, with the variant's stock as it was when the line was
      created. */
  datatype CartItem = CartItem(
    article_id: string,
    declinaison_id: string,
    article_nom: string,
    article_reference: string,
    taille: string,
    couleur: string,
    quantite: int,
    prix_unitaire: int,
    stock_disponible: int)

  predicate IsPair(item: CartItem, aid: string, did: string)
  {
    item.article_id == aid && item.declinaison_id == did
  }

  /** `cart.find(...)` on the (article, variant) pair, as an index. */
  function FindPair(cart: seq<CartItem>, aid: string, did: string): (r: Option<nat>)
    ensures r.Some? ==> r.value < |cart| && IsPair(cart[r.value], aid, did)
    ensures r.None? ==> forall k :: 0 <= k < |cart| ==> !IsPair(cart[k], aid, did)
  {
    if cart == [] then None
    else if IsPair(cart[0], aid, did) then Some(0)
    else match FindPair(cart[1..], aid, did)
      case None => None
      case Some(k) => Some(k + 1)
  }

  /** The line a first click on a variant creates. */
  function NewLine(article: Article, decl: Declinaison): CartItem
  {
    CartItem(article.id, decl.id, article.nom, article.reference, decl.taille, decl.couleur,
             1, article.prix_vente, decl.quantite)
  }

  /** Every line of the pair gets one more unit. */
  function IncrementPair(cart: seq<CartItem>, aid: string, did: string): (r: seq<CartItem>)
    ensures |r| == |cart|
    ensures forall k :: 0 <= k < |cart| ==>
      r[k] == if IsPair(cart[k], aid, did) then cart[k].(quantite := cart[k].quantite + 1) else cart[k]
  {
    seq(|cart|, k requires 0 <= k < |cart| =>
      if IsPair(cart[k], aid, did) then cart[k].(quantite := cart[k].quantite + 1) else cart[k])
  }

  /** `addToCart(article, declinaison)`: a pair already in the cart gets one
      more unit while its quantity is below the variant's current stock; a
      new pair gets a line of one unit when the variant is in stock. */
  function AddToCart(cart: seq<CartItem>, article: Article, decl: Declinaison): seq<CartItem>
  {
    match FindPair(cart, article.id, decl.id)
    case Some(i) =>
      if cart[i].quantite < decl.quantite then IncrementPair(cart, article.id, decl.id) else cart
    case None =>
      if decl.quantite > 0 then cart + [NewLine(article, decl)] else cart
  }

  /** `updateQuantity(declinaison_id, delta)`: each line of that variant
      takes the delta when the new quantity stays within 1 and its recorded
      stock; otherwise it is left as it is. */
  function UpdateQuantity(cart: seq<CartItem>, did: string, delta: int): (r: seq<CartItem>)
    ensures |r| == |cart|
    ensures forall k :: 0 <= k < |cart| ==> r[k] == UpdatedLine(cart[k], did, delta)
  {
    seq(|cart|, k requires 0 <= k < |cart| => UpdatedLine(cart[k], did, delta))
  }

  function UpdatedLine(item: CartItem, did: string, delta: int): CartItem
  {
    if item.declinaison_id == did && 0 < item.quantite + delta <= item.stock_disponible
    then item.(quantite := item.quantite + delta)
    else item
  }

  function KeepsVariant(did: string): CartItem -> bool
  {
    (item: CartItem) => item.declinaison_id != did
  }

  /** `removeFromCart(declinaison_id)` */
  function RemoveFromCart(cart: seq<CartItem>, did: string): seq<CartItem>
  {
    Filter(cart, KeepsVariant(did))
  }

  function ItemAmount(item: CartItem): int
  {
    item.prix_unitaire * item.quantite
  }

  /** `montantTotal` */
  function MontantTotal(cart: seq<CartItem>): int
  {
    SumOf(cart, ItemAmount)
  }

  /** The paid amount as the page reads it: an empty field counts as zero. */
  function PaidValue(paid: Option<int>): int
  {
    if paid.Some? then paid.value else 0
  }

  /** `montantRendu` */
  function MontantRendu(cart: seq<CartItem>, paid: Option<int>): int
  {
    DemoSales.Max0(PaidValue(paid) - MontantTotal(cart))
  }

  // ------------------------------------------------------------ invariants

  /** No two lines of the cart are for the same pair. */
  ghost predicate UniquePairs(cart: seq<CartItem>)
  {
    forall i, j :: 0 <= i < j < |cart| ==> !IsPair(cart[j], cart[i].article_id, cart[i].declinaison_id)
  }

  /** Every line holds at least one unit and no more than its recorded stock. */
  ghost predicate WithinStock(cart: seq<CartItem>)
  {
    forall k :: 0 <= k < |cart| ==> 1 <= cart[k].quantite <= cart[k].stock_disponible
  }

  /** A new pair is added as one unit at the selling price with the
      variant's stock recorded, and only when that stock is positive; an
      existing pair gains exactly one unit on its line, and only while that
      line holds less than the current stock. */
  lemma AddToCartEffect(cart: seq<CartItem>, article: Article, decl: Declinaison)
    requires UniquePairs(cart)
    ensures var r := AddToCart(cart, article, decl);
      match FindPair(cart, article.id, decl.id)
      case None =>
        && (decl.quantite > 0 ==> r == cart + [CartItem(article.id, decl.id, article.nom, article.reference,
                                                       decl.taille, decl.couleur, 1, article.prix_vente, decl.quantite)])
        && (decl.quantite <= 0 ==> r == cart)
      case Some(i) =>
        && (cart[i].quantite < decl.quantite ==> r == cart[i := cart[i].(quantite := cart[i].quantite + 1)])
        && (cart[i].quantite >= decl.quantite ==> r == cart)
  {
    match FindPair(cart, article.id, decl.id)
    case None =>
    case Some(i) =>
      if cart[i].quantite < decl.quantite {
        var r := IncrementPair(cart, article.id, decl.id);
        forall k | 0 <= k < |cart| ensures r[k] == cart[i := cart[i].(quantite := cart[i].quantite + 1)][k] {
          if k < i {
            assert !IsPair(cart[i], cart[k].article_id, cart[k].declinaison_id);
          } else if k > i {
            assert !IsPair(cart[k], cart[i].article_id, cart[i].declinaison_id);
          }
        }
      }
  }

  /** Adding never creates a second line for a pair. */
  lemma AddToCartKeepsPairsUnique(cart: seq<CartItem>, article: Article, decl: Declinaison)
    requires UniquePairs(cart)
    ensures UniquePairs(AddToCart(cart, article, decl))
  {
    var r := AddToCart(cart, article, decl);
    forall i, j | 0 <= i < j < |r| ensures !IsPair(r[j], r[i].article_id, r[i].declinaison_id) {
      if j < |cart| {
        assert r[i].(quantite := 0) == cart[i].(quantite := 0);
        assert r[j].(quantite := 0) == cart[j].(quantite := 0);
      } else if FindPair(cart, article.id, decl.id).None? {
        assert r[i] == cart[i];
      }
    }
  }

  /** The stock bound is kept while the variant's stock has not risen above
      what its line recorded: an existing line is checked against the
      variant's current stock, not against its own `stock_disponible`. */
  lemma AddToCartKeepsWithinStock(cart: seq<CartItem>, article: Article, decl: Declinaison)
    requires WithinStock(cart) && UniquePairs(cart)
    requires forall k :: 0 <= k < |cart| && IsPair(cart[k], article.id, decl.id) ==> decl.quantite <= cart[k].stock_disponible
    ensures WithinStock(AddToCart(cart, article, decl))
  {
    var r := AddToCart(cart, article, decl);
    AddToCartEffect(cart, article, decl);
    if FindPair(cart, article.id, decl.id).None? {
      forall k | 0 <= k < |r| ensures 1 <= r[k].quantite <= r[k].stock_disponible {
        if k < |cart| {
          assert r[k] == cart[k];
        }
      }
    }
  }

  /** When the stock has risen since the line was created, adding goes past
      the line's recorded stock. */
  lemma AddToCartCanPassRecordedStock()
    ensures var decl := Declinaison("d", "a", "M", "Noir", 5, 1, None);
      var article := Article("a", "REF", "Robe", None, "ETE_2024", 1000, 2000, [], "", [decl]);
      var cart := [CartItem("a", "d", "Robe", "REF", "M", "Noir", 1, 2000, 1)];
      && WithinStock(cart)
      && !WithinStock(AddToCart(cart, article, decl))
  {
    var decl := Declinaison("d", "a", "M", "Noir", 5, 1, None);
    var article := Article("a", "REF", "Robe", None, "ETE_2024", 1000, 2000, [], "", [decl]);
    var cart := [CartItem("a", "d", "Robe", "REF", "M", "Noir", 1, 2000, 1)];
    assert FindPair(cart, "a", "d") == Some(0);
    assert AddToCart(cart, article, decl)[0].quantite == 2;
  }

  /** A quantity change keeps every line within 1 and its recorded stock,
      changes only lines of the given variant and never a pair. */
  lemma UpdateQuantityKeepsInvariants(cart: seq<CartItem>, did: string, delta: int)
    ensures WithinStock(cart) ==> WithinStock(UpdateQuantity(cart, did, delta))
    ensures UniquePairs(cart) ==> UniquePairs(UpdateQuantity(cart, did, delta))
    ensures forall k :: 0 <= k < |cart| && cart[k].declinaison_id != did ==> UpdateQuantity(cart, did, delta)[k] == cart[k]
  {
    var r := UpdateQuantity(cart, did, delta);
    assert forall k :: 0 <= k < |cart| ==> r[k].(quantite := 0) == cart[k].(quantite := 0);
  }

  /** Removing a variant drops exactly its lines and keeps the others in
      order. */
  lemma RemoveFromCartEffect(cart: seq<CartItem>, did: string)
    ensures var r := RemoveFromCart(cart, did);
      && (forall k :: 0 <= k < |r| ==> r[k].declinaison_id != did)
      && (forall k :: 0 <= k < |cart| && cart[k].declinaison_id != did ==> cart[k] in r)
      && r == Filter(cart, KeepsVariant(did))
      && ((forall k :: 0 <= k < |cart| ==> cart[k].declinaison_id != did) ==> r == cart)
  {
    if forall k :: 0 <= k < |cart| ==> cart[k].declinaison_id != did {
      FilterAll(cart, KeepsVariant(did));
    }
  }

  /** Removing keeps every remaining line within its stock. */
  lemma RemoveFromCartKeepsWithinStock(cart: seq<CartItem>, did: string)
    requires WithinStock(cart)
    ensures WithinStock(RemoveFromCart(cart, did))
  {
    var r := RemoveFromCart(cart, did);
    forall k | 0 <= k < |r| ensures 1 <= r[k].quantite <= r[k].stock_disponible {
      var j :| 0 <= j < |cart| && cart[j] == r[k];
    }
  }

  /** Removing never brings two lines of one pair together. */
  lemma {:induction false} RemoveFromCartKeepsPairsUnique(cart: seq<CartItem>, did: string)
    requires UniquePairs(cart)
    ensures UniquePairs(RemoveFromCart(cart, did))
  {
    if cart != [] {
      var r := RemoveFromCart(cart, did);
      var rest := RemoveFromCart(cart[1..], did);
      UniquePairsTail(cart);
      RemoveFromCartKeepsPairsUnique(cart[1..], did);
      if KeepsVariant(did)(cart[0]) {
        assert r == [cart[0]] + rest;
        forall k | 0 <= k < |rest| ensures !IsPair(rest[k], cart[0].article_id, cart[0].declinaison_id) {
          var j :| 0 <= j < |cart[1..]| && cart[1..][j] == rest[k];
          assert cart[j + 1] == rest[k];
        }
        UniquePairsCons(cart[0], rest);
      } else {
        assert r == rest;
      }
    }
  }

  lemma UniquePairsTail(cart: seq<CartItem>)
    requires cart != [] && UniquePairs(cart)
    ensures UniquePairs(cart[1..])
  {
    forall i, j | 0 <= i < j < |cart| - 1
      ensures !IsPair(cart[1..][j], cart[1..][i].article_id, cart[1..][i].declinaison_id)
    {
      assert cart[1..][i] == cart[i + 1] && cart[1..][j] == cart[j + 1];
    }
  }

  lemma UniquePairsCons(x: CartItem, rest: seq<CartItem>)
    requires UniquePairs(rest)
    requires forall k :: 0 <= k < |rest| ==> !IsPair(rest[k], x.article_id, x.declinaison_id)
    ensures UniquePairs([x] + rest)
  {
    var r := [x] + rest;
    forall i, j | 0 <= i < j < |r| ensures !IsPair(r[j], r[i].article_id, r[i].declinaison_id) {
      if i > 0 {
        assert r[i] == rest[i - 1] && r[j] == rest[j - 1];
      } else {
        assert r[j] == rest[j - 1];
      }
    }
  }

  // ------------------------------------------------------------ submitting

  /** The form fields besides the cart. */
  datatype SaleForm = SaleForm(
    clientNom: string,
    clientEmail: string,
    clientTelephone: string,
    modePaiement: PaymentMode,
    montantPaye: Option<int>,
    notes: string)

  function AsSaleLine(item: CartItem): SaleLine
  {
    SaleLine(item.article_id, item.declinaison_id, item.quantite, item.prix_unitaire)
  }

  /** `cart.map(...)` into the request's lines. */
  function RequestLines(cart: seq<CartItem>): (r: seq<SaleLine>)
    ensures |r| == |cart|
    ensures forall k :: 0 <= k < |cart| ==> r[k] == AsSaleLine(cart[k])
  {
    seq(|cart|, k requires 0 <= k < |cart| => AsSaleLine(cart[k]))
  }

  const EMPTY_CART: string := "Le panier est vide"
  const UNDERPAID: string := "Le montant payé est insuffisant"

  /** `handleSubmit`: the alert shown, or the request sent. */
  function Submit(cart: seq<CartItem>, form: SaleForm): Result<CreateVenteRequest, string>
  {
    if |cart| == 0 then Failure(EMPTY_CART)
    else if PaidValue(form.montantPaye) < MontantTotal(cart) then Failure(UNDERPAID)
    else Success(CreateVenteRequest(OrAbsent(form.clientNom), OrAbsent(form.clientEmail), OrAbsent(form.clientTelephone),
                                    Some(RequestLines(cart)), PaidValue(form.montantPaye), form.modePaiement,
                                    OrAbsent(form.notes)))
  }

  /** The submit button is enabled: a non-empty cart and a filled-in paid
      amount that covers the total (a pending request also disables it). */
  predicate SubmitEnabled(cart: seq<CartItem>, form: SaleForm, pending: bool)
  {
    |cart| != 0 && form.montantPaye.Some? && form.montantPaye.value >= MontantTotal(cart) && !pending
  }

  /** The request's lines total exactly what the page shows. */
  lemma {:induction false} RequestTotalIsCartTotal(cart: seq<CartItem>)
    ensures SumOf(RequestLines(cart), DemoSales.LineAmount) == MontantTotal(cart)
  {
    if cart != [] {
      assert RequestLines(cart)[1..] == RequestLines(cart[1..]);
      RequestTotalIsCartTotal(cart[1..]);
    }
  }

  /** Submitting is refused exactly when the cart is empty or the paid
      amount is below the total, with the empty-cart alert first; otherwise
      the request mirrors the cart line for line, carries the paid amount
      and the payment mode as entered, leaves out the empty optional fields
      and carries the others as typed, and the backend will compute the same total and change as
      the page. */
  lemma SubmitSpec(cart: seq<CartItem>, form: SaleForm)
    ensures var r := Submit(cart, form);
      && (r.Failure? <==> cart == [] || PaidValue(form.montantPaye) < MontantTotal(cart))
      && (cart == [] ==> r == Failure(EMPTY_CART))
      && (cart != [] && PaidValue(form.montantPaye) < MontantTotal(cart) ==> r == Failure(UNDERPAID))
      && (r.Success? ==>
            && r.value.items.Some?
            && |r.value.items.value| == |cart|
            && (forall k :: 0 <= k < |cart| ==>
                  var l := r.value.items.value[k];
                  l.article_id == cart[k].article_id && l.declinaison_id == cart[k].declinaison_id
                  && l.quantite == cart[k].quantite && l.prix_unitaire == cart[k].prix_unitaire)
            && SumOf(r.value.items.value, DemoSales.LineAmount) == MontantTotal(cart)
            && r.value.montant_paye == PaidValue(form.montantPaye) >= MontantTotal(cart)
            && DemoSales.Max0(r.value.montant_paye - SumOf(r.value.items.value, DemoSales.LineAmount)) == MontantRendu(cart, form.montantPaye)
            && r.value.mode_paiement == form.modePaiement
            && r.value.client_nom == OrAbsent(form.clientNom)
            && r.value.client_email == OrAbsent(form.clientEmail)
            && r.value.client_telephone == OrAbsent(form.clientTelephone)
            && r.value.notes == OrAbsent(form.notes))
  {
    RequestTotalIsCartTotal(cart);
  }

  /** Whenever the button is enabled, submitting sends the typed amount. */
  lemma EnabledSubmitSends(cart: seq<CartItem>, form: SaleForm)
    requires SubmitEnabled(cart, form, false)
    ensures Submit(cart, form).Success? && Submit(cart, form).value.montant_paye == form.montantPaye.value
  {
  }

  /** The change shown is never negative, and is the surplus whenever the
      paid amount covers the total. */
  lemma MontantRenduSpec(cart: seq<CartItem>, paid: Option<int>)
    ensures MontantRendu(cart, paid) >= 0
    ensures PaidValue(paid) >= MontantTotal(cart) ==> MontantRendu(cart, paid) == PaidValue(paid) - MontantTotal(cart)
    ensures PaidValue(paid) <= MontantTotal(cart) ==> MontantRendu(cart, paid) == 0
  {
  }

  // ----------------------------------------------------------- the search

  /** `filteredArticles`: the name or the reference contains the term, or
      the brand does when there is one, all ignoring case. */
  predicate ArticleMatches(article: Article, term: string)
  {
    || IncludesIgnoringCase(article.nom, term)
    || IncludesIgnoringCase(article.reference, term)
    || (article.marque.Some? && IncludesIgnoringCase(article.marque.value, term))
  }

  function FilterArticles(articles: seq<Article>, term: string): seq<Article>
  {
    Filter(articles, (a: Article) => ArticleMatches(a, term))
  }

  /** The articles the page offers: the `data` of `GET /articles` asked
      without parameters. */
  function LoadedArticles(catalogue: seq<Article>): seq<Article>
  {
    DemoCatalog.ListArticles(catalogue, DemoCatalog.BARE_QUERY).data
  }

  /** The page offers the first twenty articles of the catalogue, in order,
      so with a longer catalogue the later ones cannot be sold from it. */
  lemma LoadedArticlesFirstPage(catalogue: seq<Article>)
    ensures LoadedArticles(catalogue) == catalogue[..DemoCatalog.Min(20, |catalogue|)]
    ensures |LoadedArticles(catalogue)| <= 20
    ensures forall k :: 20 <= k < |catalogue| && catalogue[k] !in catalogue[..20] ==>
      catalogue[k] !in LoadedArticles(catalogue)
  {
    DemoCatalog.BareListing(catalogue);
  }

  /** An article is listed exactly when it was loaded and its name,
      reference or brand contains the search term, ignoring case. */
  lemma FilterArticlesIff(articles: seq<Article>, term: string, x: Article)
    ensures x in FilterArticles(articles, term) <==> x in articles && ArticleMatches(x, term)
  {
    DemoCatalog.InFilter(articles, (a: Article) => ArticleMatches(a, term), x);
  }

  /** An empty search shows the whole catalogue. */
  lemma EmptySearchKeepsAll(articles: seq<Article>)
    ensures FilterArticles(articles, "") == articles
  {
    forall k | 0 <= k < |articles| ensures ArticleMatches(articles[k], "") {
      IncludesEmpty(Lower(articles[k].nom));
    }
    FilterAll(articles, (a: Article) => ArticleMatches(a, ""));
  }
}
