/** The article page (frontend/src/pages/ProductDetails.tsx): the stock
    badge of a variant, the variant and photo chosen when the article
    loads, the picture shown, and the add-to-cart guard. */
module ProductDetails {
  import opened Common
  import opened StockTypes
  import DemoCatalog
  import CartContext

  // ----------------------------------------------------------- stock badge

  datatype StockBadge = StockBadge(status: string, color: string)

  const OUT_OF_STOCK: StockBadge := StockBadge("Épuisé", "text-red-600 bg-red-100")
  const LOW_STOCK: StockBadge := StockBadge("Stock bas", "text-orange-600 bg-orange-100")
  const IN_STOCK: StockBadge := StockBadge("En stock", "text-green-600 bg-green-100")

  /** `getStockStatus(quantite, quantiteMin)` */
  function GetStockStatus(quantite: int, quantiteMin: int): StockBadge
  {
    if quantite == 0 then OUT_OF_STOCK
    else if quantite <= quantiteMin then LOW_STOCK
    else IN_STOCK
  }

  /** Exactly one badge applies: "Épuisé" at zero whatever the threshold,
      "Stock bas" for any other quantity at or below the threshold, "En
      stock" above it. */
  lemma StockStatusSpec(quantite: int, quantiteMin: int)
    ensures var b := GetStockStatus(quantite, quantiteMin);
      && (b == OUT_OF_STOCK <==> quantite == 0)
      && (b == LOW_STOCK <==> quantite != 0 && quantite <= quantiteMin)
      && (b == IN_STOCK <==> quantite != 0 && quantite > quantiteMin)
      && (b == OUT_OF_STOCK || b == LOW_STOCK || b == IN_STOCK)
  {
  }

  /** Every variant the backend reports as an alert, and every empty one,
      shows a warning badge; every other variant shows "En stock". */
  lemma BadgeMatchesAlerts(d: Declinaison)
    ensures GetStockStatus(d.quantite, d.quantite_min) != IN_STOCK <==> DemoCatalog.IsLow(d) || d.quantite == 0
  {
  }

  // ------------------------------------------------------------- selection

  /** The first variant is selected when the article loads, if it has one. */
  function InitialSelection(a: Article): (r: Option<string>)
    ensures r.Some? <==> a.declinaisons != []
  {
    if a.declinaisons != [] then Some(a.declinaisons[0].id) else None
  }

  /** `article.declinaisons.find(d => d.id === selectedDeclinaison)` */
  function SelectedData(ds: seq<Declinaison>, selected: Option<string>): Option<Declinaison>
  {
    if ds == [] || selected.None? then None
    else if ds[0].id == selected.value then Some(ds[0])
    else SelectedData(ds[1..], selected)
  }

  /** The lookup finds the first variant with the chosen id, and nothing
      when no variant has it. */
  lemma {:induction false} SelectedDataSpec(ds: seq<Declinaison>, id: string)
    ensures SelectedData(ds, Some(id)).None? <==> forall i :: 0 <= i < |ds| ==> ds[i].id != id
    ensures SelectedData(ds, Some(id)).Some? ==>
      exists i :: 0 <= i < |ds| && ds[i] == SelectedData(ds, Some(id)).value && ds[i].id == id &&
        forall j :: 0 <= j < i ==> ds[j].id != id
  {
    if ds != [] && ds[0].id != id {
      SelectedDataSpec(ds[1..], id);
      if SelectedData(ds, Some(id)).Some? {
        var i :| 0 <= i < |ds[1..]| && ds[1..][i] == SelectedData(ds, Some(id)).value && ds[1..][i].id == id &&
          forall j :: 0 <= j < i ==> ds[1..][j].id != id;
        assert ds[i + 1] == ds[1..][i];
        forall j | 0 <= j < i + 1 ensures ds[j].id != id {
          if j > 0 { assert ds[j] == ds[1..][j - 1]; }
        }
      } else {
        forall i | 0 <= i < |ds| ensures ds[i].id != id {
          if i > 0 { assert ds[i] == ds[1..][i - 1]; }
        }
      }
    } else if ds != [] {
      assert ds[0] == SelectedData(ds, Some(id)).value;
    }
  }

  /** Right after loading, the selection resolves to the first variant. */
  lemma InitialSelectionResolves(a: Article)
    ensures a.declinaisons != [] ==> SelectedData(a.declinaisons, InitialSelection(a)) == Some(a.declinaisons[0])
    ensures a.declinaisons == [] ==> SelectedData(a.declinaisons, InitialSelection(a)).None?
  {
  }

  // ---------------------------------------------------------------- photos

  /** `photos.find(photo => photo.is_primary)` */
  function FindPrimary(photos: seq<ArticlePhoto>): (r: Option<ArticlePhoto>)
    ensures r.Some? ==> r.value in photos && r.value.is_primary
  {
    if photos == [] then None
    else if photos[0].is_primary then Some(photos[0])
    else FindPrimary(photos[1..])
  }

  /** A primary photo is found whenever there is one, and it is the first. */
  lemma {:induction false} FindPrimarySpec(photos: seq<ArticlePhoto>)
    ensures FindPrimary(photos).None? <==> forall i :: 0 <= i < |photos| ==> !photos[i].is_primary
    ensures FindPrimary(photos).Some? ==>
      exists i :: 0 <= i < |photos| && photos[i] == FindPrimary(photos).value &&
        forall j :: 0 <= j < i ==> !photos[j].is_primary
  {
    if photos != [] && !photos[0].is_primary {
      FindPrimarySpec(photos[1..]);
      if FindPrimary(photos).Some? {
        var i :| 0 <= i < |photos[1..]| && photos[1..][i] == FindPrimary(photos).value &&
          forall j :: 0 <= j < i ==> !photos[1..][j].is_primary;
        assert photos[i + 1] == photos[1..][i];
        forall j | 0 <= j < i + 1 ensures !photos[j].is_primary {
          if j > 0 { assert photos[j] == photos[1..][j - 1]; }
        }
      } else {
        forall i | 0 <= i < |photos| ensures !photos[i].is_primary {
          if i > 0 { assert photos[i] == photos[1..][i - 1]; }
        }
      }
    } else if photos != [] {
      assert photos[0] == FindPrimary(photos).value;
    }
  }

  /** The photo selected when the article loads: the primary one's url,
      else the first photo's, and none without photos. */
  function InitialPhoto(a: Article): Option<string>
  {
    if a.photos == [] then None
    else
      var primary := FindPrimary(a.photos);
      Some(if primary.Some? then primary.value.url else a.photos[0].url)
  }

  /** `article.photos?.find(photo => photo.is_primary) || article.photos?.[0]`:
      a photo object is always truthy. */
  function PrimaryPhoto(a: Article): Option<ArticlePhoto>
  {
    var primary := FindPrimary(a.photos);
    if primary.Some? then primary
    else if a.photos != [] then Some(a.photos[0])
    else None
  }

  const PLACEHOLDER: string := "/placeholder-product.jpg"

  /** `selectedPhoto || primaryPhoto?.url || '/placeholder-product.jpg'`:
      the empty string is falsy. */
  function DisplayedSrc(selected: Option<string>, a: Article): string
  {
    if selected.Some? && selected.value != "" then selected.value
    else if PrimaryPhoto(a).Some? && PrimaryPhoto(a).value.url != "" then PrimaryPhoto(a).value.url
    else PLACEHOLDER
  }

  /** On load the picture is the primary photo when there is one, the first
      photo otherwise, and the placeholder when there are no photos or the
      chosen photo has an empty url. */
  lemma InitialDisplaySpec(a: Article)
    ensures var src := DisplayedSrc(InitialPhoto(a), a);
      && (a.photos == [] ==> src == PLACEHOLDER)
      && (forall i :: 0 <= i < |a.photos| && a.photos[i].is_primary ==>
            exists j :: 0 <= j <= i && a.photos[j].is_primary &&
              src == (if a.photos[j].url != "" then a.photos[j].url else PLACEHOLDER))
      && ((a.photos != [] && forall i :: 0 <= i < |a.photos| ==> !a.photos[i].is_primary) ==>
            src == (if a.photos[0].url != "" then a.photos[0].url else PLACEHOLDER))
  {
    FindPrimarySpec(a.photos);
  }

  // ----------------------------------------------------------- add to cart

  const SELECT_VARIANT: string := "Veuillez sélectionner une déclinaison"

  /** The page's quantity never changes from its initial value. */
  const QUANTITY: int := 1

  /** The "Ajouter au panier" button is enabled. */
  predicate AddToCartEnabled(a: Article, selected: Option<string>)
  {
    var d := SelectedData(a.declinaisons, selected);
    d.Some? && d.value.quantite != 0
  }

  /** `handleAddToCart`, with the cart before the click and the moment the
      cart reads its clock; the error is the message of the alert. */
  function HandleAddToCart(cart: seq<CartContext.CartLine>, article: Option<Article>, selected: Option<string>, now: nat)
    : Result<seq<CartContext.CartLine>, string>
  {
    if article.None? then Failure(SELECT_VARIANT)
    else
      var d := SelectedData(article.value.declinaisons, selected);
      if d.None? then Failure(SELECT_VARIANT)
      else Success(CartContext.AddToCart(cart, article.value, d.value, QUANTITY, now))
  }

  /** The handler refuses exactly when no article is loaded or the choice
      names no variant; otherwise the cart is `addToCart(article, variant, 1)`
      for the chosen variant: a new line of one unit, or one more unit on
      the line already holding it, with the ids kept distinct. The handler itself does not
      look at the stock: only the disabled button keeps an empty variant
      out, and an enabled button always leads to an add. */
  lemma HandleAddToCartSpec(cart: seq<CartContext.CartLine>, article: Option<Article>, selected: Option<string>, now: nat)
    requires CartContext.UniqueIds(cart)
    ensures var r := HandleAddToCart(cart, article, selected, now);
      && (r.Failure? <==> article.None? || SelectedData(article.value.declinaisons, selected).None?)
      && (r.Failure? ==> r.error == SELECT_VARIANT)
      && (r.Success? ==>
            var d := SelectedData(article.value.declinaisons, selected).value;
            var key := CartContext.ItemKey(article.value, d);
            && r.value == CartContext.AddToCart(cart, article.value, d, QUANTITY, now)
            && CartContext.UniqueIds(r.value)
            && CartContext.TotalItems(r.value) == CartContext.TotalItems(cart) + 1
            && (!CartContext.HasId(cart, key) ==> r.value == cart + [CartContext.CartLine(key, article.value, d, 1, now)])
            && (CartContext.HasId(cart, key) ==>
                  && |r.value| == |cart|
                  && forall k :: 0 <= k < |cart| ==>
                       r.value[k] == if cart[k].id == key then cart[k].(quantity := cart[k].quantity + 1) else cart[k]))
      && (article.Some? && AddToCartEnabled(article.value, selected) ==> r.Success?)
  {
    if article.Some? && SelectedData(article.value.declinaisons, selected).Some? {
      CartContext.AddToCartSpec(cart, article.value, SelectedData(article.value.declinaisons, selected).value, QUANTITY, now);
    }
  }

  /** Right after loading, the button is enabled exactly when the first
      variant is not at zero. */
  lemma InitialAddToCart(a: Article)
    ensures AddToCartEnabled(a, InitialSelection(a)) <==> a.declinaisons != [] && a.declinaisons[0].quantite != 0
  {
    InitialSelectionResolves(a);
  }
}
