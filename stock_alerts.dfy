/** The stock-alert page (frontend/src/pages/StockAlerts.tsx): the flat
    alerts of the backend reshaped into article and variant records, their
    urgency level and label, the summary cards, local replenishment and the
    set of alerts marked processed or ignored. */
module StockAlertsPage {
  import opened Common
  import opened StockTypes
  import DemoSales
  import DemoCatalog

  datatype AlertArticle = AlertArticle(id: string, nom: string, reference: string)

  datatype AlertDeclinaison = AlertDeclinaison(
    id: string,
    taille: string,
    couleur: string,
    quantite: int,
    quantite_min: int,
    code_barre: Option<string>)

  /** The page's nested alert record. */
  datatype UiAlert = UiAlert(article: AlertArticle, declinaison: AlertDeclinaison)

  /** The adaptation of one backend alert; the backend record has no
      barcode, so the adapted one has none either. */
  function Adapt(a: StockAlert): UiAlert
  {
    UiAlert(AlertArticle(a.article_id, a.nom, a.reference),
            AlertDeclinaison(a.declinaison_id, a.taille, a.couleur, a.quantite, a.quantite_min, None))
  }

  function AdaptAll(alerts: seq<StockAlert>): (r: seq<UiAlert>)
    ensures |r| == |alerts|
    ensures forall k :: 0 <= k < |alerts| ==> r[k] == Adapt(alerts[k])
  {
    seq(|alerts|, k requires 0 <= k < |alerts| => Adapt(alerts[k]))
  }

  /** The adaptation keeps the order, the ids, the quantity and the threshold
      of every alert. */
  lemma AdaptAllPreserves(alerts: seq<StockAlert>)
    ensures var r := AdaptAll(alerts);
      && |r| == |alerts|
      && forall k :: 0 <= k < |alerts| ==>
           && r[k].article.id == alerts[k].article_id
           && r[k].declinaison.id == alerts[k].declinaison_id
           && r[k].declinaison.quantite == alerts[k].quantite
           && r[k].declinaison.quantite_min == alerts[k].quantite_min
           && r[k].article.nom == alerts[k].nom && r[k].article.reference == alerts[k].reference
  {
  }

  // ----------------------------------------------------------------- levels

  datatype AlertLevel = Critical | High | Medium

  /** The level with its text and background classes. */
  datatype LevelStyle = LevelStyle(level: AlertLevel, color: string, bgColor: string)

  /** `getAlertLevel(quantite, quantiteMin)`: `quantite <= quantiteMin / 2`
      is a comparison of numbers, so for integers it is `2 * quantite <=
      quantiteMin`. */
  function GetAlertLevel(quantite: int, quantiteMin: int): LevelStyle
  {
    if quantite == 0 then LevelStyle(Critical, "text-red-600", "bg-red-50")
    else if 2 * quantite <= quantiteMin then LevelStyle(High, "text-orange-600", "bg-orange-50")
    else LevelStyle(Medium, "text-yellow-600", "bg-yellow-50")
  }

  /** The level names the page passes around. */
  function LevelName(l: AlertLevel): string
  {
    match l
    case Critical => "critical"
    case High => "high"
    case Medium => "medium"
  }

  /** `getAlertLabel(level)` */
  function GetAlertLabel(level: string): string
  {
    if level == "critical" then "Stock épuisé"
    else if level == "high" then "Stock très bas"
    else "Stock bas"
  }

  /** An empty stock is critical; otherwise at most half the threshold is
      high; anything else is medium: each alert has exactly one level. */
  lemma AlertLevelSpec(quantite: int, quantiteMin: int)
    ensures var l := GetAlertLevel(quantite, quantiteMin).level;
      && (l == Critical <==> quantite == 0)
      && (l == High <==> quantite != 0 && 2 * quantite <= quantiteMin)
      && (l == Medium <==> quantite != 0 && 2 * quantite > quantiteMin)
  {
  }

  /** Each level has its own label, and any other string falls back to the
      plain low-stock label. */
  lemma AlertLabelSpec(level: string)
    ensures GetAlertLabel(LevelName(Critical)) == "Stock épuisé"
    ensures GetAlertLabel(LevelName(High)) == "Stock très bas"
    ensures GetAlertLabel(LevelName(Medium)) == "Stock bas"
    ensures level != "critical" && level != "high" ==> GetAlertLabel(level) == "Stock bas"
  {
  }

  // ---------------------------------------------------------- summary cards

  function IsOutOfStock(a: UiAlert): bool
  {
    a.declinaison.quantite == 0
  }

  function HasLevel(l: AlertLevel): UiAlert -> bool
  {
    (a: UiAlert) => GetAlertLevel(a.declinaison.quantite, a.declinaison.quantite_min).level == l
  }

  /** The "Stock épuisé", "Stock très bas" and "Stock bas" cards count a
      partition of the alerts: together they make the "Total alertes" card. */
  lemma {:induction false} CardsPartition(alerts: seq<UiAlert>)
    ensures Count(alerts, IsOutOfStock) + Count(alerts, HasLevel(High)) + Count(alerts, HasLevel(Medium)) == |alerts|
  {
    if alerts != [] {
      CardsPartition(alerts[1..]);
      CountCons(alerts, IsOutOfStock);
      CountCons(alerts, HasLevel(High));
      CountCons(alerts, HasLevel(Medium));
    }
  }

  /** The out-of-stock card counts the critical alerts. */
  lemma {:induction false} OutOfStockIsCritical(alerts: seq<UiAlert>)
    ensures Count(alerts, IsOutOfStock) == Count(alerts, HasLevel(Critical))
  {
    if alerts != [] {
      OutOfStockIsCritical(alerts[1..]);
      CountCons(alerts, IsOutOfStock);
      CountCons(alerts, HasLevel(Critical));
    }
  }

  /** The shortfall shown on an alert. */
  function Shortfall(a: UiAlert): int
  {
    DemoSales.Max0(a.declinaison.quantite_min - a.declinaison.quantite)
  }

  /** The shown shortfall is never negative, and for an alert of the
      backend's list over the catalogue `arts` it is that alert's
      `quantite_manquante`. */
  lemma ShortfallSpec(a: StockAlert, arts: seq<Article>)
    ensures Shortfall(Adapt(a)) >= 0
    ensures a in DemoCatalog.Alerts(arts) ==> Shortfall(Adapt(a)) == a.quantite_manquante
  {
    if a in DemoCatalog.Alerts(arts) {
      var k :| 0 <= k < |DemoCatalog.Alerts(arts)| && DemoCatalog.Alerts(arts)[k] == a;
      var i, j := DemoCatalog.AlertsSound(arts, k);
    }
  }

  // ---------------------------------------------------------- replenishment

  const INVALID_QUANTITY: string := "Veuillez saisir une quantité valide"

  /** Every alert of variant `did` gets stock `q`. */
  function SetVariantStock(alerts: seq<UiAlert>, did: string, q: int): (r: seq<UiAlert>)
    ensures |r| == |alerts|
    ensures forall k :: 0 <= k < |alerts| ==>
      r[k] == if alerts[k].declinaison.id == did then alerts[k].(declinaison := alerts[k].declinaison.(quantite := q)) else alerts[k]
  {
    seq(|alerts|, k requires 0 <= k < |alerts| =>
      if alerts[k].declinaison.id == did then alerts[k].(declinaison := alerts[k].declinaison.(quantite := q)) else alerts[k])
  }

  /** `confirmReplenishment`: with an alert selected and a positive quantity
      typed (`None` for an empty field), the new alert list and the new
      stock; otherwise the message shown. */
  function ConfirmReplenishment(alerts: seq<UiAlert>, selected: Option<UiAlert>, quantity: Option<int>)
    : Result<(seq<UiAlert>, int), string>
  {
    if selected.None? || quantity.None? || quantity.value <= 0 then Failure(INVALID_QUANTITY)
    else
      var newQuantity := selected.value.declinaison.quantite + quantity.value;
      Success((SetVariantStock(alerts, selected.value.declinaison.id, newQuantity), newQuantity))
  }

  /** Replenishing is refused without a selection or without a positive
      quantity; otherwise exactly the alerts of the selected variant get the
      selected alert's stock plus the quantity, and nothing else changes. */
  lemma ReplenishmentSpec(alerts: seq<UiAlert>, selected: Option<UiAlert>, quantity: Option<int>)
    ensures var r := ConfirmReplenishment(alerts, selected, quantity);
      && (r.Failure? <==> selected.None? || quantity.None? || quantity.value <= 0)
      && (r.Failure? ==> r.error == INVALID_QUANTITY)
      && (r.Success? ==>
            var (list, q) := r.value;
            && q == selected.value.declinaison.quantite + quantity.value
            && q > selected.value.declinaison.quantite
            && |list| == |alerts|
            && forall k :: 0 <= k < |alerts| ==>
                 && list[k].article == alerts[k].article
                 && list[k].declinaison.(quantite := 0) == alerts[k].declinaison.(quantite := 0)
                 && list[k].declinaison.quantite ==
                      if alerts[k].declinaison.id == selected.value.declinaison.id then q else alerts[k].declinaison.quantite)
  {
  }

  // ----------------------------------------------------------- processing

  /** The key an alert is tracked under: "articleId-declinaisonId". */
  function AlertKey(a: UiAlert): string
  {
    a.article.id + "-" + a.declinaison.id
  }

  /** `handleProcessAlert(id)`: `new Set([...prev, id])`. */
  function ProcessAlert(processed: set<string>, id: string): set<string>
  {
    processed + {id}
  }

  /** `handleIgnoreAlert(id)`, with the answer to the confirmation. */
  function IgnoreAlert(processed: set<string>, id: string, confirmed: bool): set<string>
  {
    if confirmed then processed + {id} else processed
  }

  /** Marking an alert adds its key and only its key, a second marking
      changes nothing, and an ignored alert leaves the set as processing it
      would, once confirmed. */
  lemma ProcessedSetSpec(processed: set<string>, id: string, confirmed: bool)
    ensures id in ProcessAlert(processed, id)
    ensures forall x :: x in ProcessAlert(processed, id) <==> x in processed || x == id
    ensures ProcessAlert(ProcessAlert(processed, id), id) == ProcessAlert(processed, id)
    ensures id in processed ==> ProcessAlert(processed, id) == processed
    ensures IgnoreAlert(processed, id, confirmed) == if confirmed then ProcessAlert(processed, id) else processed
  {
  }
}
