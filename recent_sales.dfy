/** The recent-sales page (frontend/src/pages/RecentSales.tsx): the relative
    date of a sale, the revenue and item totals, the search, and the average
    basket. Amounts are in cents; a date is its time in milliseconds, and
    "now" is a parameter. */
module RecentSales {
  import opened Common

  datatype SaleArticle = SaleArticle(nom: string, quantite: int, prix: int)

  datatype Sale = Sale(id: string, date: int, articles: seq<SaleArticle>, total: int, client: string)

  // ---------------------------------------------------------- relative date

  const HOUR_MS: int := 1000 * 60 * 60
  const DAY_MS: int := 24 * HOUR_MS

  const LESS_THAN_AN_HOUR: string := "Il y a moins d'une heure"

  /** `formatDate`: whole hours since the sale, rounded down (the division
      by a positive number rounds toward minus infinity, as `Math.floor`
      does), then whole days from the hours. */
  function FormatDate(nowMs: int, dateMs: int): string
  {
    var diffInHours := (nowMs - dateMs) / HOUR_MS;
    if diffInHours < 1 then LESS_THAN_AN_HOUR
    else if diffInHours < 24 then "Il y a " + NatToString(diffInHours) + "h"
    else
      var diffInDays := diffInHours / 24;
      "Il y a " + NatToString(diffInDays) + " jour" + (if diffInDays > 1 then "s" else "")
  }

  /** Less than an hour ago, and any date in the future, reads "moins
      d'une heure"; from one hour to under a day it shows the whole hours
      h elapsed, 1 to 23; from one day on it shows the whole days d
      elapsed, with "jours" from two days on. */
  lemma FormatDateSpec(nowMs: int, dateMs: int)
    ensures var delta := nowMs - dateMs;
      && (delta < HOUR_MS ==> FormatDate(nowMs, dateMs) == LESS_THAN_AN_HOUR)
      && (HOUR_MS <= delta < DAY_MS ==>
            exists h: nat :: 1 <= h <= 23 && h * HOUR_MS <= delta < (h + 1) * HOUR_MS &&
              FormatDate(nowMs, dateMs) == "Il y a " + NatToString(h) + "h")
      && (DAY_MS <= delta ==>
            exists d: nat :: 1 <= d && d * DAY_MS <= delta < (d + 1) * DAY_MS &&
              FormatDate(nowMs, dateMs) == "Il y a " + NatToString(d) + " jour" + (if delta >= 2 * DAY_MS then "s" else ""))
  {
    var delta := nowMs - dateMs;
    var h := delta / HOUR_MS;
    assert h * HOUR_MS <= delta < (h + 1) * HOUR_MS;
    if delta < HOUR_MS {
      assert h < 1;
    } else if delta < DAY_MS {
      assert 1 <= h <= 23;
    } else {
      assert h >= 24;
      var d := h / 24;
      assert d * 24 <= h < (d + 1) * 24;
      DaysBetween(delta, h, d);
      assert d > 1 <==> delta >= 2 * DAY_MS;
    }
  }

  /** Whole hours h rounded down to whole days d bound the time in days. */
  lemma DaysBetween(delta: int, h: int, d: int)
    requires h * HOUR_MS <= delta < (h + 1) * HOUR_MS
    requires d * 24 <= h < (d + 1) * 24
    ensures d * DAY_MS <= delta < (d + 1) * DAY_MS
  {
    assert d * DAY_MS == (d * 24) * HOUR_MS;
    assert (d + 1) * DAY_MS == ((d + 1) * 24) * HOUR_MS;
    assert (d * 24) * HOUR_MS <= h * HOUR_MS;
    assert (h + 1) * HOUR_MS <= ((d + 1) * 24) * HOUR_MS;
  }

  // ----------------------------------------------------------------- totals

  function SaleTotal(s: Sale): int
  {
    s.total
  }

  function ArticleQuantity(a: SaleArticle): int
  {
    a.quantite
  }

  /** The inner `reduce` of `getTotalItems`. */
  function SaleItems(s: Sale): int
  {
    SumOf(s.articles, ArticleQuantity)
  }

  /** `getTotalSales` */
  function TotalSales(sales: seq<Sale>): int
  {
    SumOf(sales, SaleTotal)
  }

  /** `getTotalItems` */
  function TotalItems(sales: seq<Sale>): int
  {
    SumOf(sales, SaleItems)
  }

  /** The sales the search hides. */
  function HiddenSales(sales: seq<Sale>, term: string): seq<Sale>
  {
    Filter(sales, (s: Sale) => !SaleMatches(s, term))
  }

  /** Both totals split over the search: what it keeps plus what it hides
      is the whole. */
  lemma TotalsSplit(sales: seq<Sale>, term: string)
    ensures TotalSales(FilteredSales(sales, term)) + TotalSales(HiddenSales(sales, term)) == TotalSales(sales)
    ensures TotalItems(FilteredSales(sales, term)) + TotalItems(HiddenSales(sales, term)) == TotalItems(sales)
  {
    var p := (s: Sale) => SaleMatches(s, term);
    var q := (s: Sale) => !SaleMatches(s, term);
    SumOfFilterSplit(sales, p, q, SaleTotal);
    SumOfFilterSplit(sales, p, q, SaleItems);
  }

  /** The average basket: only for a non-empty list (the page shows
      "€0.00" otherwise). */
  function AverageBasket(sales: seq<Sale>): (r: Option<real>)
    ensures r.None? <==> sales == []
    ensures r.Some? ==> r.value * |sales| as real == TotalSales(sales) as real
  {
    if |sales| > 0 then Some(TotalSales(sales) as real / |sales| as real) else None
  }

  // ----------------------------------------------------------------- search

  predicate SaleMatches(s: Sale, term: string)
  {
    IncludesIgnoringCase(s.client, term) || exists i :: 0 <= i < |s.articles| && IncludesIgnoringCase(s.articles[i].nom, term)
  }

  /** `filteredSales` */
  function FilteredSales(sales: seq<Sale>, term: string): seq<Sale>
  {
    Filter(sales, (s: Sale) => SaleMatches(s, term))
  }

  /** A sale is listed exactly when its client or one of its article names
      contains the term, ignoring case; an empty term lists every sale. */
  lemma {:induction false} FilteredSalesIff(sales: seq<Sale>, term: string, x: Sale)
    ensures x in FilteredSales(sales, term) <==>
      x in sales && (IncludesIgnoringCase(x.client, term) || exists i :: 0 <= i < |x.articles| && IncludesIgnoringCase(x.articles[i].nom, term))
    ensures term == [] ==> FilteredSales(sales, term) == sales
  {
    if sales != [] {
      FilteredSalesIff(sales[1..], term, x);
      assert sales == [sales[0]] + sales[1..];
    }
    if term == [] {
      forall s: Sale ensures SaleMatches(s, term) {
        IncludesEmpty(Lower(s.client));
      }
      FilterAll(sales, (s: Sale) => SaleMatches(s, term));
    }
  }
}
