/** The stock-movement history (frontend/src/pages/StockMovements.tsx): the
    type filter and search, the per-type counters, the type labels and the
    signed quantity shown on each line. A movement's type is whatever
    string the server sent, so labels and counts also cover unknown
    types. */
module StockMovements {
  import opened Common

  datatype Movement = Movement(id: string, date: string, kind: string, article: string, declinaison: string, quantite: int, motif: string)

  const ENTREE: string := "ENTREE"
  const SORTIE_VENTE: string := "SORTIE_VENTE"
  const SORTIE_PERTE: string := "SORTIE_PERTE"
  const AJUSTEMENT: string := "AJUSTEMENT"
  const RETOUR_CLIENT: string := "RETOUR_CLIENT"

  /** The five types the page declares, in the order of its counters. */
  const DECLARED_TYPES: seq<string> := [ENTREE, SORTIE_VENTE, SORTIE_PERTE, AJUSTEMENT, RETOUR_CLIENT]

  // ---------------------------------------------------------------- labels

  /** `getMovementLabel` */
  function MovementLabel(kind: string): string
  {
    match kind
    case "ENTREE" => "Entrée"
    case "SORTIE_VENTE" => "Sortie vente"
    case "SORTIE_PERTE" => "Sortie perte"
    case "AJUSTEMENT" => "Ajustement"
    case "RETOUR_CLIENT" => "Retour client"
    case _ => kind
  }

  /** An unknown type is shown as it is and a declared one by its own
      label, which differs from every type code; two declared types never
      share a label. */
  lemma MovementLabelSpec(kind: string, other: string)
    ensures kind !in DECLARED_TYPES ==> MovementLabel(kind) == kind
    ensures kind in DECLARED_TYPES ==> MovementLabel(kind) !in DECLARED_TYPES && MovementLabel(kind) != kind
    ensures kind in DECLARED_TYPES && other in DECLARED_TYPES && kind != other ==> MovementLabel(kind) != MovementLabel(other)
  {
  }

  // ---------------------------------------------------------------- search

  predicate MovementMatches(m: Movement, filter: string, term: string)
  {
    (filter == "all" || m.kind == filter) &&
    (IncludesIgnoringCase(m.article, term) || IncludesIgnoringCase(m.declinaison, term) || IncludesIgnoringCase(m.motif, term))
  }

  /** `filteredMovements` */
  function FilteredMovements(ms: seq<Movement>, filter: string, term: string): seq<Movement>
  {
    Filter(ms, (m: Movement) => MovementMatches(m, filter, term))
  }

  /** A movement is listed exactly when the filter is "all" or its type,
      and its article, variant or reason contains the term, ignoring case;
      "all" with an empty term lists everything. */
  lemma {:induction false} FilteredMovementsIff(ms: seq<Movement>, filter: string, term: string, x: Movement)
    ensures x in FilteredMovements(ms, filter, term) <==>
      && x in ms
      && (filter == "all" || x.kind == filter)
      && (IncludesIgnoringCase(x.article, term) || IncludesIgnoringCase(x.declinaison, term) || IncludesIgnoringCase(x.motif, term))
    ensures filter == "all" && term == [] ==> FilteredMovements(ms, filter, term) == ms
  {
    if ms != [] {
      FilteredMovementsIff(ms[1..], filter, term, x);
      assert ms == [ms[0]] + ms[1..];
    }
    if filter == "all" && term == [] {
      forall m: Movement ensures MovementMatches(m, filter, term) {
        IncludesEmpty(Lower(m.article));
      }
      FilterAll(ms, (m: Movement) => MovementMatches(m, filter, term));
    }
  }

  // -------------------------------------------------------------- counters

  /** `movements.filter(m => m.type === kind).length` */
  function CountOfType(ms: seq<Movement>, kind: string): nat
  {
    Count(ms, (m: Movement) => m.kind == kind)
  }

  function CountDeclared(ms: seq<Movement>): nat
  {
    Count(ms, (m: Movement) => m.kind in DECLARED_TYPES)
  }

  /** The five counters add up to the movements of a declared type; a
      movement of any other type is in none of them. */
  lemma {:induction false} CountersSpec(ms: seq<Movement>)
    ensures CountOfType(ms, ENTREE) + CountOfType(ms, SORTIE_VENTE) + CountOfType(ms, SORTIE_PERTE)
          + CountOfType(ms, AJUSTEMENT) + CountOfType(ms, RETOUR_CLIENT) == CountDeclared(ms)
    ensures CountDeclared(ms) <= |ms|
  {
    if ms != [] {
      CountersSpec(ms[1..]);
      CountCons(ms, (m: Movement) => m.kind == ENTREE);
      CountCons(ms, (m: Movement) => m.kind == SORTIE_VENTE);
      CountCons(ms, (m: Movement) => m.kind == SORTIE_PERTE);
      CountCons(ms, (m: Movement) => m.kind == AJUSTEMENT);
      CountCons(ms, (m: Movement) => m.kind == RETOUR_CLIENT);
      CountCons(ms, (m: Movement) => m.kind in DECLARED_TYPES);
      OneTypeAtMost(ms[0].kind);
    }
  }

  /** A type is one declared type, or none of them. */
  lemma OneTypeAtMost(kind: string)
    ensures (if kind == ENTREE then 1 else 0) + (if kind == SORTIE_VENTE then 1 else 0) + (if kind == SORTIE_PERTE then 1 else 0)
          + (if kind == AJUSTEMENT then 1 else 0) + (if kind == RETOUR_CLIENT then 1 else 0)
          == (if kind in DECLARED_TYPES then 1 else 0)
  {
  }

  // -------------------------------------------------------------- quantity

  /** `{movement.quantite > 0 ? '+' : ''}{movement.quantite}` */
  function QuantityText(q: int): string
  {
    (if q > 0 then "+" else "") + IntToString(q)
  }

  /** The quantity's colour class. */
  function QuantityColor(q: int): string
  {
    if q > 0 then "text-green-600" else "text-red-600"
  }

  /** A quantity gets a leading "+", and the green colour, exactly when it
      is positive; a negative one starts with "-", and zero is "0"; after
      the sign come the decimal digits of its magnitude. */
  lemma QuantityTextSpec(q: int)
    ensures |QuantityText(q)| > 0
    ensures QuantityText(q)[0] == '+' <==> q > 0
    ensures QuantityColor(q) == "text-green-600" <==> q > 0
    ensures q < 0 ==> QuantityText(q)[0] == '-'
    ensures q == 0 ==> QuantityText(q) == "0"
    ensures q != 0 ==> QuantityText(q)[1..] == NatToString(if q > 0 then q else -q)
  {
    var t := QuantityText(q);
    if q > 0 {
      var n := NatToString(q);
      assert t == "+" + n && t[1..] == n;
    } else if q < 0 {
      var n := NatToString(-q);
      assert t == "-" + n && t[1..] == n;
    } else {
      assert t == NatToString(0) == [DigitChar(0)];
      assert '0' != '+';
    }
  }
}
