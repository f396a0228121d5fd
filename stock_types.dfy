/** The records the backend keeps and exchanges (backend/src/types/stock.types.ts).
    Money is held in integer cents; quantities are integers whose sign the
    backend routes never check; optional fields are `Option`s. */
module StockTypes {
  import opened Common

  /** The four collection codes of `CollectionType`. */
  const HIVER_2024: string := "HIVER_2024"
  const ETE_2024: string := "ETE_2024"
  const AUTOMNE_2024: string := "AUTOMNE_2024"
  const PRINTEMPS_2025: string := "PRINTEMPS_2025"

  /** A size/colour variant of an article with its stock. */
  datatype Declinaison = Declinaison(
    id: string,
    article_id: string,
    taille: string,
    couleur: string,
    quantite: int,
    quantite_min: int,
    code_barre: Option<string>)

  datatype ArticlePhoto = ArticlePhoto(
    id: string,
    article_id: string,
    url: string,
    alt_text: Option<string>,
    is_primary: bool,
    created_at: string)

  /** `ArticleWithDeclinaisons`; an absent `photos` list is the empty one. */
  datatype Article = Article(
    id: string,
    reference: string,
    nom: string,
    marque: Option<string>,
    collection: string,
    prix_achat: int,
    prix_vente: int,
    photos: seq<ArticlePhoto>,
    created_at: string,
    declinaisons: seq<Declinaison>)

  datatype PaymentMode = Especes | Carte | Cheque | Virement | MobileMoney

  datatype SaleStatus = EnAttente | Validee | Annulee

  /** One line of a recorded sale, with the article and variant display
      fields copied at sale time. */
  datatype VenteItem = VenteItem(
    id: string,
    vente_id: string,
    article_id: string,
    declinaison_id: string,
    article_nom: string,
    article_reference: string,
    taille: string,
    couleur: string,
    quantite: int,
    prix_unitaire: int,
    prix_total: int)

  datatype Vente = Vente(
    id: string,
    numero_vente: string,
    client_nom: Option<string>,
    client_email: Option<string>,
    client_telephone: Option<string>,
    items: seq<VenteItem>,
    montant_total: int,
    montant_paye: int,
    montant_rendu: int,
    mode_paiement: PaymentMode,
    statut: SaleStatus,
    notes: Option<string>,
    vendeur_id: string,
    created_at: string)

  /** One requested line of `CreateVenteRequest.items`. */
  datatype SaleLine = SaleLine(
    article_id: string,
    declinaison_id: string,
    quantite: int,
    prix_unitaire: int)

  /** `CreateVenteRequest`; `items` is `None` when the body has no items. */
  datatype CreateVenteRequest = CreateVenteRequest(
    client_nom: Option<string>,
    client_email: Option<string>,
    client_telephone: Option<string>,
    items: Option<seq<SaleLine>>,
    montant_paye: int,
    mode_paiement: PaymentMode,
    notes: Option<string>)

  /** A variant as `CreateArticleRequest` carries it (no id, no article id). */
  datatype DeclinaisonInput = DeclinaisonInput(
    taille: string,
    couleur: string,
    quantite: int,
    quantite_min: int,
    code_barre: Option<string>)

  datatype CreateArticleRequest = CreateArticleRequest(
    reference: string,
    nom: string,
    marque: Option<string>,
    collection: string,
    prix_achat: int,
    prix_vente: int,
    declinaisons: seq<DeclinaisonInput>)

  /** The body of an article update: each field of an article, present or
      not. The backend spreads the body over the stored article, so any of
      them may be overwritten; keys that are not article fields, and fields
      sent as `null`, are not represented. */
  datatype ArticlePatch = ArticlePatch(
    id: Option<string>,
    reference: Option<string>,
    nom: Option<string>,
    marque: Option<Option<string>>,
    collection: Option<string>,
    prix_achat: Option<int>,
    prix_vente: Option<int>,
    photos: Option<seq<ArticlePhoto>>,
    created_at: Option<string>,
    declinaisons: Option<seq<Declinaison>>)

  /** The flat stock-alert record the backend returns. */
  datatype StockAlert = StockAlert(
    article_id: string,
    reference: string,
    nom: string,
    marque: Option<string>,
    declinaison_id: string,
    taille: string,
    couleur: string,
    quantite: int,
    quantite_min: int,
    quantite_manquante: int)

  /** An error response: HTTP status and message. */
  datatype ApiError = ApiError(status: int, message: string)

  /** The clock readings one request makes: `now(k)` is the k-th
      `Date.now()` call of the handler, in milliseconds (two calls may read
      different values), then the current year and the ISO timestamp. */
  datatype Clock = Clock(now: nat -> nat, year: nat, iso: string)

  /** Clock readings i and j give the same millisecond. */
  predicate SameReading(clock: Clock, i: nat, j: nat)
  {
    clock.now(i) == clock.now(j)
  }
}
