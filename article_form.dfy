/** The article form (frontend/src/pages/ArticleForm.tsx): the two field
    arrays it edits in place (variants and photos), the field validators,
    and the bodies it sends to create or update an article. */
module ArticleForm {
  import opened Common
  import opened StockTypes
  import DemoCatalog

  datatype DeclinaisonForm = DeclinaisonForm(taille: string, couleur: string, quantite: int, quantite_min: int, code_barre: string)

  /** A photo slot; `file` is the name of the chosen file, if any. */
  datatype PhotoForm = PhotoForm(file: Option<string>, url: string, alt_text: string, is_primary: bool)

  /** The scalar fields of `ArticleFormData`. */
  datatype ArticleFields = ArticleFields(
    reference: string,
    nom: string,
    marque: string,
    collection: string,
    prix_achat: int,
    prix_vente: int)

  const DEFAULT_FIELDS: ArticleFields := ArticleFields("", "", "", HIVER_2024, 0, 0)

  /** The line `addDeclinaison` appends, also the only line of a new form. */
  const DEFAULT_DECLINAISON: DeclinaisonForm := DeclinaisonForm("M", "", 0, 5, "")

  /** `remove(index)` of a field array, and the `filter` by index of the
      photo list: the element at the index goes. Every caller passes the
      index of a rendered row, so the index is always inside the array. */
  function RemoveAt<T>(s: seq<T>, index: int): (r: seq<T>)
    requires 0 <= index < |s|
    ensures |r| == |s| - 1 && forall k :: 0 <= k < |r| ==> r[k] == s[if k < index then k else k + 1]
  {
    s[..index] + s[index + 1..]
  }

  // ---------------------------------------------------------------- photos

  /** No two photos are marked primary. */
  ghost predicate AtMostOnePrimary(photos: seq<PhotoForm>)
  {
    forall i, j :: 0 <= i < |photos| && 0 <= j < |photos| && photos[i].is_primary && photos[j].is_primary ==> i == j
  }

  /** The photos after `setPrimaryPhoto(index)`: each keeps its file, url and
      text, and is primary exactly when it is at `index`. */
  function MarkPrimary(photos: seq<PhotoForm>, index: int): (r: seq<PhotoForm>)
    ensures |r| == |photos|
  {
    seq(|photos|, i requires 0 <= i < |photos| => photos[i].(is_primary := i == index))
  }

  /** After `setPrimaryPhoto(index)` on an existing photo, that photo is the
      one primary photo; on an index outside the list, none is. Files, urls
      and texts do not change. */
  lemma MarkPrimarySpec(photos: seq<PhotoForm>, index: int)
    ensures var r := MarkPrimary(photos, index);
      && AtMostOnePrimary(r)
      && (forall i :: 0 <= i < |r| ==> (r[i].is_primary <==> i == index))
      && (forall i :: 0 <= i < |r| ==> r[i].file == photos[i].file && r[i].url == photos[i].url && r[i].alt_text == photos[i].alt_text)
      && (0 <= index < |photos| ==> r[index].is_primary)
  {
  }

  /** The slot `addPhoto` appends: primary exactly when it is the first. */
  function NewPhoto(photos: seq<PhotoForm>): PhotoForm
  {
    PhotoForm(None, "", "", |photos| == 0)
  }

  /** Appending a photo never creates a second primary; the first photo of
      an empty list becomes primary and later ones do not. */
  lemma AddPhotoKeepsOnePrimary(photos: seq<PhotoForm>)
    requires AtMostOnePrimary(photos)
    ensures AtMostOnePrimary(photos + [NewPhoto(photos)])
    ensures (photos + [NewPhoto(photos)])[|photos|].is_primary <==> photos == []
  {
  }

  /** Removing a photo never creates a second primary, but removing the
      primary one leaves the list without any. */
  lemma RemovePhotoKeepsOnePrimary(photos: seq<PhotoForm>, index: int)
    requires AtMostOnePrimary(photos) && 0 <= index < |photos|
    ensures AtMostOnePrimary(RemoveAt(photos, index))
    ensures photos[index].is_primary ==>
      forall k :: 0 <= k < |RemoveAt(photos, index)| ==> !RemoveAt(photos, index)[k].is_primary
  {
    var r := RemoveAt(photos, index);
    forall i, j | 0 <= i < |r| && 0 <= j < |r| && r[i].is_primary && r[j].is_primary ensures i == j {
      assert r[i] == photos[if i < index then i else i + 1];
      assert r[j] == photos[if j < index then j else j + 1];
    }
  }

  // ------------------------------------------------------------ form state

  /** The form's field arrays and scalar fields, as `useForm` holds them. */
  class FormState {
    var fields: ArticleFields
    var declinaisons: seq<DeclinaisonForm>
    var photos: seq<PhotoForm>

    /** The form always has a variant, and at most one primary photo. */
    ghost predicate Valid()
      reads this
    {
      |declinaisons| >= 1 && AtMostOnePrimary(photos)
    }

    /** The `defaultValues` of a new article. */
    constructor()
      ensures Valid()
      ensures fields == DEFAULT_FIELDS && declinaisons == [DEFAULT_DECLINAISON] && photos == []
    {
      fields := DEFAULT_FIELDS;
      declinaisons := [DEFAULT_DECLINAISON];
      photos := [];
    }

    /** `addDeclinaison` */
    method AddDeclinaison()
      requires Valid()
      modifies this`declinaisons
      ensures Valid()
      ensures declinaisons == old(declinaisons) + [DEFAULT_DECLINAISON]
    {
      declinaisons := declinaisons + [DEFAULT_DECLINAISON];
    }

    /** `removeDeclinaison(index)`: only a form with more than one variant
        loses one, so the list is never emptied. */
    method RemoveDeclinaison(index: int)
      requires Valid() && 0 <= index < |declinaisons|
      modifies this`declinaisons
      ensures Valid()
      ensures old(|declinaisons|) > 1 ==> declinaisons == RemoveAt(old(declinaisons), index)
      ensures old(|declinaisons|) <= 1 ==> declinaisons == old(declinaisons)
    {
      if |declinaisons| > 1 {
        declinaisons := RemoveAt(declinaisons, index);
      }
    }

    /** `addPhoto` */
    method AddPhoto()
      requires Valid()
      modifies this`photos
      ensures Valid()
      ensures photos == old(photos) + [NewPhoto(old(photos))]
    {
      AddPhotoKeepsOnePrimary(photos);
      photos := photos + [NewPhoto(photos)];
    }

    /** `removePhoto(index)` */
    method RemovePhoto(index: int)
      requires Valid() && 0 <= index < |photos|
      modifies this`photos
      ensures Valid()
      ensures photos == RemoveAt(old(photos), index)
    {
      RemovePhotoKeepsOnePrimary(photos, index);
      photos := RemoveAt(photos, index);
    }

    /** `setPrimaryPhoto(index)`: one `setValue` per photo, in order. */
    method SetPrimaryPhoto(index: int)
      requires Valid()
      modifies this`photos
      ensures Valid()
      ensures photos == MarkPrimary(old(photos), index)
    {
      ghost var before := photos;
      for i := 0 to |photos|
        invariant |photos| == |before|
        invariant forall k :: 0 <= k < i ==> photos[k] == before[k].(is_primary := k == index)
        invariant forall k :: i <= k < |photos| ==> photos[k] == before[k]
      {
        photos := photos[i := photos[i].(is_primary := i == index)];
      }
      MarkPrimarySpec(before, index);
    }

    /** The upload handler's `onload`: the slot takes the file, the data
        url read from it and the file name as its text. The read itself is
        not modelled; its result is the `dataUrl` parameter. */
    method UploadPhoto(index: int, fileName: string, dataUrl: string)
      requires Valid() && 0 <= index < |photos|
      modifies this`photos
      ensures Valid()
      ensures photos == old(photos)[index := old(photos)[index].(file := Some(fileName), url := dataUrl, alt_text := fileName)]
    {
      photos := photos[index := photos[index].(file := Some(fileName), url := dataUrl, alt_text := fileName)];
    }
  }

  // ------------------------------------------------------------ validation

  const REFERENCE_REQUIRED: string := "La référence est requise"
  const REFERENCE_PATTERN: string := "La référence ne peut contenir que des lettres majuscules, chiffres, tirets et underscores"
  const NOM_REQUIRED: string := "Le nom est requis"
  const NOM_TOO_SHORT: string := "Le nom doit contenir au moins 2 caractères"
  const COLLECTION_REQUIRED: string := "La collection est requise"
  const PRIX_ACHAT_NEGATIVE: string := "Le prix d'achat doit être positif"
  const PRIX_VENTE_NEGATIVE: string := "Le prix de vente doit être positif"
  const TAILLE_REQUIRED: string := "La taille est requise"
  const COULEUR_REQUIRED: string := "La couleur est requise"
  const QUANTITE_NEGATIVE: string := "La quantité doit être positive"
  const SEUIL_NEGATIVE: string := "Le seuil minimum doit être positif"

  /** A character of the class `[A-Z0-9-_]`. */
  predicate ReferenceChar(c: char)
  {
    ('A' <= c <= 'Z') || ('0' <= c <= '9') || c == '-' || c == '_'
  }

  /** `/^[A-Z0-9-_]+$/`, matched one character at a time. */
  function MatchesReferencePattern(s: string): bool
  {
    if s == [] then false
    else ReferenceChar(s[0]) && (|s| == 1 || MatchesReferencePattern(s[1..]))
  }

  /** The pattern accepts exactly the non-empty strings made of capital
      letters, digits, dashes and underscores. */
  lemma {:induction false} ReferencePatternSpec(s: string)
    ensures MatchesReferencePattern(s) <==> s != [] && forall i :: 0 <= i < |s| ==> ReferenceChar(s[i])
  {
    if |s| > 1 {
      ReferencePatternSpec(s[1..]);
      if forall i :: 0 <= i < |s[1..]| ==> ReferenceChar(s[1..][i]) {
        forall i | 0 <= i < |s| && i > 0 ensures ReferenceChar(s[i]) {
          assert s[i] == s[1..][i - 1];
        }
      }
    }
  }

  /** The reference field's rules, `required` before `pattern`; `None` when
      the field is accepted. */
  function ValidateReference(s: string): Option<string>
  {
    if s == "" then Some(REFERENCE_REQUIRED)
    else if !MatchesReferencePattern(s) then Some(REFERENCE_PATTERN)
    else None
  }

  /** A reference is accepted exactly when it is non-empty and made of
      A-Z, 0-9, `-` and `_`; an empty one gets the "required" message and
      any other rejected one the pattern message. */
  lemma ValidateReferenceSpec(s: string)
    ensures ValidateReference(s).None? <==> s != [] && forall i :: 0 <= i < |s| ==> ReferenceChar(s[i])
    ensures s == [] ==> ValidateReference(s) == Some(REFERENCE_REQUIRED)
    ensures s != [] && ValidateReference(s).Some? ==>
      ValidateReference(s) == Some(REFERENCE_PATTERN) && exists i :: 0 <= i < |s| && !ReferenceChar(s[i])
  {
    ReferencePatternSpec(s);
  }

  function ValidateNom(s: string): (r: Option<string>)
    ensures r.None? <==> |s| >= 2
    ensures r.Some? ==> r.value == (if s == [] then NOM_REQUIRED else NOM_TOO_SHORT)
  {
    if s == "" then Some(NOM_REQUIRED)
    else if |s| < 2 then Some(NOM_TOO_SHORT)
    else None
  }

  function Required(s: string, message: string): (r: Option<string>)
    ensures r.None? <==> s != []
    ensures r.Some? ==> r.value == message
  {
    if s == "" then Some(message) else None
  }

  /** A numeric field with `min: 0`. */
  function NonNegative(x: int, message: string): (r: Option<string>)
    ensures r.None? <==> x >= 0
    ensures r.Some? ==> r.value == message
  {
    if x < 0 then Some(message) else None
  }

  /** The messages for one variant line, in field order. */
  function DeclinaisonErrors(d: DeclinaisonForm): seq<Option<string>>
  {
    [Required(d.taille, TAILLE_REQUIRED), Required(d.couleur, COULEUR_REQUIRED),
     NonNegative(d.quantite, QUANTITE_NEGATIVE), NonNegative(d.quantite_min, SEUIL_NEGATIVE)]
  }

  /** The messages for the scalar fields, in field order. */
  function FieldErrors(f: ArticleFields): seq<Option<string>>
  {
    [ValidateReference(f.reference), ValidateNom(f.nom), Required(f.collection, COLLECTION_REQUIRED),
     NonNegative(f.prix_achat, PRIX_ACHAT_NEGATIVE), NonNegative(f.prix_vente, PRIX_VENTE_NEGATIVE)]
  }

  predicate NoErrors(errs: seq<Option<string>>)
  {
    forall i :: 0 <= i < |errs| ==> errs[i].None?
  }

  /** `handleSubmit` calls `onSubmit` only when no field has an error. */
  predicate FormAccepted(f: ArticleFields, ds: seq<DeclinaisonForm>)
  {
    NoErrors(FieldErrors(f)) && forall k :: 0 <= k < |ds| ==> NoErrors(DeclinaisonErrors(ds[k]))
  }

  /** An accepted form has a well-formed reference, a name of two or more
      characters, a collection, prices and quantities of zero or more, and
      a size and a colour on every line; and any form with those is
      accepted. */
  lemma FormAcceptedSpec(f: ArticleFields, ds: seq<DeclinaisonForm>)
    ensures FormAccepted(f, ds) <==>
      && f.reference != [] && (forall i :: 0 <= i < |f.reference| ==> ReferenceChar(f.reference[i]))
      && |f.nom| >= 2 && f.collection != []
      && f.prix_achat >= 0 && f.prix_vente >= 0
      && (forall k :: 0 <= k < |ds| ==>
            ds[k].taille != [] && ds[k].couleur != [] && ds[k].quantite >= 0 && ds[k].quantite_min >= 0)
  {
    ValidateReferenceSpec(f.reference);
    var fe := FieldErrors(f);
    assert fe[0] == ValidateReference(f.reference) && fe[1] == ValidateNom(f.nom);
    assert fe[2] == Required(f.collection, COLLECTION_REQUIRED);
    assert fe[3] == NonNegative(f.prix_achat, PRIX_ACHAT_NEGATIVE) && fe[4] == NonNegative(f.prix_vente, PRIX_VENTE_NEGATIVE);
    if forall k :: 0 <= k < |ds| ==> ds[k].taille != [] && ds[k].couleur != [] && ds[k].quantite >= 0 && ds[k].quantite_min >= 0 {
      forall k | 0 <= k < |ds| ensures NoErrors(DeclinaisonErrors(ds[k])) {
      }
    }
    if FormAccepted(f, ds) {
      forall k | 0 <= k < |ds|
        ensures ds[k].taille != [] && ds[k].couleur != [] && ds[k].quantite >= 0 && ds[k].quantite_min >= 0
      {
        var e := DeclinaisonErrors(ds[k]);
        assert e[0].None? && e[1].None? && e[2].None? && e[3].None?;
      }
    }
  }

  /** A fresh form is refused: its reference, name and colour are empty. */
  lemma DefaultFormRefused()
    ensures !FormAccepted(DEFAULT_FIELDS, [DEFAULT_DECLINAISON])
    ensures FieldErrors(DEFAULT_FIELDS)[0] == Some(REFERENCE_REQUIRED)
    ensures FieldErrors(DEFAULT_FIELDS)[1] == Some(NOM_REQUIRED)
  {
    assert FieldErrors(DEFAULT_FIELDS)[0].Some?;
  }

  // --------------------------------------------------------------- payload

  /** `code_barre || undefined` */
  function ToInput(d: DeclinaisonForm): DeclinaisonInput
  {
    DeclinaisonInput(d.taille, d.couleur, d.quantite, d.quantite_min, OrAbsent(d.code_barre))
  }

  /** The body of the create request; the photos are not part of it. */
  function CreatePayload(f: ArticleFields, ds: seq<DeclinaisonForm>): (r: CreateArticleRequest)
    ensures |r.declinaisons| == |ds|
  {
    CreateArticleRequest(f.reference, f.nom, Some(f.marque), f.collection, f.prix_achat, f.prix_vente,
                         seq(|ds|, k requires 0 <= k < |ds| => ToInput(ds[k])))
  }

  /** The body of the update request, as the fields the backend spreads
      over the stored article. */
  function UpdatePayload(f: ArticleFields): ArticlePatch
  {
    ArticlePatch(None, None, Some(f.nom), Some(Some(f.marque)), Some(f.collection), Some(f.prix_achat), Some(f.prix_vente),
                 None, None, None)
  }

  /** An update changes the name, brand, collection and prices and never
      the id, reference, photos, creation date or variants. An empty brand
      field is sent, and stored, as the empty string. */
  lemma UpdatePayloadSpec(a: Article, f: ArticleFields)
    ensures var b := DemoCatalog.ApplyPatch(a, UpdatePayload(f));
      && b.id == a.id && b.reference == a.reference && b.photos == a.photos
      && b.created_at == a.created_at && b.declinaisons == a.declinaisons
      && b.nom == f.nom && b.marque == Some(f.marque) && b.collection == f.collection
      && b.prix_achat == f.prix_achat && b.prix_vente == f.prix_vente
  {
  }

  /** The article the backend creates from the form has the form's fields
      and one variant per line, in order, with an empty barcode stored as
      absent; it has no photos whatever photos the form held. */
  lemma CreatedArticleSpec(f: ArticleFields, ds: seq<DeclinaisonForm>, clock: Clock)
    ensures var a := DemoCatalog.NewArticle(CreatePayload(f, ds), clock);
      && a.reference == f.reference && a.nom == f.nom && a.marque == Some(f.marque)
      && a.collection == f.collection && a.prix_achat == f.prix_achat && a.prix_vente == f.prix_vente
      && a.photos == []
      && |a.declinaisons| == |ds|
      && forall k :: 0 <= k < |ds| ==>
           && a.declinaisons[k].taille == ds[k].taille && a.declinaisons[k].couleur == ds[k].couleur
           && a.declinaisons[k].quantite == ds[k].quantite && a.declinaisons[k].quantite_min == ds[k].quantite_min
           && (a.declinaisons[k].code_barre.None? <==> ds[k].code_barre == [])
           && (ds[k].code_barre != [] ==> a.declinaisons[k].code_barre == Some(ds[k].code_barre))
  {
    DemoCatalog.NewArticleShape(CreatePayload(f, ds), clock);
  }
}
