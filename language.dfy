/** The interface language (frontend/src/contexts/LanguageContext.tsx): one
    state cell holding the current language, its initial value from the
    saved preference, and the lookup `t` with its fallback to the key. The
    two translation tables are a parameter; the saved preference is read
    by the caller. */
module LanguageContext {
  import opened Common

  /** The `Language` union. */
  predicate IsLanguage(l: string)
  {
    l == "fr" || l == "en"
  }

  type Tables = map<string, map<string, string>>

  /** The table has an entry for each language of the union. */
  predicate HasBothTables(translations: Tables)
  {
    "fr" in translations && "en" in translations
  }

  /** `savedLanguage || 'fr'`: the saved value is cast, not checked, so any
      non-empty saved string becomes the language. */
  function InitialLanguage(saved: Option<string>): string
  {
    if saved.Some? && saved.value != "" then saved.value else "fr"
  }

  /** `translations[language][key] || key`: `None` when the language has no
      table, where indexing the missing table throws; an empty translation
      is falsy and also falls back to the key; a key the table lacks but
      inherits from `Object.prototype` gives that inherited member. */
  function Translate(translations: Tables, language: string, key: string): Option<Lookup>
  {
    if language !in translations then None
    else
      var table := translations[language];
      if key in table && table[key] != "" then Some(Text(table[key]))
      else if key !in table && InheritedKey(key) then Some(Inherited(key))
      else Some(Text(key))
  }

  /** A language with a table translates every key: to its entry when the
      entry exists and is not empty, to the inherited member when the key
      is absent but names one, and to the key itself otherwise. */
  lemma TranslateSpec(translations: Tables, language: string, key: string)
    ensures Translate(translations, language, key).None? <==> language !in translations
    ensures language in translations && key in translations[language] && translations[language][key] != "" ==>
      Translate(translations, language, key) == Some(Text(translations[language][key]))
    ensures language in translations && key !in translations[language] && InheritedKey(key) ==>
      Translate(translations, language, key) == Some(Inherited(key))
    ensures language in translations && key in translations[language] && translations[language][key] == "" ==>
      Translate(translations, language, key) == Some(Text(key))
    ensures language in translations && key !in translations[language] && !InheritedKey(key) ==>
      Translate(translations, language, key) == Some(Text(key))
  {
  }

  /** Without a saved value the page starts in French; a saved value is
      used as it is. A saved "fr" or "en", or none, always gives a language
      whose lookups succeed; a saved value outside the union gives one with
      no table, whose lookups all fail. */
  lemma InitialLanguageSpec(translations: Tables, saved: Option<string>, key: string)
    requires HasBothTables(translations)
    ensures saved.None? || saved == Some("") ==> InitialLanguage(saved) == "fr"
    ensures saved.Some? && saved.value != "" ==> InitialLanguage(saved) == saved.value
    ensures saved.None? || (saved.Some? && IsLanguage(saved.value)) ==> Translate(translations, InitialLanguage(saved), key).Some?
    ensures saved.Some? && saved.value != "" && saved.value !in translations ==> Translate(translations, InitialLanguage(saved), key).None?
  {
  }

  /** The provider's state. */
  class LanguageProvider {
    const translations: Tables
    var language: string

    /** `useState` with the saved preference read from storage. */
    constructor(translations: Tables, saved: Option<string>)
      requires HasBothTables(translations)
      ensures this.translations == translations && language == InitialLanguage(saved)
    {
      this.translations := translations;
      language := InitialLanguage(saved);
    }

    /** `t(key)` for the current language. */
    function T(key: string): Option<Lookup>
      reads this
    {
      Translate(translations, language, key)
    }

    /** `setLanguage(l)`: later lookups use `l`'s table, and never fail. */
    method SetLanguage(l: string)
      requires IsLanguage(l) && HasBothTables(translations)
      modifies this`language
      ensures language == l
      ensures forall key :: T(key) == Translate(translations, l, key) && T(key).Some?
    {
      language := l;
    }
  }
}
