/** The translator: a default locale, the list of supported locales, and
    the translations of each locale. Loading translation files from disk is
    not part of this model. */
module I18n {
  import opened Common
  import GoStrings
  import Str
  import Helpers
  import opened Translations

  const ErrInvalidTranslation := Msg("invalid translations")
  const ErrTranslationAlreadyExists := Msg("translation already exists")
  const ErrNoTranslationFound := Msg("no translations found")

  class I18N {
    var locale: string
    var filesExt: string
    var translations: map<string, Translation>
    var supportedLocales: seq<string>

    /** `New`. */
    constructor ()
      ensures locale == "en" && supportedLocales == ["en"] && filesExt == "json"
      ensures translations == map[]
    {
      locale := "en";
      translations := map[];
      supportedLocales := ["en"];
      filesExt := "json";
    }

    /** `AddSupportedLocale`: appended, then duplicates dropped, first
        occurrences kept in order. */
    method AddSupportedLocale(l: string)
      modifies this`supportedLocales
      ensures supportedLocales == Str.Unique(old(supportedLocales) + [l])
      ensures l in supportedLocales && Str.NoDuplicates(supportedLocales)
      ensures forall x :: x in supportedLocales <==> x in old(supportedLocales) || x == l
    {
      supportedLocales := Str.UniqueSlice(supportedLocales + [l]);
      Str.UniqueSpec(old(supportedLocales) + [l]);
    }

    /** `SetDefaultLocale`: the locale also becomes supported. */
    method SetDefaultLocale(lang: string)
      modifies this`locale, this`supportedLocales
      ensures locale == lang
      ensures supportedLocales == Str.Unique(old(supportedLocales) + [lang])
      ensures lang in supportedLocales
    {
      locale := lang;
      AddSupportedLocale(lang);
    }

    function GetDefaultLocale(): (l: string)
      reads this
      ensures l == locale
    {
      locale
    }

    /** `SetFilesExtension`: one leading "." is dropped. */
    method SetFilesExtension(ext: string)
      modifies this`filesExt
      ensures filesExt == GoStrings.TrimPrefix(ext, ".")
      ensures GoStrings.HasPrefix(ext, ".") ==> "." + filesExt == ext
    {
      filesExt := GoStrings.TrimPrefix(ext, ".");
    }

    method SetSupportedLocales(l: seq<string>)
      modifies this`supportedLocales
      ensures supportedLocales == l
    {
      supportedLocales := l;
    }

    /** `RemoveSupportedLocale`: the first occurrence goes. */
    method RemoveSupportedLocale(l: string)
      modifies this`supportedLocales
      ensures supportedLocales == Helpers.RemoveItem(old(supportedLocales), l)
    {
      var index := 0;
      while index < |supportedLocales|
        invariant 0 <= index <= |supportedLocales|
        invariant supportedLocales == old(supportedLocales)
        invariant l !in supportedLocales[..index]
      {
        if supportedLocales[index] == l {
          assert Helpers.FirstIndexOf(supportedLocales, l) == index;
          supportedLocales := supportedLocales[..index] + supportedLocales[index + 1..];
          return;
        }
        assert supportedLocales[..index + 1] == supportedLocales[..index] + [supportedLocales[index]];
        index := index + 1;
      }
      assert supportedLocales[..index] == supportedLocales;
    }

    function GetSupportedLocales(): (ls: seq<string>)
      reads this
      ensures ls == supportedLocales
    {
      supportedLocales
    }

    /** `IsSupportedLocale`: the linear search. */
    method IsSupportedLocale(l: string) returns (b: bool)
      ensures b <==> l in supportedLocales
    {
      var k := 0;
      while k < |supportedLocales|
        invariant 0 <= k <= |supportedLocales|
        invariant l !in supportedLocales[..k]
      {
        if supportedLocales[k] == l {
          return true;
        }
        assert supportedLocales[..k + 1] == supportedLocales[..k] + [supportedLocales[k]];
        k := k + 1;
      }
      assert supportedLocales[..k] == supportedLocales;
      return false;
    }

    /** `getTranslation`. */
    function GetTranslation(l: string): (t: Translation?)
      reads this
      ensures t == null <==> l !in translations
      ensures t != null ==> t == translations[l]
    {
      if l in translations then translations[l] else null
    }

    /** `AddTranslation`: nil and an already known locale are refused. */
    method AddTranslation(t: Translation?) returns (err: Option<Error>)
      modifies this`translations
      ensures t == null ==> err == Some(ErrInvalidTranslation) && translations == old(translations)
      ensures t != null && t.locale in old(translations) ==>
        err == Some(ErrTranslationAlreadyExists) && translations == old(translations)
      ensures t != null && t.locale !in old(translations) ==>
        err.None? && translations == old(translations)[t.locale := t]
    {
      if t == null {
        return Some(ErrInvalidTranslation);
      }
      var known := GetTranslation(t.locale);
      if known != null {
        return Some(ErrTranslationAlreadyExists);
      }
      translations := translations[t.locale := t];
      return None;
    }

    /** `TranslateInLocale`: a locale without translations returns the text. */
    method TranslateInLocale(text: string, l: string, args: seq<Option<string>>) returns (r: string)
      ensures l !in translations ==> r == text
      ensures l in translations ==>
        var t := translations[l];
        (text !in t.translations ==> r == text) &&
        (text in t.translations && !(|args| > 0 && args[0].Some?) ==> r == t.translations[text]) &&
        (text in t.translations && |args| > 0 && args[0].Some? ==>
          var s := t.translations[text];
          r == Substituted(s, Matches(s), args, |Matches(s)|))
    {
      var t := GetTranslation(l);
      if t == null {
        return text;
      }
      r := t.Translate(text, args);
    }

    /** `Translate`: in the default locale. */
    method Translate(text: string, args: seq<Option<string>>) returns (r: string)
      ensures locale !in translations ==> r == text
      ensures locale in translations ==>
        var t := translations[locale];
        (text !in t.translations ==> r == text) &&
        (text in t.translations && !(|args| > 0 && args[0].Some?) ==> r == t.translations[text]) &&
        (text in t.translations && |args| > 0 && args[0].Some? ==>
          var s := t.translations[text];
          r == Substituted(s, Matches(s), args, |Matches(s)|))
    {
      r := TranslateInLocale(text, locale, args);
    }
  }
}
