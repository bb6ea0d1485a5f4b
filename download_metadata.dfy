/**
 * The entry parser of the fastlane script that downloads App Store metadata
 * from GlotPress. The exported JSON object is a list of (key, value) entries;
 * a key is "<selector>\u{4}<original English text>" and a value is the array
 * of translations. Each accepted entry sets one of five metadata fields.
 */
module DownloadMetadata {
  import opened Wrappers

  const TitleKey: string := "app_store_title"
  const SubtitleKey: string := "app_store_subtitle"
  const WhatsNewKey: string := "v4.43-whats-new"
  const DescriptionKey: string := "app_store_desc"
  const KeywordsKey: string := "app_store_keywords"

  /** The character (U+0004) that separates a key's selector from the original text. */
  const Separator: char := '\U{4}'

  /** The GlotPress code whose metadata is the untranslated source text. */
  const SourceLanguage: string := "en-us"

  /** App Store folder name to GlotPress language code. */
  const Languages: map<string, string> := map[
    "ar-SA" := "ar", "de-DE" := "de", "default" := "en-us", "en-US" := "en-us",
    "es-ES" := "es", "fr-FR" := "fr", "id" := "id", "it" := "it", "ja" := "ja",
    "ko" := "ko", "nl-NL" := "nl", "pt-BR" := "pt-br", "ru" := "ru", "sv" := "sv",
    "tr" := "tr", "zh-Hans" := "zh-cn", "zh-Hant" := "zh-tw"]

  /**
   * The code used in the export request: "en-us" is not a GlotPress project
   * language, so its entries are fetched from the "es" export instead.
   */
  function LanguageCodeOverride(languageCode: string): (r: string)
    ensures r != SourceLanguage
    ensures languageCode == SourceLanguage ==> r == "es"
    ensures languageCode != SourceLanguage ==> r == languageCode
  {
    if languageCode == SourceLanguage then "es" else languageCode
  }

  /** Only the two English folders take the source text. */
  lemma EnglishFolders(folder: string)
    requires folder in Languages
    ensures Languages[folder] == SourceLanguage <==> folder == "default" || folder == "en-US"
  {
  }

  /** What `JSONSerialization` produces, as far as the parser can tell it apart. */
  datatype Json =
    | JNull
    | JBool(b: bool)
    | JNumber(n: int)
    | JString(s: string)
    | JArray(elements: seq<Json>)
    | JObject(members: seq<(string, Json)>)

  /** One (key, value) pair of the exported dictionary. */
  datatype Entry = Entry(key: string, value: Json)

  datatype Field = Title | Subtitle | WhatsNew | Keywords | StoreDescription

  /** The five optional metadata values the script collects. */
  datatype Metadata = Metadata(
    title: Option<string>,
    subtitle: Option<string>,
    whatsNew: Option<string>,
    keywords: Option<string>,
    storeDescription: Option<string>)

  const NoMetadata: Metadata := Metadata(None, None, None, None, None)

  function Get(md: Metadata, f: Field): Option<string> {
    match f
    case Title => md.title
    case Subtitle => md.subtitle
    case WhatsNew => md.whatsNew
    case Keywords => md.keywords
    case StoreDescription => md.storeDescription
  }

  /** Set one field to `v`. */
  function Set(md: Metadata, f: Field, v: string): (r: Metadata)
    ensures Get(r, f) == Some(v)
    ensures forall g :: g != f ==> Get(r, g) == Get(md, g)
  {
    match f
    case Title => md.(title := Some(v))
    case Subtitle => md.(subtitle := Some(v))
    case WhatsNew => md.(whatsNew := Some(v))
    case Keywords => md.(keywords := Some(v))
    case StoreDescription => md.(storeDescription := Some(v))
  }

  /** The GlotPress selector of each field. */
  function SelectorOf(f: Field): string {
    match f
    case Title => TitleKey
    case Subtitle => SubtitleKey
    case WhatsNew => WhatsNewKey
    case Keywords => KeywordsKey
    case StoreDescription => DescriptionKey
  }

  /** The `switch` on the selector: a known selector names its field, any other none. */
  function FieldFor(selector: string): (r: Option<Field>)
    ensures r.Some? ==> SelectorOf(r.value) == selector
    ensures r.None? ==> forall f :: SelectorOf(f) != selector
  {
    if selector == TitleKey then Some(Title)
    else if selector == SubtitleKey then Some(Subtitle)
    else if selector == KeywordsKey then Some(Keywords)
    else if selector == WhatsNewKey then Some(WhatsNew)
    else if selector == DescriptionKey then Some(StoreDescription)
    else None
  }

  /** Each field's selector leads back to it: the five selectors are distinct. */
  lemma FieldForSelector(f: Field)
    ensures FieldFor(SelectorOf(f)) == Some(f)
  {
  }

  /** `String.firstIndex(of:)`. */
  function FirstIndexOf(s: string, c: char): (r: Option<nat>)
    ensures r.None? <==> c !in s
    ensures r.Some? ==> r.value < |s| && s[r.value] == c && c !in s[..r.value]
  {
    if |s| == 0 then None
    else if s[0] == c then Some(0)
    else
      match FirstIndexOf(s[1..], c)
      case None => None
      case Some(i) => Some(i + 1)
  }

  /** The cast `value as? [String]`: an array all of whose elements are strings. */
  function AsStringArray(v: Json): (r: Option<seq<string>>)
    ensures r.Some? <==> v.JArray? && forall i :: 0 <= i < |v.elements| ==> v.elements[i].JString?
    ensures r.Some? ==> |r.value| == |v.elements| && forall i :: 0 <= i < |r.value| ==> v.elements[i] == JString(r.value[i])
  {
    if v.JArray? then Strings(v.elements) else None
  }

  function Strings(items: seq<Json>): (r: Option<seq<string>>)
    ensures r.Some? <==> forall i :: 0 <= i < |items| ==> items[i].JString?
    ensures r.Some? ==> |r.value| == |items| && forall i :: 0 <= i < |r.value| ==> items[i] == JString(r.value[i])
  {
    if items == [] then Some([])
    else if !items[0].JString? then None
    else
      match Strings(items[1..])
      case None => None
      case Some(rest) => Some([items[0].s] + rest)
  }

  /** What an accepted entry contributes: its selector and its translation. */
  datatype Translation = Translation(selector: string, text: string)

  /**
   * The per-entry part of the `forEach` closure. An entry is skipped when its
   * key has no separator, or when its value is not a non-empty array of
   * strings. Otherwise the selector is the key before the first separator and
   * the translation is, for the source language, the key after that separator
   * and, for any other language, the first element of the value.
   */
  function EntryTranslation(languageCode: string, e: Entry): (r: Option<Translation>)
    ensures r.None? <==>
      Separator !in e.key || AsStringArray(e.value).None? || AsStringArray(e.value).value == []
    ensures r.Some? ==>
      var n := |r.value.selector|;
      && n < |e.key| && e.key[..n] == r.value.selector && e.key[n] == Separator
      && Separator !in r.value.selector
      && r.value.text == if languageCode == SourceLanguage then e.key[n + 1..] else AsStringArray(e.value).value[0]
  {
    match FirstIndexOf(e.key, Separator)
    case None => None
    case Some(index) =>
      match AsStringArray(e.value)
      case None => None
      case Some(values) =>
        if values == [] then None
        else
          var original := e.key[index + 1..];
          Some(Translation(e.key[..index], if languageCode == SourceLanguage then original else values[0]))
  }

  /** The entry is accepted and its selector names field `f`. */
  predicate Targets(languageCode: string, e: Entry, f: Field) {
    var t := EntryTranslation(languageCode, e);
    t.Some? && FieldFor(t.value.selector) == Some(f)
  }

  /** One step of the closure: the targeted field, if any, takes the translation; nothing else changes. */
  function ApplyEntry(languageCode: string, md: Metadata, e: Entry): (r: Metadata)
    ensures forall f :: Targets(languageCode, e, f) ==> Get(r, f) == Some(EntryTranslation(languageCode, e).value.text)
    ensures forall f :: !Targets(languageCode, e, f) ==> Get(r, f) == Get(md, f)
  {
    match EntryTranslation(languageCode, e)
    case None => md
    case Some(t) =>
      match FieldFor(t.selector)
      case None => md
      case Some(f) => Set(md, f, t.text)
  }

  /** The metadata after processing `es` in order, starting from all fields nil. */
  function Collect(languageCode: string, es: seq<Entry>): Metadata
    decreases |es|
  {
    if es == [] then NoMetadata
    else ApplyEntry(languageCode, Collect(languageCode, es[..|es| - 1]), es[|es| - 1])
  }

  /** Entry `i` is the last entry of `es` that targets `f`. */
  predicate LastTarget(languageCode: string, es: seq<Entry>, i: nat, f: Field) {
    && i < |es| && Targets(languageCode, es[i], f)
    && forall j :: i < j < |es| ==> !Targets(languageCode, es[j], f)
  }

  /**
   * A field stays nil exactly when no accepted entry targets it; otherwise the
   * last accepted entry that targets it decides its value.
   */
  lemma {:induction false} CollectLastWins(languageCode: string, es: seq<Entry>, f: Field)
    ensures Get(Collect(languageCode, es), f).None? <==>
      forall i :: 0 <= i < |es| ==> !Targets(languageCode, es[i], f)
    ensures forall i: nat :: LastTarget(languageCode, es, i, f) ==>
      Get(Collect(languageCode, es), f) == Some(EntryTranslation(languageCode, es[i]).value.text)
    decreases |es|
  {
    if es != [] {
      var n := |es| - 1;
      var init := es[..n];
      var e := es[n];
      assert Collect(languageCode, es) == ApplyEntry(languageCode, Collect(languageCode, init), e);
      CollectLastWins(languageCode, init, f);
      assert forall i :: 0 <= i < n ==> init[i] == es[i];
      if Targets(languageCode, e, f) {
        assert LastTarget(languageCode, es, n, f);
        forall i: nat | LastTarget(languageCode, es, i, f) ensures i == n {
        }
      } else {
        forall i: nat | LastTarget(languageCode, es, i, f) ensures LastTarget(languageCode, init, i, f) {
          assert i != n;
          forall j | i < j < n ensures !Targets(languageCode, init[j], f) {
            assert init[j] == es[j];
          }
        }
      }
    }
  }

  /**
   * The `jsonDict.forEach` loop over the entries in iteration order, updating
   * the five optional variables as the script does.
   */
  method ParseExport(languageCode: string, entries: seq<Entry>) returns (md: Metadata)
    ensures md == Collect(languageCode, entries)
  {
    var title: Option<string> := None;
    var subtitle: Option<string> := None;
    var whatsNew: Option<string> := None;
    var keywords: Option<string> := None;
    var storeDescription: Option<string> := None;
    var i := 0;
    while i < |entries|
      invariant 0 <= i <= |entries|
      invariant Metadata(title, subtitle, whatsNew, keywords, storeDescription) == Collect(languageCode, entries[..i])
    {
      var key := entries[i].key;
      assert entries[..i + 1][..i] == entries[..i];
      var index := FirstIndexOf(key, Separator);
      if index.Some? {
        var keyFirstPart := key[..index.value];
        var value := AsStringArray(entries[i].value);
        if value.Some? && |value.value| > 0 {
          var firstValue := value.value[0];
          var originalLanguage := key[index.value + 1..];
          var translation := if languageCode == SourceLanguage then originalLanguage else firstValue;
          if keyFirstPart == TitleKey {
            title := Some(translation);
          } else if keyFirstPart == SubtitleKey {
            subtitle := Some(translation);
          } else if keyFirstPart == KeywordsKey {
            keywords := Some(translation);
          } else if keyFirstPart == WhatsNewKey {
            whatsNew := Some(translation);
          } else if keyFirstPart == DescriptionKey {
            storeDescription := Some(translation);
          }
        }
      }
      i := i + 1;
    }
    assert entries[..i] == entries;
    md := Metadata(title, subtitle, whatsNew, keywords, storeDescription);
  }

  /** The file each field is written to. */
  function FileName(f: Field): string {
    match f
    case Title => "name.txt"
    case Subtitle => "subtitle.txt"
    case WhatsNew => "release_notes.txt"
    case Keywords => "keywords.txt"
    case StoreDescription => "description.txt"
  }

  datatype OutputFile = OutputFile(name: string, contents: string)

  function FileFor(md: Metadata, f: Field): seq<OutputFile> {
    match Get(md, f)
    case None => []
    case Some(v) => [OutputFile(FileName(f), v)]
  }

  /**
   * The files written into the language folder, in the script's order: one
   * per non-nil field, under that field's fixed name.
   */
  function OutputFiles(md: Metadata): (r: seq<OutputFile>)
    ensures forall f, v :: OutputFile(FileName(f), v) in r <==> Get(md, f) == Some(v)
    ensures forall o :: o in r ==> exists f :: o.name == FileName(f) && Get(md, f) == Some(o.contents)
  {
    FileFor(md, Title) + FileFor(md, Subtitle) + FileFor(md, WhatsNew)
      + FileFor(md, Keywords) + FileFor(md, StoreDescription)
  }
}
