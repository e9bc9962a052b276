/** The content pipeline of the root component: load the ten YAML documents
    all-or-nothing, key them by file name, and resolve every record for the
    active language. */
module App {
  import opened Wrappers
  import opened AppContext

  /** A parsed YAML value, as JavaScript sees it. `Undefined` also stands for
      an empty document. Numbers are integers in this model. */
  datatype Value =
    | Undefined
    | Null
    | Bool(b: bool)
    | Num(n: int)
    | Str(s: string)
    | List(items: seq<Value>)
    | Object(fields: map<string, Value>)

  /** A resolved record: field name to value. */
  type Record = map<string, Value>

  /** JavaScript truthiness. */
  predicate ValueTruthy(v: Value) {
    match v
    case Undefined => false
    case Null => false
    case Bool(b) => b
    case Num(n) => n != 0
    case Str(s) => s != ""
    case List(_) => true
    case Object(_) => true
  }

  function LocaleKey(lang: Language): string {
    if lang == En then "en" else "zh"
  }

  const LocaleKeys: set<string> := {"en", "zh"}

  /** `{ ...v }` for the values the data files hold: an object's own fields;
      `undefined`, `null`, booleans and numbers spread nothing. */
  function Spread(v: Value): Record {
    if v.Object? then v.fields else map[]
  }

  /** `v[key]`. */
  function Member(v: Value, key: string): Value {
    if v.Object? && key in v.fields then v.fields[key] else Undefined
  }

  /** The override record for `lang`: the spread of `item[lang]`. */
  function Localized(item: Value, lang: Language): Record {
    Spread(Member(item, LocaleKey(lang)))
  }

  /** `pickLanguage`: the item's fields without the two locale keys, then the
      active locale's fields on top. */
  function PickLanguage(item: Value, lang: Language): (r: Record)
    ensures !ValueTruthy(item) ==> r == map[]
    ensures forall k :: k in Localized(item, lang) ==> k in r && r[k] == Localized(item, lang)[k]
    ensures forall k :: k in Spread(item) && k !in LocaleKeys && k !in Localized(item, lang) ==>
      k in r && r[k] == Spread(item)[k]
    ensures forall k :: k in r ==> k in Localized(item, lang) || (k in Spread(item) && k !in LocaleKeys)
  {
    if !ValueTruthy(item) then map[]
    else
      var bilingual := Localized(item, lang);
      var common := Spread(item) - LocaleKeys;
      common + bilingual
  }

  /** A field found only under the other locale does not survive, and no
      locale key survives unless the active override itself has one. */
  lemma PickLanguageDropsOtherLocale(item: Value, lang: Language, k: string)
    requires k !in Localized(item, lang)
    requires k in LocaleKeys || k !in Spread(item)
    ensures k !in PickLanguage(item, lang)
  {
  }

  /** Only the item's own `en`/`zh` are removed: a locale key inside the
      active override is spread back in, so a resolved record can still carry one. */
  lemma PickLanguageKeepsOverrideLocaleKey()
    ensures "en" in PickLanguage(Object(map["en" := Object(map["en" := Str("x")])]), En)
  {
  }

  /** Resolving an already resolved record changes nothing, as long as the
      active override carried no locale keys of its own. */
  lemma {:induction false} PickLanguageSettles(item: Value, lang: Language)
    requires Localized(item, lang).Keys !! LocaleKeys
    ensures PickLanguage(Object(PickLanguage(item, lang)), lang) == PickLanguage(item, lang)
  {
    var r := PickLanguage(item, lang);
    assert LocaleKey(lang) !in r;
    assert Localized(Object(r), lang) == map[];
    assert r.Keys !! LocaleKeys;
    assert r - LocaleKeys == r;
  }

  /** The record `{name: "Shared", en: {title: "Engineer"}, zh: {title: "工程师"}}`. */
  function SampleEntity(): Value {
    Object(map[
      "name" := Str("Shared"),
      "en" := Object(map["title" := Str("Engineer")]),
      "zh" := Object(map["title" := Str("工程师")])])
  }

  lemma PickLanguageSample()
    ensures PickLanguage(SampleEntity(), En) == map["name" := Str("Shared"), "title" := Str("Engineer")]
    ensures PickLanguage(SampleEntity(), Zh) == map["name" := Str("Shared"), "title" := Str("工程师")]
  {
    var e := SampleEntity();
    assert Spread(e) - LocaleKeys == map["name" := Str("Shared")];
  }

  /** `ensureArray`. */
  function EnsureArray(v: Value): (r: seq<Value>)
    ensures v.List? ==> r == v.items
    ensures !v.List? ==> r == []
  {
    if v.List? then v.items else []
  }

  /** `.map(pickLanguage)`: one resolved record per item, in order. */
  function ResolveAll(items: seq<Value>, lang: Language): (r: seq<Record>)
    ensures |r| == |items|
    ensures forall i :: 0 <= i < |items| ==> r[i] == PickLanguage(items[i], lang)
  {
    if |items| == 0 then [] else [PickLanguage(items[0], lang)] + ResolveAll(items[1..], lang)
  }

  /** The ten content files, in request order. */
  const DataFiles: seq<string> :=
    ["sectionTitles", "intro", "photos", "education", "experience",
     "projects", "awards", "publications", "service", "news"]

  /** The resolved view model. */
  datatype AppData = AppData(
    sectionTitles: Record,
    intro: Record,
    photos: seq<Record>,
    education: seq<Record>,
    experience: seq<Record>,
    projects: seq<Record>,
    awards: seq<Record>,
    publications: seq<Record>,
    service: seq<Record>,
    news: seq<Record>)

  /** `list` is `source` passed through `ensureArray` and resolved element by
      element: same length, same order. */
  predicate ResolvedFrom(list: seq<Record>, source: Value, lang: Language) {
    && |list| == |EnsureArray(source)|
    && forall i :: 0 <= i < |list| ==> list[i] == PickLanguage(EnsureArray(source)[i], lang)
  }

  /** `rawData[key]`, `undefined` when absent. */
  function Get(raw: map<string, Value>, key: string): Value {
    if key in raw then raw[key] else Undefined
  }

  /** `processData`: the two single records resolved, and every list category
      resolved element by element, keeping its length and order. */
  function ProcessData(raw: map<string, Value>, lang: Language): (d: AppData)
    ensures d.sectionTitles == PickLanguage(Get(raw, "sectionTitles"), lang)
    ensures d.intro == PickLanguage(Get(raw, "intro"), lang)
    ensures ResolvedFrom(d.photos, Get(raw, "photos"), lang)
    ensures ResolvedFrom(d.education, Get(raw, "education"), lang)
    ensures ResolvedFrom(d.experience, Get(raw, "experience"), lang)
    ensures ResolvedFrom(d.projects, Get(raw, "projects"), lang)
    ensures ResolvedFrom(d.awards, Get(raw, "awards"), lang)
    ensures ResolvedFrom(d.publications, Get(raw, "publications"), lang)
    ensures ResolvedFrom(d.service, Get(raw, "service"), lang)
    ensures ResolvedFrom(d.news, Get(raw, "news"), lang)
  {
    AppData(
      PickLanguage(Get(raw, "sectionTitles"), lang),
      PickLanguage(Get(raw, "intro"), lang),
      ResolveAll(EnsureArray(Get(raw, "photos")), lang),
      ResolveAll(EnsureArray(Get(raw, "education")), lang),
      ResolveAll(EnsureArray(Get(raw, "experience")), lang),
      ResolveAll(EnsureArray(Get(raw, "projects")), lang),
      ResolveAll(EnsureArray(Get(raw, "awards")), lang),
      ResolveAll(EnsureArray(Get(raw, "publications")), lang),
      ResolveAll(EnsureArray(Get(raw, "service")), lang),
      ResolveAll(EnsureArray(Get(raw, "news")), lang))
  }

  // ---------------------------------------------------------------------------
  // Loading

  /** One fetch: whether the status was ok, and what parsing its body gave
      (`None` when `js-yaml` throws). */
  datatype Response = Response(ok: bool, document: Option<Value>)

  const LoadError := "Failed to load content. Please try refreshing the page."

  /** The status loop: the first response that is not ok, if any. */
  method FirstFailedResponse(responses: seq<Response>) returns (failed: Option<nat>)
    ensures failed.None? <==> forall i :: 0 <= i < |responses| ==> responses[i].ok
    ensures failed.Some? ==>
      failed.value < |responses| && !responses[failed.value].ok
      && forall j :: 0 <= j < failed.value ==> responses[j].ok
  {
    var i := 0;
    while i < |responses|
      invariant 0 <= i <= |responses|
      invariant forall j :: 0 <= j < i ==> responses[j].ok
    {
      if !responses[i].ok {
        return Some(i);
      }
      i := i + 1;
    }
    return None;
  }

  /** `yamlTexts.map(text => jsyaml.load(text))`: all documents, or failure
      as soon as one does not parse. */
  function ParsedDocuments(responses: seq<Response>): (r: Option<seq<Value>>)
    ensures r.None? <==> exists i :: 0 <= i < |responses| && responses[i].document.None?
    ensures r.Some? ==>
      && |r.value| == |responses|
      && forall i :: 0 <= i < |responses| ==> responses[i].document == Some(r.value[i])
  {
    if |responses| == 0 then Some([])
    else
      match responses[0].document
      case None => None
      case Some(v) =>
        match ParsedDocuments(responses[1..])
        case None => None
        case Some(rest) => Some([v] + rest)
  }

  ghost predicate KeyedByPosition(raw: map<string, Value>, docs: seq<Value>)
    requires |docs| == |DataFiles|
  {
    && (forall k :: k in raw <==> k in DataFiles)
    && forall i :: 0 <= i < |DataFiles| ==> DataFiles[i] in raw && raw[DataFiles[i]] == docs[i]
  }

  lemma DataFilesDistinct()
    ensures forall i, j :: 0 <= i < j < |DataFiles| ==> DataFiles[i] != DataFiles[j]
  {
  }

  /** The record keyed by file name. */
  function PositionKeyed(docs: seq<Value>): (raw: map<string, Value>)
    requires |docs| == |DataFiles|
    ensures KeyedByPosition(raw, docs)
  {
    DataFilesDistinct();
    map i | 0 <= i < |DataFiles| :: DataFiles[i] := docs[i]
  }

  /** The `reduce` that keys the parsed documents by their file name. */
  method AssembleRaw(docs: seq<Value>) returns (raw: map<string, Value>)
    requires |docs| == |DataFiles|
    ensures KeyedByPosition(raw, docs)
  {
    DataFilesDistinct();
    raw := map[];
    var index := 0;
    while index < |DataFiles|
      invariant 0 <= index <= |DataFiles|
      invariant forall k :: k in raw <==> k in DataFiles[..index]
      invariant forall j :: 0 <= j < index ==> raw[DataFiles[j]] == docs[j]
    {
      assert DataFiles[..index + 1] == DataFiles[..index] + [DataFiles[index]];
      raw := raw[DataFiles[index] := docs[index]];
      index := index + 1;
    }
    assert DataFiles[..index] == DataFiles;
  }

  lemma KeyedByPositionUnique(a: map<string, Value>, b: map<string, Value>, docs: seq<Value>)
    requires |docs| == |DataFiles|
    requires KeyedByPosition(a, docs) && KeyedByPosition(b, docs)
    ensures a == b
  {
    forall k | k in a ensures k in b && a[k] == b[k] {
      var i :| 0 <= i < |DataFiles| && DataFiles[i] == k;
    }
  }

  /** What the root component renders. */
  datatype Screen = ErrorScreen(message: string) | LoadingScreen | ReadyScreen(data: AppData)

  /** The error, when one is set; otherwise "Loading" until data exists. */
  function Render(error: Option<string>, data: Option<AppData>): (s: Screen)
    ensures s.ErrorScreen? <==> error.Some? && error.value != ""
    ensures s.ErrorScreen? ==> s.message == error.value
    ensures s.LoadingScreen? <==> !(error.Some? && error.value != "") && data.None?
    ensures s.ReadyScreen? ==> data == Some(s.data)
  {
    if error.Some? && error.value != "" then ErrorScreen(error.value)
    else if data.None? then LoadingScreen
    else ReadyScreen(data.value)
  }

  /** The root component's state. */
  class AppState {
    var language: Language
    var data: Option<AppData>
    var error: Option<string>

    /** Mounting under the provider: the language is the context's initial
        language, taken from the browser's language tag. */
    constructor (browserLang: string)
      ensures language == InitialLanguage(browserLang) && data == None && error == None
      ensures Render(error, data) == LoadingScreen
    {
      language := InitialLanguage(browserLang);
      data := None;
      error := None;
    }

    /** `fetchData` once the fetches have settled: any failed status or
        unparsable document sets the single error and leaves the data alone. */
    method FetchData(responses: seq<Response>)
      requires |responses| == |DataFiles|
      modifies this`data, this`error
      ensures (exists i :: 0 <= i < |responses| && !responses[i].ok) ==>
        error == Some(LoadError) && data == old(data)
      ensures (forall i :: 0 <= i < |responses| ==> responses[i].ok) && ParsedDocuments(responses).None? ==>
        error == Some(LoadError) && data == old(data)
      ensures (forall i :: 0 <= i < |responses| ==> responses[i].ok) && ParsedDocuments(responses).Some? ==>
        error == old(error) && data == Some(ProcessData(PositionKeyed(ParsedDocuments(responses).value), language))
      ensures error != old(error) ==> Render(error, data) == ErrorScreen(LoadError)
    {
      var failed := FirstFailedResponse(responses);
      if failed.Some? {
        error := Some(LoadError);
        return;
      }
      var docs := ParsedDocuments(responses);
      if docs.None? {
        error := Some(LoadError);
        return;
      }
      var raw := AssembleRaw(docs.value);
      KeyedByPositionUnique(raw, PositionKeyed(docs.value), docs.value);
      data := Some(ProcessData(raw, language));
    }

    /** A language change reruns the whole load effect with the new language. */
    method SwitchLanguage(lang: Language, responses: seq<Response>)
      requires lang != language
      requires |responses| == |DataFiles|
      modifies this
      ensures language == lang
      ensures (forall i :: 0 <= i < |responses| ==> responses[i].ok) && ParsedDocuments(responses).Some? ==>
        error == old(error) && data == Some(ProcessData(PositionKeyed(ParsedDocuments(responses).value), lang))
      ensures !((forall i :: 0 <= i < |responses| ==> responses[i].ok) && ParsedDocuments(responses).Some?) ==>
        error == Some(LoadError) && data == old(data)
    {
      language := lang;
      FetchData(responses);
    }
  }
}
