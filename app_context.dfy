/** The preference context shared by every component: the display language,
    its initial value, and the guard that refuses use outside the provider. */
module AppContext {
  import opened Wrappers

  datatype Language = En | Zh

  /** What the provider hands to its consumers. The setters are the methods of
      `UseTheme.ThemeStore` and `Header.LanguageToggle`. */
  datatype ContextValue = ContextValue(theme: string, language: Language)

  const MissingProviderMessage := "useAppContext must be used within an AppProvider"

  /** ASCII lower-casing of one character. */
  function LowerChar(c: char): char {
    if 'A' <= c <= 'Z' then (c as int + 32) as char else c
  }

  function ToLower(s: string): string {
    seq(|s|, i requires 0 <= i < |s| => LowerChar(s[i]))
  }

  predicate StartsWith(s: string, prefix: string) {
    |prefix| <= |s| && s[..|prefix|] == prefix
  }

  /** Only 'z' and 'Z' lower-case to 'z', and only 'h' and 'H' to 'h'. */
  lemma LowerCharZH(c: char)
    ensures LowerChar(c) == 'z' <==> c == 'z' || c == 'Z'
    ensures LowerChar(c) == 'h' <==> c == 'h' || c == 'H'
  {
  }

  /** The language chosen at start-up from the browser's language tag. */
  function InitialLanguage(browserLang: string): (l: Language)
    ensures l == Zh <==>
      && |browserLang| >= 2
      && (browserLang[0] == 'z' || browserLang[0] == 'Z')
      && (browserLang[1] == 'h' || browserLang[1] == 'H')
  {
    var lower := ToLower(browserLang);
    if |browserLang| < 2 then
      En
    else
      assert lower[..2] == [lower[0], lower[1]];
      LowerCharZH(browserLang[0]);
      LowerCharZH(browserLang[1]);
      if StartsWith(lower, "zh") then Zh else En
  }

  /** Upper- and lower-case spellings of a tag choose the same language. */
  lemma InitialLanguageIgnoresCase(browserLang: string)
    ensures InitialLanguage(ToLower(browserLang)) == InitialLanguage(browserLang)
  {
  }

  lemma InitialLanguageExamples()
    ensures InitialLanguage("ZH-TW") == Zh
    ensures InitialLanguage("zh-CN") == Zh
    ensures InitialLanguage("en-US") == En
    ensures InitialLanguage("") == En
    ensures InitialLanguage("z") == En
  {
  }

  /** `useAppContext`: the provider's value, or the error it throws without one. */
  function UseAppContext(provided: Option<ContextValue>): (r: Result<ContextValue, string>)
    ensures r.Failure? <==> provided.None?
    ensures r.Success? ==> provided == Some(r.value)
    ensures r.Failure? ==> r.error == MissingProviderMessage
  {
    match provided
    case None => Failure(MissingProviderMessage)
    case Some(v) => Success(v)
  }
}
