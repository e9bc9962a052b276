/** The header's two controls: the theme dropdown and the language toggle. */
module Header {
  import opened Wrappers
  import opened AppContext
  import opened UseTheme
  import App

  /** The language the toggle switches to. */
  function ToggleLanguage(l: Language): (r: Language)
    ensures r != l
  {
    if l == En then Zh else En
  }

  /** Toggling twice returns to the starting language. */
  lemma ToggleLanguageInvolution(l: Language)
    ensures ToggleLanguage(ToggleLanguage(l)) == l
  {
  }

  /** The toggle's caption names the language it switches to. */
  function ToggleLabel(l: Language): (r: string)
    ensures r == "中文" <==> l == En
    ensures r == "EN" <==> l == Zh
  {
    match l
    case En => assert "中文"[0] != "EN"[0]; "中文"
    case Zh => assert "EN" == ['E', 'N']; "EN"
  }

  /** `Array.prototype.find` by name: the first entry equal to `name`. */
  function FindEntry(entries: seq<string>, name: string): (r: Option<nat>)
    ensures r.None? <==> name !in entries
    ensures r.Some? ==> r.value < |entries| && entries[r.value] == name && name !in entries[..r.value]
  {
    if |entries| == 0 then None
    else if entries[0] == name then Some(0)
    else
      match FindEntry(entries[1..], name)
      case None => None
      case Some(k) =>
        assert entries[..k + 1] == [entries[0]] + entries[1..][..k];
        Some(k + 1)
  }

  /** `currentTheme`: the menu entry for the current theme, if there is one. */
  function CurrentTheme(theme: string): (r: Option<nat>)
    ensures r.None? <==> theme !in ThemeNames
    ensures r.Some? ==> r.value < |ThemeNames| && ThemeNames[r.value] == theme
  {
    FindEntry(ThemeNames, theme)
  }

  /** The menu highlights entry `i` (`theme === name`) exactly when it is
      the current theme's entry, so at most one entry is highlighted. */
  lemma {:induction false} HighlightIsCurrentTheme(theme: string, i: nat)
    requires i < |ThemeNames|
    ensures ThemeNames[i] == theme <==> CurrentTheme(theme) == Some(i)
  {
    var r := CurrentTheme(theme);
    if ThemeNames[i] == theme {
      assert r.Some?;
      assert ThemeNames[r.value] == ThemeNames[i];
    }
  }

  /** The theme dropdown: whether its menu is open, and the theme store whose
      setter its entries call. */
  class ThemeToggle {
    var isOpen: bool
    const store: ThemeStore

    constructor (store: ThemeStore)
      ensures !isOpen && this.store == store
    {
      isOpen := false;
      this.store := store;
    }

    /** The round button flips the menu. */
    method ClickButton()
      modifies this`isOpen
      ensures isOpen == !old(isOpen)
    {
      isOpen := !isOpen;
    }

    /** A document `mousedown`: a press outside the attached dropdown closes
        the menu; a press inside, or before the ref is attached, changes nothing. */
    method MouseDown(refAttached: bool, targetInside: bool)
      modifies this`isOpen
      ensures refAttached && !targetInside ==> !isOpen
      ensures !(refAttached && !targetInside) ==> isOpen == old(isOpen)
    {
      if refAttached && !targetInside {
        isOpen := false;
      }
    }

    /** Choosing menu entry `i` sets that theme and closes the menu. */
    method ChooseEntry(i: nat)
      requires i < |ThemeNames|
      modifies this`isOpen, store`storage, store`theme
      ensures !isOpen
      ensures store.theme == ThemeNames[i]
      ensures store.storage == old(store.storage)[StorageKey := ThemeNames[i]]
    {
      store.SetTheme(ThemeNames[i]);
      isOpen := false;
    }
  }

  /** The language toggle writes through the context's language setter. The
      context's language lives in `app`, so a click reruns the load effect there. */
  class LanguageToggle {
    const app: App.AppState

    constructor (app: App.AppState)
      ensures this.app == app
    {
      this.app := app;
    }

    /** `setLanguage(prev => prev === 'en' ? 'zh' : 'en')`, followed by the
        load effect that the changed language triggers, with its settled fetches. */
    method Click(responses: seq<App.Response>)
      requires |responses| == |App.DataFiles|
      modifies app
      ensures app.language == ToggleLanguage(old(app.language))
      ensures (forall i :: 0 <= i < |responses| ==> responses[i].ok) && App.ParsedDocuments(responses).Some? ==>
        app.error == old(app.error)
        && app.data == Some(App.ProcessData(App.PositionKeyed(App.ParsedDocuments(responses).value), app.language))
      ensures !((forall i :: 0 <= i < |responses| ==> responses[i].ok) && App.ParsedDocuments(responses).Some?) ==>
        app.error == Some(App.LoadError) && app.data == old(app.data)
    {
      app.SwitchLanguage(ToggleLanguage(app.language), responses);
    }
  }
}
