# Bilingual portfolio front end: verified model of its logic

This project is a Dafny model of the small amount of real logic in a single-page
academic portfolio site. The site is written in React and TypeScript. It models:

- **Content pipeline** (`App.tsx`, module `App`). Ten YAML documents are loaded all-or-nothing.
  Each is keyed by its file name, and every record is resolved for the active language.
  Resolution (`pickLanguage`) copies the shared fields, drops the item's own `en`/`zh` keys, and overlays
  the active locale's fields. The root component then shows an error, "Loading", or the page.
- **Photo gallery** (`components/GallerySection.tsx`, module `Gallery`). The photos are shuffled
  with Fisher–Yates. The URL order is remembered and reused when the same photos come back.
  Infinite scroll reveals six more photos per step, and a masonry layout deals the visible
  photos round-robin into one or two columns.
- **Intro card** (`components/IntroSection.tsx`, module `Intro`). It has a slideshow index, a
  scroll-spy that picks the first section under the reading line, a table of contents
  filtered to sections with a title, social links, and an avatar fallback.
- **Header controls** (`components/Header.tsx`, module `Header`). These are the theme dropdown's
  open/close state machine and its `currentTheme` lookup, and the en↔zh language toggle
  with its label.
- **Theme hook** (`hooks/useTheme.ts`, module `UseTheme`). The initial theme comes from
  storage. The hook decides when the root carries the `dark` class, guards the
  system-preference listener, and persists the theme in `setTheme`.
- **Context** (`contexts/AppContext.tsx`, module `AppContext`). It picks the initial language
  from the browser's language tag, and `useAppContext` fails without a provider.

React state and refs become fields of classes (`AppState`, `GallerySection`,
`IntroSection`, `ThemeToggle`, `LanguageToggle`, `ThemeStore`). Effects and event
handlers become methods that the framework is assumed to call. Pure expressions
become functions, and loops become methods with invariants.

The following become inputs:

- fetch results: a status flag and an already parsed document per file;
- `Math.random`: a nondeterministic choice of `j` in `[0, i]`;
- bounding boxes: integer `top`/`bottom` per existing element;
- media-query results: booleans;
- `localStorage`: a `map<string, string>`;
- `navigator.language`: a string.

A language switch reruns the whole fetch effect, because the effect depends on
`[language]` (App.tsx:72). It does not just re-resolve data it already holds.
Also, once the error is set, it is never cleared, so the error screen stays even
if a later load succeeds.

## Model

| member | source | states |
|---|---|---|
| `App.PickLanguage` | App.tsx:75-82 | A falsy item gives the empty record. Every key of the active locale's override is in the result with the override's value, even over a shared value (shallow overwrite). Every shared key not overridden keeps its value. Every key of the result comes from one of those two, so the item's own `en`/`zh` sub-records and fields found only under the other locale are dropped; a locale key survives only when the active override itself carries one. |
| `App.PickLanguageDropsOtherLocale` | App.tsx:78-81 | A key that is neither in the active override nor a shared non-locale field does not appear in the result. |
| `App.PickLanguageKeepsOverrideLocaleKey` | App.tsx:79-81 | The removal of `en`/`zh` touches only the shared copy: an `en` key inside the active `en` override is spread back into the result. |
| `App.PickLanguageSettles` | App.tsx:78-81 | Resolving an already resolved record again gives the same record, when the active override carries no locale keys. |
| `App.PickLanguageSample` | App.tsx:75-82 | `{name:"Shared", en:{title:"Engineer"}, zh:{title:"工程师"}}` resolves to `{name:"Shared", title:"Engineer"}` for en and to `{name:"Shared", title:"工程师"}` for zh. |
| `App.EnsureArray` | App.tsx:84 | An array is passed through unchanged; any other value becomes the empty list. |
| `App.ResolveAll` | App.tsx:89-96 | The `.map(pickLanguage)` keeps length and order: element i of the result is `pickLanguage` of element i of the input. |
| `App.ProcessData` | App.tsx:74-98 | `sectionTitles` and `intro` are the resolved single records. Each of the eight list categories has the length and order of its source array (or is empty when the source is not an array), element by element resolved. |
| `App.FirstFailedResponse` | App.tsx:49-53 | Returns nothing exactly when every response is ok. Otherwise returns the first response that is not ok; all earlier ones are ok. |
| `App.ParsedDocuments` | App.tsx:55-56 | Fails exactly when some document does not parse. Otherwise gives one document per response, in order. |
| `App.PositionKeyed` | App.tsx:58-61 | The record has exactly the ten file names as keys, and `raw[dataFiles[i]]` is the i-th parsed document. |
| `App.AssembleRaw` | App.tsx:58-61 | The `reduce` loop builds a record keyed by position: exactly the ten file names, and `raw[dataFiles[i]] == parsed[i]`. |
| `App.Render` | App.tsx:100-114 | The error screen shows exactly when a non-empty error is set, and shows that message. Otherwise "Loading" shows exactly when there is no data. Otherwise the page shows the data. |
| `App.AppState.constructor` | App.tsx:33-35 | Starts with no data and no error, so the screen is "Loading". The language read from the context is its initial language: zh exactly when the browser's language tag starts with "zh" in any case (contexts/AppContext.tsx:17-20). |
| `App.AppState.FetchData` | App.tsx:43-69 | Any non-ok status, or any unparsable document, sets the single load error and leaves the data untouched, so the error screen shows. Otherwise the data becomes `processData` of the position-keyed documents for the current language, and the error is untouched. |
| `App.AppState.SwitchLanguage` | App.tsx:37-72 | Only a language different from the current one triggers the effect. It reruns the whole load with that language. The outcome is either the data resolved for the new language with the error untouched, or the load error with the data untouched. |
| `Gallery.IsSameSetIsPermutation` | components/GallerySection.tsx:48-50 | `isSameSet` holds when the remembered list is non-empty, has the current list's length, and every remembered URL occurs in the current list. With no repeated URLs, that is exactly when the two non-empty lists are reorderings of each other. |
| `Gallery.IsSameSetAcceptsRepeats` | components/GallerySection.tsx:48-50 | With repeats the test is weaker than its name: `["a","a"]` passes against `["a","b"]` although `"b"` is not remembered. |
| `Gallery.UrlMap` | components/GallerySection.tsx:54 | Every URL of the data is a key. Each entry holds a photo of the data with that URL. |
| `Gallery.UrlMapLastWins` | components/GallerySection.tsx:54 | When a URL repeats, the map holds the last photo with that URL. |
| `Gallery.ReorderBy` | components/GallerySection.tsx:55 | The result is no longer than the remembered order, and every element is a photo held in the map. When every remembered URL is in the map, element k is the map's photo for `prevUrls[k]`. |
| `Gallery.Reordered` | components/GallerySection.tsx:54-56 | Every reordered photo comes from the current data. When every remembered URL is present, the result has the remembered URLs in the remembered order. |
| `Gallery.SameSetReorderIsPermutation` | components/GallerySection.tsx:48-56 | With distinct URLs in both the data and the remembered order, reusing the order when `isSameSet` holds shows a permutation of the current data. |
| `Gallery.ShuffledCopy` | components/GallerySection.tsx:59-63 | Fisher–Yates on a copy gives a permutation of the data: the same multiset and the same length. |
| `Gallery.PermutationKeepsUrlsDistinct` | components/GallerySection.tsx:59-65 | A shuffle of photos with distinct URLs saves a URL order without repeats. |
| `Gallery.NumColumns` | components/GallerySection.tsx:105 | There are 2 columns exactly on desktop and 1 otherwise. |
| `Gallery.EmptyColumns` | components/GallerySection.tsx:109 | Exactly n columns are created. |
| `Gallery.EmptyColumnsAreEmpty` | components/GallerySection.tsx:109 | Every one of those n columns starts empty. |
| `Gallery.Deal` | components/GallerySection.tsx:108-114 | Pushing each photo onto column `index % n` yields exactly n columns. |
| `Gallery.DistributeColumns` | components/GallerySection.tsx:108-114 | The `forEach`/`push` loop produces the round-robin deal of the visible photos. |
| `Gallery.DealColumnLength` | components/GallerySection.tsx:110-111 | Column c holds `len / n` photos, plus one when `c < len % n`. |
| `Gallery.DealAt` | components/GallerySection.tsx:110-111 | Photo i lands in column `i % n` at row `i / n`, so every column keeps the photos' relative order. |
| `Gallery.DealKeepsPhotos` | components/GallerySection.tsx:108-114 | The columns together hold exactly the visible photos, as a multiset. |
| `Gallery.GallerySection.constructor` | components/GallerySection.tsx:31-36 | The gallery starts with no photos, no remembered order, and 6 visible items. |
| `Gallery.GallerySection.OnData` | components/GallerySection.tsx:41-68 | Empty data changes nothing. When `isSameSet` holds, the remembered order is kept and the photos follow it. Otherwise the photos are a shuffle (a permutation) of the data and the new URL order is saved. The saved order always equals the displayed URLs. With distinct URLs the display is a permutation of the data and the order stays free of repeats. |
| `Gallery.GallerySection.OnLoaderIntersect` | components/GallerySection.tsx:71-77 | The count grows only on an intersection while it is below the list length, and then becomes `min(prev + 6, length)`, strictly larger. Otherwise it is unchanged, and it never drops below 6. |
| `Gallery.GallerySection.OnViewportChange` | components/GallerySection.tsx:17-26 | The desktop flag follows the media query. |
| `Gallery.GallerySection.VisibleData` | components/GallerySection.tsx:104 | The first `min(visibleItems, length)` photos of the ordered list. |
| `Gallery.GallerySection.Columns` | components/GallerySection.tsx:105-114 | The rendered columns are the round-robin deal of the visible photos into the viewport's column count. |
| `Intro.FindActiveSection` | components/IntroSection.tsx:82-95 | The result is empty exactly when no section in the fixed order exists with `top <= 150 < bottom`. Otherwise it is the first such section, and every earlier one is missing or misses the line. |
| `Intro.NavLinks` | components/IntroSection.tsx:174-194 | Every link is for a key with a non-empty title. Its caption is that title, its target is `#key`, and it is active exactly for the active section. |
| `Intro.NavLinksCoverTitled` | components/IntroSection.tsx:174-177 | Every key with a non-empty title gets a link. |
| `Intro.NavLinksKeepOrder` | components/IntroSection.tsx:174 | Links appear in the order of their keys in the section order. |
| `Intro.SocialLink` | components/IntroSection.tsx:32-45 | A missing or empty `href` renders nothing. Otherwise the link renders with that target. |
| `Intro.EmailHref` | components/IntroSection.tsx:203 | The email target is present exactly when an address is, and is `mailto:` followed by it. |
| `Intro.RenderLinks` | components/IntroSection.tsx:199-206 | Every rendered link has a non-empty target taken from a candidate with its caption. Every candidate with a non-empty target is rendered. |
| `Intro.SocialLinks` | components/IntroSection.tsx:199-206 | At most six links render, none with an empty target. Each present link, including `mailto:` email, renders. |
| `Intro.AvatarSrc` | components/IntroSection.tsx:148 | The avatar source is never empty. It is the given avatar when present, and the fixed default URL otherwise. |
| `Intro.IntroSection.constructor` | components/IntroSection.tsx:47-49 | The slideshow starts at index 0 with no active section. |
| `Intro.IntroSection.Tick` | components/IntroSection.tsx:59-70 | The index advances to `(prev + 1) % n` and stays in `[0, n)`. The preloaded photo is `(next + 1) % n`. |
| `Intro.IntroSection.CurrentPhotoUrl` | components/IntroSection.tsx:115 | With no photos there is no background URL. Otherwise it is the URL of the current photo. |
| `Intro.IntroSection.OnScrollFrame` | components/IntroSection.tsx:79-103 | When some section is under the reading line, the first such section in page order becomes active. With no section under the line the active section is unchanged. |
| `Intro.IntroSection.Navigation` | components/IntroSection.tsx:174-184 | The contents list highlights exactly the entry of the active section. |
| `Header.ToggleLanguage` | components/Header.tsx:75-77 | Toggling always changes the language. |
| `Header.ToggleLanguageInvolution` | components/Header.tsx:76 | Toggling twice is the identity. |
| `Header.ToggleLabel` | components/Header.tsx:85 | The label is '中文' exactly for en and 'EN' exactly for zh. |
| `Header.FindEntry` | components/Header.tsx:25 | `find` returns nothing exactly when the name is absent. Otherwise it returns the first index holding it. |
| `Header.CurrentTheme` | components/Header.tsx:19-25 | There is no current entry exactly when the theme is not light/dark/system. Otherwise it is the entry with that name. |
| `Header.HighlightIsCurrentTheme` | components/Header.tsx:55-58 | A menu entry is highlighted exactly when it is the `currentTheme` entry, so at most one is. |
| `Header.ThemeToggle.constructor` | components/Header.tsx:15 | The menu starts closed. |
| `Header.ThemeToggle.ClickButton` | components/Header.tsx:40 | Clicking the button flips `isOpen`. |
| `Header.ThemeToggle.MouseDown` | components/Header.tsx:28-31 | A mousedown outside the attached dropdown closes it. Any other mousedown leaves `isOpen` unchanged. |
| `Header.ThemeToggle.ChooseEntry` | components/Header.tsx:51-54 | Choosing an entry sets and persists that theme and closes the menu. |
| `Header.LanguageToggle.constructor` | components/Header.tsx:72-73 | The toggle reads and writes the one language state the app also reads, not a copy of it. |
| `Header.LanguageToggle.Click` | components/Header.tsx:75-77 | A click replaces the shared language with its toggle. The load effect then reruns for the new language: it ends with the data resolved for it and the error untouched, or with the load error and the data untouched. |
| `UseTheme.InitialTheme` | hooks/useTheme.ts:6-14 | The stored value is used when non-empty, without checking it names a theme. Otherwise (no window, no key, empty value) the theme is 'system'. The result is never empty. |
| `UseTheme.WantsDarkByTheme` | hooks/useTheme.ts:21 | The root should be dark exactly for 'dark', or for 'system' while the system prefers dark. 'light' and any stored value that names no theme give light. |
| `UseTheme.AppliedClasses` | hooks/useTheme.ts:20-26 | `dark` is present afterwards exactly when the theme is 'dark', or is 'system' while the system prefers dark. No other class changes. |
| `UseTheme.AppliedClassesIdempotent` | hooks/useTheme.ts:20-26 | Applying the same theme twice changes nothing further. |
| `UseTheme.ExplicitThemesIgnoreSystem` | hooks/useTheme.ts:21-25 | 'light' always removes `dark` and 'dark' always adds it, whatever the system prefers. |
| `UseTheme.ThemeStore.constructor` | hooks/useTheme.ts:6-34 | Mounting takes the initial theme and applies it, so the root's class agrees with the theme. |
| `UseTheme.ThemeStore.ApplyTheme` | hooks/useTheme.ts:20-26 | The root's class set becomes the applied classes for the given theme. |
| `UseTheme.ThemeStore.ThemeEffect` | hooks/useTheme.ts:16-40 | After the effect, the root's `dark` class agrees with the theme. |
| `UseTheme.ThemeStore.OnSystemChange` | hooks/useTheme.ts:28-32 | A preference change re-applies only the 'system' theme. Any other theme leaves the class set untouched, and agreement is preserved. |
| `UseTheme.ThemeStore.SetTheme` | hooks/useTheme.ts:42-45 | The stored value and the theme both become the new theme, and a later start-up reads it back. |
| `AppContext.InitialLanguage` | contexts/AppContext.tsx:17-20 | The language is zh exactly when the tag's first two characters are z/Z then h/H, i.e. the lower-cased tag starts with "zh". Every other tag gives en. |
| `AppContext.InitialLanguageIgnoresCase` | contexts/AppContext.tsx:18 | Lower-casing the tag first does not change the choice. |
| `AppContext.InitialLanguageExamples` | contexts/AppContext.tsx:18-19 | "ZH-TW" and "zh-CN" give zh. "en-US", "" and "z" give en. |
| `AppContext.UseAppContext` | contexts/AppContext.tsx:27-33 | Without a provider value the hook fails with the fixed message. With one it returns exactly that value. |

## Left out

- Network and parsing: `fetch`, `Response.text()` and `js-yaml` are inputs. Each response is an ok flag and a parsed document, or a parse failure. A failure of `text()` itself is not modelled. The `statusText` in the thrown message and the `console.error` log are not modelled, because they are only logged.
- Concurrency: the fetches run in parallel and are joined with `Promise.all`. The model takes the joined results. A stale load finishing after a later language switch could overwrite newer data; the model does not capture this, because it has no interleaving of async effects.
- `App.PickLanguage`: spreading a truthy string or array gives its index keys in JavaScript. The model treats every non-object as spreading nothing. The data files hold objects, and numbers are integers (NaN and floats are left out).
- `Gallery.GallerySection.OnData`: an absent `data` prop is not modelled, because the root always passes an array.
- `Gallery.SameSetReorderIsPermutation`: the permutation property needs distinct URLs. With a repeated URL, `isSameSet` can hold while the reused order shows the last such photo twice (see `Gallery.UrlMapLastWins`). Photos are keyed by URL in the markup, so URLs are meant to be unique.
- `Gallery.ShuffledCopy`: it states permutation only. It does not state uniform randomness, which needs probabilities.
- `Intro.IntroSection`: the photo list is fixed for the component's lifetime. A later, shorter `photos` prop would leave the index out of range; this is not modelled.
- `Intro.RenderLinks`: it states where each rendered link comes from and that every candidate with a target renders. It does not state the order or the count of the rendered links, which follow the candidate order one for one.
- `Intro.SocialLinks`: it states that each present link renders, and `Intro.RenderLinks` states where each rendered target comes from. It does not restate the fixed display order of the six links, which is the candidate order.
- `AppContext.InitialLanguage`: lower-casing is modelled for ASCII only. No non-ASCII character lower-cases to 'z' or 'h', so the prefix test is unaffected.
- Timers and throttling: `setInterval`, `requestAnimationFrame` and the `ticking` flag are left out. The model has one tick or one frame per method call.
- Browser wrappers: `IntersectionObserver`, `matchMedia`, `createPortal`, listener registration and cleanup, image preloading, body scroll locking for the lightbox, and the lightbox open/close state are left out. They are event-loop and DOM plumbing.
- Presentation-only files are not part of this model: the other section components, `ProjectsSection` tilt/glare math, `CursorSpotlight`, `useAnimateOnScroll`, the icons and the build configuration.
