# iotech site logic, modelled in Dafny

The iotech site is a bilingual (English/Arabic) marketing site. It renders
content that it fetches from a headless CMS. Most of its code is
presentation. This project models the few pieces whose behaviour is a
rule you can state:

- **Pagination bar** (`pagination.dfy`, module `Pagination`). Clicking a
  page clamps the requested page to `[1, totalPages]`. It then rewrites the
  `page` query parameter through a `URLSearchParams` object: removed for
  page 1, set to the decimal page number otherwise. Last, it builds the new
  URL. `getPageNumbers` lists the page buttons and their `"..."` markers.
  The `URLSearchParams` object is the class `SearchParams`, changed in place
  by `Delete` and `Set`. The button list is built by pushing inside loops,
  like the source, and is proved equal to `PageWindow`. The lemmas are
  about `PageWindow`.
- **Hero slider** (`hero_slider.dfy`, module `HeroSlider`). The slider is a
  class with the component's four state fields. Two more fields model the
  browser: which preload promises have resolved, and how many transition
  timeouts are still armed. Each event is one method: a background load
  succeeds or fails, a foreground load settles, `Promise.all` returns, the
  auto-advance interval fires, `goToSlide` runs, a transition timeout fires.
  `PreloadTasks` builds the `promises` array. The module also has the
  active/adjacent/distant classification of each slide and the "localhost"
  check that turns image optimisation off.
- **REST client** (`server_api.dfy`, module `ServerApi`). `normalizeError`
  is a total function of status, payload and fallback. `Request` is the
  `{ data, error }` shaping inside `request`, written as a function of how
  the HTTP exchange ended: with a response, or by throwing.
- **Request configuration for i18n** (`i18n_request.dfy`, module
  `I18nRequest`). It resolves the locale against `["ar", "en"]`. Two loops
  merge the per-file message maps, where later files win and files that fail
  to load are skipped. For a non-English locale the locale's catalogue is
  laid over the English one.
- **Theme switcher** (`theme_switcher.dfy`) and **language slice**
  (`language_slice.dfy`). The first cycles through three themes. The second
  is a store slice whose reducer sets one field.

`jslib.dfy` gives the JavaScript built-ins these rely on: `startsWith`,
`includes`, the truncating `%`, `Array.prototype.indexOf`, and
`Number.prototype.toString` restricted to integers written in plain
digits (non-negative integers below 2^53, as page numbers are; from 10^21
on JavaScript switches to exponent form, which is not modelled).
`wrappers.dfy` holds `Option`, which stands for `null`/`undefined`.

What the slider waits for before it reveals the slides:

- A failed background load does not add its slide to `loadedMedia`
  (`HeroSlider.tsx:25`, `:40`); only `onload`/`onloadeddata` adds it.
- The reveal waits on `Promise.all` over the promises actually created,
  foreground loads included (`HeroSlider.tsx:45-56`). So a slide without a
  usable background creates no task and never stalls the reveal. `loadedMedia`
  only feeds the loading percentage.

The model also shows a few behaviours that are easy to miss:

- In `request`, a response below 400 whose body is `null` throws inside the
  `try` when `.data` is read. It therefore ends in the `catch` clause with
  status 0.
- `goToSlide` does not check its index, but its only callers are the slide
  dots, one per slide index, drawn only after the reveal. The auto-advance
  tick wraps with JavaScript's `%`. So `currentSlide` always names a slide,
  and `slides[currentSlide]` (`HeroSlider.tsx:79`) is always defined.
- A transition timeout armed by an earlier `goToSlide` clears
  `isTransitioning` even while a later transition's timeout is still armed.
- With no theme set yet, the next theme is "white", but none of the three
  icon flags is on.

## Model

| member | source | states |
|---|---|---|
| `Pagination.ClampPage` | client/core/components/TeamServices/PaginationControls.tsx:22 | the page is always at least 1; it is at most `totalPages` once that is at least 1; a page already in range is kept; a page below range, or any page when `totalPages` < 1, gives 1; a page above a positive `totalPages` gives `totalPages` |
| `Pagination.SearchParams.constructor` | client/core/components/TeamServices/PaginationControls.tsx:25 | the new params object holds the current query's pairs |
| `Pagination.SearchParams.Delete` | client/core/components/TeamServices/PaginationControls.tsx:29 | every pair with the name is removed and the others are kept in order; none with that name is left |
| `Pagination.SearchParams.Set` | client/core/components/TeamServices/PaginationControls.tsx:31 | afterwards exactly one pair has the name and `get` returns the new value; pairs with other names are unchanged, in order |
| `Pagination.SearchParams.ToString` | client/core/components/TeamServices/PaginationControls.tsx:35 | the serialised query is empty exactly when there are no pairs |
| `Pagination.WithoutSpec` | client/core/components/TeamServices/PaginationControls.tsx:29 | after `delete`, no pair has the name, `get` gives nothing, and deleting again changes nothing |
| `Pagination.SetValueSpec` | client/core/components/TeamServices/PaginationControls.tsx:31 | after `set`, that name occurs exactly once and holds the value; the remaining pairs equal the old ones without that name |
| `Pagination.PageQuerySpec` | client/core/components/TeamServices/PaginationControls.tsx:27-32 | for page 1 the query has no `page` parameter; for any other page it has exactly one, holding the page's decimal string, which parses back to the page; all other parameters are unchanged and in order |
| `Pagination.PageUrl` | client/core/components/TeamServices/PaginationControls.tsx:35 | with no parameters the URL is the bare pathname; otherwise it is pathname + "?" + the serialised query |
| `Pagination.HandlePageChange` | client/core/components/TeamServices/PaginationControls.tsx:20-37 | the URL pushed is the pathname with the query for the clamped page, built through in-place `delete`/`set` on a params object |
| `Pagination.GetPageNumbers` | client/core/components/TeamServices/PaginationControls.tsx:40-78 | the list that the push loops build equals `PageWindow(currentPage, totalPages)` |
| `Pagination.SmallWindow` | client/core/components/TeamServices/PaginationControls.tsx:44-48 | with at most 5 pages the list is exactly the pages 1..`totalPages` in order (empty when `totalPages` < 1), with no marker |
| `Pagination.LargeWindow` | client/core/components/TeamServices/PaginationControls.tsx:51-74 | with more than 5 pages the list starts at 1 and ends at `totalPages`; it has 6 entries and one marker near either end, and 7 entries and two markers in the middle case |
| `Pagination.WindowShape` | client/core/components/TeamServices/PaginationControls.tsx:44-74 | the numbers shown lie in `[1, totalPages]` and strictly increase; a marker is never first, never last and never beside another marker; it stands between two numbers at least 2 apart; two numbers side by side are consecutive pages |
| `Pagination.NearStartShape` | client/core/components/TeamServices/PaginationControls.tsx:51-57 | for every current page up to 3 (0 and below included) the list is 1, 2, 3, 4, "...", `totalPages`, with the shape properties above |
| `Pagination.NearEndShape` | client/core/components/TeamServices/PaginationControls.tsx:58-64 | for every current page above 3 and at least `totalPages` - 2 (pages past the last included) the list is 1, "...", and then the last four pages, with the shape properties above |
| `Pagination.MiddleShape` | client/core/components/TeamServices/PaginationControls.tsx:65-74 | in the middle the list is 1, "...", the current page and its two neighbours, "...", `totalPages`, with the shape properties above |
| `Pagination.WindowShowsCurrent` | client/core/components/TeamServices/PaginationControls.tsx:44-74 | if 1 <= `currentPage` <= `totalPages`, the current page has its own button |
| `JsLib.Decimal` | client/core/components/TeamServices/PaginationControls.tsx:31 | `toString` of a non-negative integer gives a non-empty string of decimal digits, with no leading zero for a positive number |
| `JsLib.ParseDecimalOfDecimal` | client/core/components/TeamServices/PaginationControls.tsx:31 | reading back the decimal string gives the number again |
| `JsLib.DecimalInjective` | client/core/components/TeamServices/PaginationControls.tsx:31 | different pages get different `page` strings |
| `HeroSlider.PreloadTasks` | client/core/components/HeroBanner/HeroSlider.tsx:14-54 | the `forEach` creates a background load exactly for each slide whose `backgroundType` names a present background ("image" with `backgroundImage`, "video" with `backgroundVideo`), and a foreground load exactly for each present `foregroundImage`; no load appears twice |
| `HeroSlider.PlannedTasksMembers` | client/core/components/HeroBanner/HeroSlider.tsx:16-53 | the same membership and no-duplicates facts, for the promises list as a function of the slides |
| `HeroSlider.Slider.constructor` | client/core/components/HeroBanner/HeroSlider.tsx:7-10 | the first slide is shown; there is no transition, nothing is loaded, nothing is revealed; the promises are those the preload effect creates and none has settled yet |
| `HeroSlider.Slider.BackgroundLoaded` | client/core/components/HeroBanner/HeroSlider.tsx:21-24 | a successful background load, image or video, copies `loadedMedia` and adds its slide index; that promise is settled; no other field changes |
| `HeroSlider.Slider.BackgroundFailed` | client/core/components/HeroBanner/HeroSlider.tsx:25 | a failed background load settles its promise and leaves `loadedMedia` and every other field unchanged |
| `HeroSlider.Slider.ForegroundSettled` | client/core/components/HeroBanner/HeroSlider.tsx:49-50 | a foreground load, whether it succeeds or fails, settles its promise and adds nothing to `loadedMedia` |
| `HeroSlider.Slider.MediaSettled` | client/core/components/HeroBanner/HeroSlider.tsx:56-57 | `allMediaLoaded` turns on only once every created promise, background and foreground, has settled; no method turns it off |
| `HeroSlider.Slider.Tick` | client/core/components/HeroBanner/HeroSlider.tsx:69-74 | a tick happens only once all media is loaded; it sets the slide to (prev + 1) % n with JavaScript's `%`, which is the next slide, wrapping from the last to 0; nothing else changes |
| `HeroSlider.Slider.GoToSlide` | client/core/components/HeroBanner/HeroSlider.tsx:63-67 | called from a slide dot, so only after the reveal and with a slide index; `isTransitioning` becomes true and `currentSlide` becomes the index; one more transition timeout is armed; `loadedMedia` and `allMediaLoaded` are untouched |
| `HeroSlider.Slider.CurrentSlideData` | client/core/components/HeroBanner/HeroSlider.tsx:79 | `slides[currentSlide]` is always one of the slides: the index stays in range through every event |
| `HeroSlider.Slider.TransitionTimeout` | client/core/components/HeroBanner/HeroSlider.tsx:66 | only an armed timeout clears `isTransitioning`; the slide and the media state are untouched |
| `HeroSlider.Slider.LoadedMediaBound` | client/core/components/HeroBanner/HeroSlider.tsx:21-40 | every index in `loadedMedia` is a slide with a background load, so `loadedMedia` has at most n members (the count behind the loading percentage) |
| `HeroSlider.Slider.AllSettledMeans` | client/core/components/HeroBanner/HeroSlider.tsx:14-57 | `Promise.all` is done exactly when every load the slides call for has settled; a slide without a usable background adds nothing to wait for |
| `HeroSlider.NeighbourIndices` | client/core/components/HeroBanner/HeroSlider.tsx:120-122 | for an in-range current slide the "next" index is the following slide, wrapping to 0, and the "prev" index is the preceding one, wrapping to n - 1 |
| `HeroSlider.TierOfNeighbours` | client/core/components/HeroBanner/HeroSlider.tsx:119-134 | a slide is active iff it is the current one; otherwise it is adjacent iff it is the next or the previous slide; otherwise it is distant |
| `HeroSlider.TierByDistance` | client/core/components/HeroBanner/HeroSlider.tsx:119-134 | on the ring of slides, active means distance 0 from the current slide, adjacent means distance 1, distant means distance 2 or more |
| `HeroSlider.TierCounts` | client/core/components/HeroBanner/HeroSlider.tsx:119-134 | exactly one slide is active; 0, 1 or 2 slides are adjacent for n = 1, n = 2 and n >= 3 |
| `HeroSlider.Unoptimized` | client/core/components/HeroBanner/HeroSlider.tsx:143 | images are unoptimized exactly when "localhost" occurs somewhere in `strapiUrl` |
| `JsLib.Includes` | client/core/components/HeroBanner/HeroSlider.tsx:143 | `includes` is true exactly when some position of the string starts the searched text |
| `JsLib.Remainder` | client/core/components/HeroBanner/HeroSlider.tsx:73 | JavaScript's `%` by a positive n lies in [0, n) for a non-negative left side and agrees with the Euclidean remainder there; for a negative left side it lies in (-n, 0] |
| `ServerApi.NormalizeError` | client/core/lib/server-api.ts:79-109 | the status and the payload are returned unchanged; the message is the payload's own text, the fallback, or one of the two fixed texts; it is empty only for an empty string payload |
| `ServerApi.NormalizeErrorMessage` | client/core/lib/server-api.ts:84-108 | an HTML page gives the fallback, or "Unexpected server response" when the fallback is empty; any other string is the message as it is; an object gives its first present field among `message`, `error` and fallback, and "Unknown error" when that is empty, so an empty `message` is not passed over for `error`; null and other values give the fallback or "Unknown error" |
| `ServerApi.Caught` | client/core/lib/server-api.ts:146-159 | a thrown value gives no data and status 0; the message is the Error's message, the thrown string, or "Network or request failed"; `raw` is what was thrown |
| `ServerApi.Request` | client/core/lib/server-api.ts:117-160 | a response arrives only below status 500; an error is present exactly for a status of 400 or more, a thrown value, or a `null` body; an error always comes with no data; at 400 or more the error is the normalised one with the status text as fallback; below 400 an object body gives its `data` and no error, and any other non-null body gives neither |
| `ServerApi.ErrorStatus` | client/core/lib/server-api.ts:129-159 | an error's status is 0 exactly when the request threw or read a `null` body; an error from an answered request keeps its HTTP status |
| `I18nRequest.ResolveLocale` | client/i18n/request.ts:13-16 | the locale is always "ar" or "en"; it is the requested one when that is supported, and "en" otherwise |
| `I18nRequest.AccumulateKeys` | client/i18n/request.ts:32-40 | a key is in the merged catalogue exactly when some file that loaded defines it |
| `I18nRequest.AccumulateLastWins` | client/i18n/request.ts:32-36 | files are merged in list order: a key's value comes from the last loaded file that defines it |
| `I18nRequest.AccumulateSkipsFailed` | client/i18n/request.ts:33-39 | a file whose load fails contributes nothing, and the files after it are still merged |
| `I18nRequest.Overlay` | client/i18n/request.ts:63 | the merge has the keys of both catalogues; the locale's value wins on shared keys, and English fills the rest |
| `I18nRequest.GetRequestConfig` | client/i18n/request.ts:12-69 | the returned locale is the resolved one; the messages are the English accumulation for "en", and otherwise the locale's accumulation laid over it; English files are imported for every locale, and locale files only for a locale other than "en" |
| `I18nRequest.ServedMessagesSpec` | client/i18n/request.ts:60-63 | for "en" the English messages are served as they are; for another locale every English key is served, the locale's text wins where both define a key, and English fills the rest |
| `JsLib.IndexOf` | client/core/components/switchers/ThemeSwitcher.tsx:29 | `indexOf` gives -1 exactly when the value is absent; otherwise it gives the first position holding the value |
| `ThemeSwitcher.CurrentIndex` | client/core/components/switchers/ThemeSwitcher.tsx:29 | an unset theme counts as "brown" (index 0); an unlisted theme gives -1; any other index names the theme |
| `ThemeSwitcher.NextTheme` | client/core/components/switchers/ThemeSwitcher.tsx:31-34 | the next theme is always one of the three listed themes |
| `ThemeSwitcher.NextOfListed` | client/core/components/switchers/ThemeSwitcher.tsx:32-33 | a listed theme at position i moves to the theme at (i + 1) mod 3 |
| `ThemeSwitcher.CycleOrder` | client/core/components/switchers/ThemeSwitcher.tsx:28-34 | brown goes to white, white to dark, and dark back to brown |
| `ThemeSwitcher.ThreeCyclesReturn` | client/core/components/switchers/ThemeSwitcher.tsx:32 | three cycles from a listed theme come back to it |
| `ThemeSwitcher.UnsetOrUnlisted` | client/core/components/switchers/ThemeSwitcher.tsx:29-38 | an unset theme moves to "white" and lights no icon flag; an unlisted theme moves to "brown" |
| `ThemeSwitcher.OneFlag` | client/core/components/switchers/ThemeSwitcher.tsx:36-38 | for a listed theme exactly one of `isDark`, `isLight`, `isBrown` holds |
| `LanguageSlice.Code` | client/core/store/slices/languageSlice.ts:4 | `lang` is always "en" or "ar": "en" exactly for English and "ar" exactly for Arabic |
| `LanguageSlice.LastActionWins` | client/core/store/slices/languageSlice.ts:13-15 | after any non-empty series of `setLanguage` actions the language is the last payload, whatever it was before |
| `LanguageSlice.AfterActionsConcat` | client/core/store/slices/languageSlice.ts:13-15 | dispatching one series of actions after another is the same as dispatching them as one series |
| `LanguageSlice.LanguageState.constructor` | client/core/store/slices/languageSlice.ts:7 | the initial state has `lang` = "en" |
| `LanguageSlice.LanguageState.SetLanguage` | client/core/store/slices/languageSlice.ts:13-15 | after `setLanguage(p)`, `lang` is p whatever it was before, and the slice has no other field to change; this is one step of the action series above |

## Left out

- JSX, class names and styling in all the components are left out. They are rendering only; the model keeps the decisions the rendering is based on.
- The 7000 ms auto-advance interval and the 600 ms transition timeout are left out as timers. They are the events `Tick` and `TransitionTimeout`, and their periods are not modelled.
- Tearing down the interval on unmount, and re-running the effects when `slides`, `strapiUrl` or `allMediaLoaded` change, are left out. The model is one mounted instance with fixed slides.
- Real image and video loading, Promises and the DOM are left out. Each load's outcome is an event method, which may arrive in any order.
- The loading percentage (`loadedMedia.size / slides.length * 100` and `Math.round`) is floating point and is left out. `LoadedMediaBound` states the count bound behind it.
- HeroSlider.MediaItem: the `formats`, `size` and `provider_metadata` fields are left out (nested format records, a floating-point size, an untyped blob). Nothing in the core reads them.
- The zero-slide case is left out. The only caller renders the slider only for a non-empty slide list (`HeroBanner.tsx:10`), so the constructor requires one slide or more.
- Pagination.Serialize: does not percent-encode names and values. Parsing `searchParams.toString()` back into a params object is taken to give the same pairs. Neither changes when the query is empty or where the `page` pair sits.
- `router.push`, `usePathname` and `useSearchParams` are I/O. The pathname and current query are parameters; the URL pushed is the result.
- Page numbers are integers below 2^53. The JavaScript `number` type also admits fractions and NaN, and it is inexact above 2^53 (where `currentPage ± 1` would round); none of that is modelled.
- The axios client is left out: its construction, base URL, headers and `validateStatus`. Because of `validateStatus`, a 5xx response reaches `request` as a thrown AxiosError and ends in the `catch` clause; the model takes that as a `Threw` outcome.
- The network call, `console.error`, and the `get`/`post`/`put`/`delete` wrappers are left out. The wrappers only pass their HTTP method to `request`.
- ServerApi.NormalizeError: the `message` and `error` fields of an object payload are taken as strings or absent, as the declared `ApiErrorResponse` type says. The cast at `server-api.ts:96` checks nothing, so a body with a non-string field would put that value itself into `message` (or "Unknown error" for a falsy one such as 0 or false); that case is not modelled.
- ServerApi.Request: the body is never `undefined` (a parsed response body never is), so `POther` excludes it; reading `.data` off `undefined` would throw into the `catch` clause.
- ServerApi.Request: `null` and `undefined` are one value (`None`) in the `data` field. The message of the `TypeError` raised by reading `data` from a `null` body depends on the engine, so it is the parameter `nullRead`.
- Dynamic `import()` of message JSON files and `console.error` in the i18n request handler are I/O. The loader is the function parameter `load`, and `imports` records the imports attempted.
- I18nRequest.Overlay: models `deepmerge` only on flat string catalogues. That is the declared `Messages` type; nested objects and arrays are out of scope.
- The theme switcher's unmounted placeholder, and the `next-themes` storage behind `useTheme`/`setTheme`, are left out. `NextTheme` is the value handed to `setTheme`.
- The Redux Toolkit machinery (`createSlice`, immer drafts, the store and its provider) is left out. The slice is a class whose reducer assigns its one field in place.
- Header, search bar, buttons, language switcher, toast provider and hooks, the footer's newsletter form, `HeroBanner`'s fetch, the layouts, CMS configuration and generated types are not part of this model. They are UI wrappers, network code or configuration. From `routing.ts` only the constants `["ar", "en"]` and `"en"` are used, by the i18n request handler.
