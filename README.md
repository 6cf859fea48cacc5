# GameVault behaviour layer, modelled in Dafny

GameVault is a static gaming-portal page whose `script.js` binds DOM events
to a few pieces of state. This project models the four parts of that script
that hold real logic, with plain data in place of the DOM:

- **The ad coordinator** (`ads.dfy`, module `Ads`). It covers the pop-up
  overlay (`showPopup`, `closePopup`, the timer and scroll triggers, the
  outside-click rule) and the sticky bottom ad (`closeStickyAd`,
  `setupStickyAd`, its reveal timer, the debounced resize handler). The
  page-lifetime state is the value `AdState`. Each handler is a function on
  it, and a page run is a sequence of `Event`s. The class `AdPage` holds the
  same state in mutable fields, the way the script holds its two flags and
  two elements. Each of its methods is proved to make exactly the matching
  transition, and the properties are proved as lemmas over all event
  sequences.
- **The search filter** (`search.dfy`, module `Search`). It covers
  `filterGames` and the two handlers of `setupSearch`. The `.game-card`
  elements are an `array<GameCard>`, and the filter rewrites each card in
  place.
- **The active-nav highlighter** (`nav.dfy`, module `Nav`). It covers the
  scroll listener of `updateActiveNav`: a forward scan that keeps the last
  reached section, and a loop that rewrites every link's `active` flag.
- **The lazy image loader** (`lazy_load.dfy`, module `LazyLoad`). It covers
  the observer registration and the intersection callback of
  `setupLazyLoading`, over an `array<Image>`.

`text.dfy` (module `Text`) holds the string operations the script takes
from the runtime: `toLowerCase` (on ASCII letters), `includes` and `trim`.
`wrappers.dfy` holds `Option`.

Modelling choices:

- An element that `querySelector` or `getElementById` may not find is a
  boolean (`overlayPresent`, `stickyPresent`) or an `Option`.
- A class on an element is a boolean field. The inline `display: none` on
  the sticky ad is the field `stickyHidden`.
- The sticky ad is taken to be visible when it exists, has the `active`
  class and has no inline `display: none`. The stylesheet is not part of
  this model, so this reading of the CSS is an assumption.
- The scroll percentage of the pop-up's scroll trigger is a boolean input:
  "the threshold has been reached".
- `pageYOffset` is a `real`, because browsers report fractional scroll
  offsets. `offsetTop` is an `int`.
- Timers and the resize debounce are events, `PopupTimerFired`,
  `StickyTimerFired` and `ResizeSettled(width)`, delivered when their
  callbacks run.

Three behaviours of the code are easy to miss:

- Every other element lookup in script.js is checked before use
  (script.js:22, 35, 73, 87, 442, 455). But `filterGames` reads
  `querySelector('.game-title').textContent` and its two siblings with no
  check (script.js:192-194). So a card that lacks one of its three text
  children throws a TypeError. That stops the `forEach` and leaves that card
  and every later card unfiltered. `FilterGames` models this: it returns
  `thrown` and filters exactly the cards before the first unreadable one.
- The sticky ad's reveal timer adds `active` without looking at
  `stickyAdClosed` (script.js:85-90). So a timer scheduled before a dismissal
  still marks the closed ad. The ad stays invisible only because the inline
  `display: none` set by `closeStickyAd` remains. `ClosedStickyStaysHidden`
  proves that it never comes back.
- An image with an empty `data-src=""` matches `img[data-src]` and is
  observed (script.js:357). But `img.dataset.src` is falsy (script.js:348),
  so the callback never loads it and never unobserves it.

## Model

| member | source | states |
|---|---|---|
| `Text.Lower` | script.js:189-194 | Lower-casing keeps the length and lower-cases each character on its own (ASCII letters only). |
| `Text.LowerIdempotent` | script.js:189 | Lower-casing an already lower-cased string changes nothing. |
| `Text.IncludesIsSubstring` | script.js:196 | `includes` holds exactly when the needle occurs at some offset of the haystack, in both directions. |
| `Text.TrimStart` | script.js:163 | The result is a suffix of the input that does not start with whitespace, and every dropped character is whitespace. |
| `Text.TrimEnd` | script.js:163 | The result is a prefix of the input that does not end with whitespace, and every dropped character is whitespace. |
| `Text.Includes` | script.js:196 | `includes`, as a left-to-right scan over offsets. `Text.IncludesIsSubstring` gives it its meaning: an occurrence of the needle at some offset. |
| `Text.Trim` | script.js:163 | `trim`: `TrimStart` and then `TrimEnd`, whose own contracts give its meaning. `Text.TrimEmptyIffBlank` says when the result is empty. |
| `Text.TrimEmptyIffBlank` | script.js:163-164 | The trimmed query is empty exactly when every character of the input is whitespace. |
| `Search.FirstUnreadable` | script.js:191-194 | Gives the index of the first card lacking a title, category or description child (or the card count); every card before it is readable. |
| `Search.Matches` | script.js:189-196 | The `if` test of the filter: the lower-cased query is included in a lower-cased title, category or description. `Search.FilteredShownIffHit` gives it its meaning through substrings. |
| `Search.Filtered` | script.js:196-201 | The loop body on one readable card: `display` becomes `block` with the fade-in cue on a match, and `none` otherwise. `Search.FilteredShownIffHit` states its meaning. |
| `Search.FilteredShownIffHit` | script.js:189-201 | A filtered card is shown if and only if the lower-cased query is a substring of one of its lower-cased fields, and hidden otherwise. Its text is unchanged, and the fade-in cue is set on shown cards only. |
| `Search.MatchIgnoresQueryCase` | script.js:189 | Filtering with the lower-cased query gives the same card as filtering with the query. |
| `Search.FilterIdempotent` | script.js:191-202 | Filtering a filtered card again with the same query changes nothing. |
| `Search.FilterGames` | script.js:187-203 | Its `ensures` is `FilterOutcome`: each card before the first unreadable one becomes its own filtered version. That card and every later one stay as they were, and `thrown` is raised exactly when an unreadable card exists. |
| `Search.Search` | script.js:163-168 | A blank trimmed input leaves every card unchanged. Otherwise the cards are filtered with the trimmed input. |
| `Search.OnSearchClick` | script.js:162-170 | A button click filters with the trimmed input, and only when that input is not empty. |
| `Search.OnSearchKeyPress` | script.js:172-180 | Only the Enter key with a non-blank trimmed input filters. Any other key, or a blank input, changes nothing. |
| `Search.CategoryHitExample` | script.js:196-198 | The query "strategy" shows the card "Dune Empire" through its category "Strategy". |
| `Nav.CurrentOf` | script.js:130-139 | The value `current` holds after the scan. `Nav.CurrentIsLastReached` and `Nav.CurrentEmptyWhenNoneReached` state its meaning: the last reached section, or `''`. |
| `Nav.CurrentIsLastReached` | script.js:130-139 | If section k has `pageYOffset >= offsetTop - 100` and no later section does, then the scan ends with k's id. The last reached section wins. |
| `Nav.CurrentEmptyWhenNoneReached` | script.js:130-139 | If no section is reached, `current` stays `''`. |
| `Nav.ScanCurrent` | script.js:130-139 | The forward loop returns the scan's value, which is the id of the last reached section or `''`. |
| `Nav.MarkActive` | script.js:141-146 | After the loop, each link is active if and only if its `href` is `'#' + current`. Every `href` is unchanged. |
| `Nav.OnScroll` | script.js:129-147 | After a scroll event, each link is active if and only if its `href` is `'#'` followed by the id of the last reached section. |
| `Nav.AtMostOneActive` | script.js:141-146 | When link `href`s are pairwise distinct, at most one link is active, and it is the link for `current`. |
| `Nav.LaterSectionWinsExample` | script.js:132-139 | Scrolled to 750 with sections at 0, 800 and 1600, the current section is the second one. |
| `LazyLoad.OnEntry` | script.js:346-352 | The callback body for one entry. `LazyLoad.OnEntryIsOneShot` states its meaning: one swap, then no further change. |
| `LazyLoad.OnEntryIsOneShot` | script.js:346-352 | An intersecting image with a non-empty `data-src` takes that source, loses the attribute and is unobserved. Every other entry leaves the image untouched, and no entry changes an image after it has loaded. |
| `LazyLoad.AfterEntries` | script.js:344-355 | Running the callback over a batch of entries keeps the number of images. |
| `LazyLoad.AfterEntriesLoadsOnce` | script.js:344-355 | After any batch, an image is loaded exactly once if some entry reported it intersecting, and is untouched otherwise. How many such entries there were does not matter. |
| `LazyLoad.OnIntersections` | script.js:345-354 | The callback loop leaves the images exactly as the entry-by-entry specification says. |
| `LazyLoad.SetupLazyLoading` | script.js:343-360 | When `IntersectionObserver` is supported, every image carrying `data-src`, even an empty one, becomes observed. Nothing else changes. |
| `Ads.AdState.ShowPopup` | script.js:19-28 | `showPopup` as a transition. `Ads.ShowPopupOnce` and `Ads.ActivatedAtMostOnce` state its meaning. |
| `Ads.AdState.ClosePopup` | script.js:33-38 | `closePopup` as a transition. `Ads.CloseDoesNotRearm` states its meaning. |
| `Ads.AdState.OnScroll` | script.js:53-61 | The pop-up's scroll listener as a transition. `Ads.NoActivationAfterShown` and `Ads.ScrollShowsPopup` state its meaning. |
| `Ads.AdState.OnDocumentClick` | script.js:453-458 | The document click listener as a transition. `Ads.OutsideClickRule` states its meaning. |
| `Ads.AdState.CloseStickyAd` | script.js:71-77 | `closeStickyAd` as a transition. `Ads.CloseStickyLatches` and `Ads.ClosedStickyStaysHidden` state its meaning. |
| `Ads.AdState.SetupStickyAd` | script.js:82-92 | `setupStickyAd` as a transition. `Ads.StickySetupGate` and `Ads.StickyRevealNeedsMobileSetup` state its meaning. |
| `Ads.AdState.OnStickyTimer` | script.js:85-90 | The reveal timer's callback as a transition. `Ads.StickyRevealNeedsMobileSetup` and `Ads.ClosedStickyStaysHidden` bound what it can show. |
| `Ads.AdState.OnResize` | script.js:436-446 | The debounced resize callback as a transition. `Ads.ResizeNeverReveals` states its meaning. |
| `Ads.AdState.Step` | script.js:391-458 | Dispatch of one event to its handler. `Ads.StepConsistent` says every step keeps the consistency facts. |
| `Ads.AdState.Run` | script.js:391-458 | The state after a sequence of events. The run lemmas below state its properties. |
| `Ads.Initial` | script.js:9-10 | At page load both flags are down, the state is consistent and the sticky ad is not visible. |
| `Ads.ShowPopupOnce` | script.js:19-28 | `showPopup` changes the state only when the flag is down and the overlay exists, and then it activates the overlay and raises the flag. Calling it twice is the same as calling it once. |
| `Ads.CloseDoesNotRearm` | script.js:33-38 | `closePopup` deactivates an existing overlay and does not reset the flag. A later `showPopup` after a shown pop-up is closed does nothing. |
| `Ads.OutsideClickRule` | script.js:453-458 | A click on the overlay itself closes the pop-up. A click anywhere else, a descendant included, changes nothing. |
| `Ads.CloseStickyLatches` | script.js:71-77 | `closeStickyAd` on an existing ad hides it and raises the closed flag, and nothing else. Without the element it does nothing. |
| `Ads.StickySetupGate` | script.js:82-92 | `setupStickyAd` schedules a reveal exactly when `innerWidth <= 768` and the ad is not closed, and touches nothing else. |
| `Ads.ResizeNeverReveals` | script.js:434-447 | The resize callback never makes the sticky ad visible. Above 768 it hides it, and it changes nothing but the hidden style. |
| `Ads.StepConsistent` | script.js:19-92 | Every handler keeps the consistency facts. An active overlay was shown, and a closed sticky ad is hidden. |
| `Ads.RunConsistent` | script.js:391-458 | Every run of events keeps the consistency facts. |
| `Ads.PopupShownLatches` | script.js:20-24 | Once `popupShown` is raised, it stays raised along every sequence of events. |
| `Ads.NoActivationAfterShown` | script.js:52-61 | After the pop-up has been shown, no event sequence (timer or scroll) activates the overlay again. |
| `Ads.ActivatedAtMostOnce` | script.js:19-61 | Along any run from a state with the flag down, the overlay is activated at most once. It is activated exactly when the run ends with `popupShown` raised. |
| `Ads.TimerShowsPopup` | script.js:43-47 | If the overlay exists and the pop-up timer has fired in the run, the pop-up has been shown by its end. |
| `Ads.ScrollShowsPopup` | script.js:50-61 | If the overlay exists and some scroll event of the run found the threshold reached, the pop-up has been shown by the end. |
| `Ads.StickyClosedLatches` | script.js:71-77 | Once `stickyAdClosed` is raised, it stays raised along every sequence of events. |
| `Ads.ClosedStickyStaysHidden` | script.js:71-92 | Once the sticky ad is dismissed, no later event makes it visible: not a resize, not a reveal timer scheduled earlier, not a new setup. |
| `Ads.StickyRevealNeedsMobileSetup` | script.js:80-91 | The sticky ad is shown only on mobile. Starting with no reveal scheduled and the ad not active (as at page load), a run in which `setupStickyAd` never ran at a width of 768 or less never makes the ad visible or active. |
| `Ads.MobileRevealExample` | script.js:84-90 | On a 500-pixel viewport with the ad not closed, the sticky ad is visible once the reveal timer has run. |
| `Ads.ClosedThenResizedExample` | script.js:436-446 | Dismissed before a resize to 1200 pixels, the sticky ad stays hidden, even when the reveal timer runs afterwards. |
| `Ads.AdPage.constructor` | script.js:9-10 | The page starts in the initial state. |
| `Ads.AdPage.ShowPopup` | script.js:19-28 | The method makes exactly the `showPopup` transition on the fields. |
| `Ads.AdPage.ClosePopup` | script.js:33-38 | The method makes exactly the `closePopup` transition on the fields. |
| `Ads.AdPage.OnPopupTimer` | script.js:43-47 | The timer callback makes exactly the `showPopup` transition. |
| `Ads.AdPage.OnScroll` | script.js:53-61 | The scroll listener returns at once when the pop-up was shown, and otherwise shows it when the threshold is reached. |
| `Ads.AdPage.OnDocumentClick` | script.js:453-458 | The click listener closes the pop-up only for a click on the overlay itself. |
| `Ads.AdPage.CloseStickyAd` | script.js:71-77 | The method makes exactly the `closeStickyAd` transition on the fields. |
| `Ads.AdPage.SetupStickyAd` | script.js:82-92 | The method schedules one reveal exactly when the mobile gate holds. |
| `Ads.AdPage.OnStickyTimer` | script.js:85-90 | A pending reveal runs: it adds `active` to an existing sticky ad. |
| `Ads.AdPage.OnResize` | script.js:436-446 | The debounced resize callback hides an existing sticky ad above 768 pixels. |
| `Ads.AdPage.Dispatch` | script.js:391-458 | Each event runs its own handler, and the new state is that event's transition. |

## Left out

- DOM querying, `classList` and `style` writes: elements are records and booleans, as described above.
- Timer durations (15000, 5000, 2000 and 250 ms), `setTimeout` and `clearTimeout`: timers and the resize debounce are events. A sequence of events stands for any interleaving the browser can produce.
- The scroll percentage of script.js:56: it is a floating-point division whose denominator may be zero. The model takes "threshold reached" as a boolean input.
- The `IntersectionObserver` machinery, its options, and which entries it delivers: the callback is modelled for any batch of entries. Its one-shot property holds even if the observer reported an unobserved image again.
- Unicode `toLowerCase`: `Text.Lower` lower-cases only ASCII letters.
- The `setupSearch` binding guard (script.js:161): the two handlers exist only when both the input and the button exist. The model's handlers are what runs in that case.
- `setupScrollAnimations` and `setupCategoryFilters`: fixed opacity and transform assignments and a timed restore, with no logic to state.
- `setupGlitchEffect` (CSS animation swaps), `setupDownloadTracking` and `setupMobileMenu` (console logging only), `setupExternalLinks` (attribute tagging behind one `includes(hostname)` test) and the smooth-scroll anchor binder (script.js:101-120).
- All `console.log` output.
