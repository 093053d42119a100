# DoomScroll blocking engine in Dafny

DoomScroll is a browser extension that hides the feeds of six social-media
sites (YouTube, LinkedIn, Facebook, Twitter/X, Reddit, Instagram) according to
per-site switches. This project models its content script's settings, its
hostname tests, the reconciliation pass that unblocks and re-blocks page
elements, the observer/debounce lifecycle, and the settings panel's toggle
patch and reload decision. It proves what those pieces guarantee.

Files, one module each:

- `options.dfy` (`Options`): the `Option` type for missing attributes, tab fields and checkboxes.
- `sites.dfy` (`Sites`): the six sites, their domain strings (Twitter is `"x.com"`),
  `includes` as the recursive `Contains`, and ASCII lower-casing.
- `settings.dfy` (`Settings`): the settings map, its defaults, the spread merge, the
  `shouldBlock` test and the early-return "some matching site is off" test.
- `dom.dfy` (`Dom`): element records and the pure meaning of each pass. An element
  record holds the parent flag, the inline display, the style-sheet display, the
  `data-doomscroll-blocked` marker, the `data-doomscroll-original-display` stash and
  the selectors it matches. The functions cover the three unblocking loops, hiding,
  `blockElementsBySelectors` (`BlockPass`) and `updateBlocking` (`Reconcile`).
- `reconcile_facts.dfy` (`ReconcileFacts`): what a pass guarantees.
- `debounce.dfy` (`Debounce`): the observer and `doomscrollUpdating` flag as a state
  machine over the events Mutation, TimerFire and Loaded(shouldBlock).
- `engine.dfy` (`Engine`): class `ContentScript`. It holds the module-level state and
  an `array<Element>` for the page. Its methods run the loops in place and are proved
  equal to the `Dom` functions and the `Debounce` transitions.
- `popup.dfy` (`Popup`): the one-key patch, the reload decision and the load loop
  that sets the checkboxes.

Behaviour of the code worth knowing:

- A round trip does not always restore an element's display exactly. The unblocking
  loops turn a stash of `'none'` into `''` (content.js:115, content.js:233-234). An
  element that was already hidden therefore comes back with its style-sheet display
  (`HideThenUnmark`, `DisableRestoresDisplay`).
- Applicability does not require exactly one matching site. A pass returns early if
  any matching site is switched off (content.js:124-131). Otherwise every matching
  enabled site runs in the order YouTube, LinkedIn, Facebook, Twitter, Reddit,
  Instagram (content.js:134-222). Each run clears all markers first
  (content.js:231-240), so the last one wins (`LastEnabled`, `ReconcileMarks`).
- `shouldBlock` (content.js:60-65) and the early-return test (content.js:124-129) can
  both hold on a hostname that contains two sites' domains with different flags. The
  observer is then set up but nothing is blocked (`BothTestsNeedTwoSites`).
- Containment is plain substring search. `"x.com"` matches `dropbox.com`
  (content.js:63, `TwitterMatchesDropbox`). The panel tests the whole URL, query
  string included (popup.js:53-64, `ReloadFromQueryString`).

## Model

| member | source | states |
|---|---|---|
| Sites.ContainsIff | content.js:60-65 | `includes` holds exactly when the domain occurs at some position of the hostname |
| Sites.LowerKeepsContains | popup.js:53 | lower-casing a URL keeps every occurrence of a lower-case domain |
| Settings.DefaultsComplete | content.js:28-35 | the defaults hold all six keys, each `true` |
| Settings.Merge | content.js:20 | the merge takes the patch's value for each key it holds and the previous value for every other key; its keys are the union |
| Settings.MergeIdempotent | content.js:20 | merging the same patch twice equals merging it once |
| Settings.MergeKeepsComplete | content.js:48 | after a merge over complete settings all six keys are still present |
| Settings.ShouldBlockIff | content.js:60-65 | `shouldBlock` holds iff some site's domain is in the hostname and that site's flag is set |
| Settings.AnyDisabledIff | content.js:124-129 | the early return is taken iff some site's domain is in the hostname and its flag is not set |
| Settings.OneSiteTestsAgree | content.js:124-129 | on a hostname of exactly one site, `shouldBlock` is that site's flag and the early return its negation |
| Settings.BothTestsNeedTwoSites | content.js:60-65 | both tests can hold together only when two sites with different flags match the hostname |
| Settings.TwitterMatchesDropbox | content.js:63 | `dropbox.com` contains `x.com`, so the Twitter flag applies there |
| Settings.YouTubeHostMatchesOnlyYouTube | content.js:134 | on `www.youtube.com` only YouTube's domain matches, so no other site's selectors run |
| Dom.RestoreLoopsAgree | content.js:231-240 | the two pass-time unblocking loops restore the same value for every stash; `'none'` gives `''`; the initialisation loop always gives `''` |
| Dom.HitIff | content.js:244-262 | an element is hit by a selector list iff some selector whose query does not throw returns it |
| Dom.AppliedStep | content.js:247-257 | processing one more selector hides an element only if it is returned, attached and not yet marked |
| ReconcileFacts.LastEnabled | content.js:134-222 | the chosen site is in the list, matches the hostname and is enabled; with none chosen, no site of the list runs |
| ReconcileFacts.LastEnabledIsLast | content.js:134-222 | a running site with no running site after it is the one chosen |
| ReconcileFacts.BlockPassMarks | content.js:229-264 | after `blockElementsBySelectors` an element is marked iff it is attached and hit by the list; its parent flag, style-sheet display and selectors are unchanged |
| ReconcileFacts.BlockPassStash | content.js:248-255 | a marked element is hidden inline and its stash is the computed display it had after the list's own unblocking loop (content.js:231-240), even when several selectors return it |
| ReconcileFacts.FailingSelectorSkipped | content.js:244-262 | a selector that throws does not stop the others from hiding what they return |
| ReconcileFacts.SitePassesMarks | content.js:134-222 | after the site blocks, the marked elements are exactly those the last running site's selectors hit |
| ReconcileFacts.ReconcileMarks | content.js:106-223 | after `updateBlocking` an element is marked iff no matching site is off, some site runs, and the last running site's selectors hit the attached element |
| ReconcileFacts.DisabledLeavesNothingBlocked | content.js:123-131 | a matching site whose flag is off leaves no element marked, whatever earlier passes marked |
| ReconcileFacts.NoSiteNothingBlocked | content.js:133-222 | on a page of no known site no element is marked after a pass |
| ReconcileFacts.BlockedMatchesLastSite | content.js:134-222 | every marked element is returned by a non-throwing selector of the last running site, whose domain the hostname contains |
| ReconcileFacts.ReconcileIdempotent | content.js:106-131 | a second pass with the same settings and page marks the same elements as the first |
| ReconcileFacts.ResetPaired | content.js:112-121 | unblocking removes marker and stash together |
| ReconcileFacts.SitePassesPaired | content.js:248-255 | the site blocks keep marker and stash paired and marked elements hidden |
| ReconcileFacts.ReconcilePaired | content.js:106-223 | a pass keeps every element's marker and stash paired, and every marked element is attached and has inline display `'none'` |
| ReconcileFacts.HideThenUnmark | content.js:231-240 | hiding and then unblocking gives back the computed display, or the style-sheet display when it was `'none'` |
| ReconcileFacts.StepsKeepRestored | content.js:244-257 | no unblock or hide step changes the display an element will get back, unless that display is `'none'` |
| ReconcileFacts.SitePassesKeepRestored | content.js:134-222 | the site blocks keep the display each element will get back, unless that display is `'none'` |
| ReconcileFacts.DisableRestoresDisplay | content.js:112-131 | blocking and then passing with the element's site switched off leaves it unmarked with its original computed display, unless that was `'none'` |
| Debounce.Next | content.js:67-95 | a mutation runs a pass iff an observer exists and the flag is clear, then sets the flag; the timer clears it; a load sets the observer to `shouldBlock` and runs a pass iff it holds |
| Debounce.BurstWhileUpdating | content.js:75 | while the flag is set, any number of mutations runs nothing |
| Debounce.BurstWithoutObserver | content.js:91-95 | without an observer, mutations run nothing |
| Debounce.BurstRunsOnce | content.js:73-81 | a burst of one or more mutations inside one window runs exactly one pass |
| Debounce.TimerReopensWindow | content.js:79 | after the timer fires, the next burst runs one more pass |
| Debounce.LoadedOffSilencesMutations | content.js:91-95 | a load with `shouldBlock` false drops the observer, and later mutations run nothing |
| Engine.ContentScript.constructor | content.js:28-38 | the script starts with the default settings, no observer and the flag clear |
| Engine.ContentScript.ResetMarked | content.js:112-121 | the loop leaves every element as the unblocking function says |
| Engine.ContentScript.BlockBySelectors | content.js:229-264 | the nested loops leave the page equal to `BlockPass` of the old page |
| Engine.ContentScript.ApplySite | content.js:134-148 | one site block runs that site's selectors iff the hostname matches and the flag is set |
| Engine.ContentScript.UpdateBlocking | content.js:106-223 | the page becomes `Reconcile` of the old page; overflow is set to auto; settings and observer state are unchanged; pairing is kept |
| Engine.ContentScript.Initialize | content.js:44-97 | settings become the stored values merged over the current ones; markers are cleared with `''`; the page is reconciled iff `shouldBlock`, and overflow is set to auto exactly then; the observer state follows the Loaded transition |
| Engine.ContentScript.OnToggle | content.js:9-14 | a toggle message runs one pass, sets overflow to auto and changes nothing else |
| Engine.ContentScript.OnSettingsUpdate | content.js:17-25 | the patch is merged into the settings, then one pass runs with the new settings and sets overflow to auto |
| Engine.ContentScript.OnMutation | content.js:73-81 | the callback follows the Mutation transition and reconciles, and sets overflow to auto, exactly when it ran |
| Engine.ContentScript.OnTimer | content.js:79 | the timer clears the flag and nothing else |
| Popup.DomainTablesAgree | popup.js:54-61 | the panel's domain table has the same six site-to-domain pairs as the content script's tests, and no other key |
| Popup.TogglePatch | popup.js:42-43 | the patch has exactly one key, the toggled site, mapped to the checkbox's value |
| Popup.ToggleChangesOneFlag | popup.js:42-46 | saving the patch changes the toggled site's flag and no other |
| Popup.ReloadTarget | popup.js:50-70 | a reload names the active tab's id, and only when the tab exists and has an id |
| Popup.NoTabNoReload | popup.js:51 | no tab, a missing or zero id, or a missing or empty URL means no reload |
| Popup.ReloadIff | popup.js:53-64 | a toggle reloads iff the tab has an id and a URL and the lower-cased URL contains the site's domain |
| Popup.UnknownKeyNoReload | popup.js:64 | a key that is not in the domain table never reloads |
| Popup.ReloadIgnoresCase | popup.js:53 | a URL that contains the domain reloads, whatever the case of its other letters |
| Popup.ReloadFromQueryString | popup.js:53-64 | containment is over the whole URL, so a domain in the query string also reloads |
| Popup.LoadToggles | popup.js:29-36 | each present checkbox shows the stored value merged over the defaults; missing ones are skipped |
| Popup.LoadedShowsMergedSettings | popup.js:19-35 | a shown checkbox equals its site's value in the stored settings merged over the defaults, the map a freshly loaded content script holds |

## Left out

- The extension APIs (`chrome.runtime.onMessage`, `chrome.storage.sync`, `chrome.tabs.query` and `reload`) are asynchronous foreign calls. Their effects appear as parameters: the stored settings, the message patch, the tab list and the returned reload target.
- CSS selector matching, `getComputedStyle` and the cascade are abstracted. Each element lists the selectors it matches and has one style-sheet display. A set of selectors stands for those whose query throws.
- Timers, `MutationObserver` delivery, `DOMContentLoaded`/`readyState` and the 100 ms window are replaced by the explicit events of `Debounce`. A TimerFire event stands for the reset scheduled by the last pass that ran.
- The `isEnabled` variable is written by the toggle message but never read, so it is not modelled.
- Logging (`console.log`, `console.error`) and the panel's event-listener wiring and element lookups are not modelled. Lookups appear only as present or missing checkboxes.
- `document.body.style.overflow` is tracked only as the boolean `overflowAuto`.
- Settings keys outside the six sites are not modelled. Nothing reads them.
- Popup.ReloadTarget: `toLowerCase` is modelled on ASCII letters only. Full Unicode case mapping is not modelled.
- Engine.ContentScript.constructor: the page's own attributes are not modelled. The model assumes that only the script writes the two `data-doomscroll-*` attributes, so marker and stash start paired.
- Every element record stands for an element of the document: `attached` models the `element.parentNode` test (content.js:248), which holds for every element the marker query can return. Only attached elements are ever marked, and `Paired` records that.
- Engine.ContentScript.OnMutation: the page is a fixed array. Records change only through the script's own methods; elements the site inserts or removes and the site's own style writes are not modelled, so a mutation pass reconciles the unchanged page. The facts of `ReconcileFacts` hold for every page, so they apply to whatever page a pass starts from.
