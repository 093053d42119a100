/**
 * The page as the content script sees it: element records carrying the two
 * `data-doomscroll-*` attributes, and the pure meaning of one reconciliation
 * pass over them. The class in engine.dfy performs these passes in place and
 * is proved against the functions here.
 */
module Dom {
  import opened Sites
  import opened Settings
  import opened Options

  /** One element of the page.
      attached  -- `element.parentNode` is set
      inline    -- `element.style.display`
      sheet     -- the display the style sheets give it when there is no inline value
      blocked   -- the `data-doomscroll-blocked` attribute is present
      stash     -- the `data-doomscroll-original-display` attribute, if present
      matches   -- the selectors `document.querySelectorAll` would return it for */
  datatype Element = Element(attached: bool, inline: string, sheet: string,
                             blocked: bool, stash: Option<string>, matches: set<string>)

  /** `getComputedStyle(element).display`: the inline value wins when it is set. */
  function Computed(e: Element): string
  {
    if e.inline != "" then e.inline else e.sheet
  }

  /** The three loops that clear the markers each restore the inline display their own way:
      InitClear     -- at initialisation, always '' (content.js:52-56)
      StashTruthy   -- in a pass, the stash if truthy, '' for 'none' (content.js:112-121)
      StashNonEmpty -- before applying selectors, '' for 'none' or '' (content.js:231-240);
                       a missing stash gives `null`, which a style property stores as ''. */
  datatype Policy = InitClear | StashTruthy | StashNonEmpty

  function RestoreValue(p: Policy, stash: Option<string>): string
  {
    match p
    case InitClear => ""
    case StashTruthy =>
      if stash.Some? && stash.value != "" then (if stash.value == "none" then "" else stash.value) else ""
    case StashNonEmpty =>
      if stash.None? || stash.value == "none" || stash.value == "" then "" else stash.value
  }

  /** The two pass-time loops agree on every stash; the initialisation loop ignores it. */
  lemma RestoreLoopsAgree(stash: Option<string>)
    ensures RestoreValue(StashTruthy, stash) == RestoreValue(StashNonEmpty, stash)
    ensures stash.Some? && stash.value != "none" ==> RestoreValue(StashTruthy, stash) == stash.value
    ensures stash.Some? && stash.value == "none" ==> RestoreValue(StashTruthy, stash) == ""
    ensures RestoreValue(InitClear, stash) == ""
  {
  }

  /** Clearing one marked element: restore the display, remove both attributes. */
  function Unmark(e: Element, p: Policy): Element
  {
    e.(inline := RestoreValue(p, e.stash), blocked := false, stash := None)
  }

  /** `querySelectorAll('[data-doomscroll-blocked]')` followed by the clearing loop body. */
  function Reset(e: Element, p: Policy): Element
  {
    if e.blocked then Unmark(e, p) else e
  }

  function ResetAll(es: seq<Element>, p: Policy): (r: seq<Element>)
    ensures |r| == |es|
  {
    seq(|es|, k requires 0 <= k < |es| => Reset(es[k], p))
  }

  /** Hiding one element: stash its computed display, then set display none and the marker. */
  function Hide(e: Element): Element
  {
    e.(stash := Some(Computed(e)), inline := "none", blocked := true)
  }

  /** One selector's effect on one element: it is hidden when the query for the selector
      succeeds, returns it, it has a parent, and it is not already marked (content.js:244-262). */
  function Step(e: Element, sel: string, rejects: set<string>): Element
  {
    if sel !in rejects && sel in e.matches && e.attached && !e.blocked then Hide(e) else e
  }

  /** Some selector of the list whose query succeeds returns an element with these matches. */
  predicate Hit(matches: set<string>, sels: seq<string>, rejects: set<string>)
    decreases |sels|
  {
    |sels| > 0 && (Hit(matches, sels[..|sels| - 1], rejects)
                   || (sels[|sels| - 1] !in rejects && sels[|sels| - 1] in matches))
  }

  lemma {:induction false} HitIff(matches: set<string>, sels: seq<string>, rejects: set<string>)
    ensures Hit(matches, sels, rejects) <==>
            exists j :: 0 <= j < |sels| && sels[j] !in rejects && sels[j] in matches
    decreases |sels|
  {
    if |sels| > 0 {
      var n := |sels| - 1;
      HitIff(matches, sels[..n], rejects);
      if j :| 0 <= j < |sels| && sels[j] !in rejects && sels[j] in matches {
        if j < n {
          assert sels[..n][j] == sels[j];
        }
      }
      if Hit(matches, sels[..n], rejects) {
        var j :| 0 <= j < n && sels[..n][j] !in rejects && sels[..n][j] in matches;
        assert sels[j] == sels[..n][j];
      }
    }
  }

  /** What the selectors, applied in turn, do to one element. */
  function Applied(e: Element, sels: seq<string>, rejects: set<string>): Element
  {
    if !e.blocked && e.attached && Hit(e.matches, sels, rejects) then Hide(e) else e
  }

  /** Applying one more selector to the result of a prefix extends the prefix by it. */
  lemma AppliedStep(e: Element, sels: seq<string>, i: nat, rejects: set<string>)
    requires i < |sels|
    ensures Step(Applied(e, sels[..i], rejects), sels[i], rejects) == Applied(e, sels[..i + 1], rejects)
  {
    assert sels[..i + 1][..i] == sels[..i];
  }

  /** `blockElementsBySelectors(sels)`: clear every marker, then apply each selector. */
  function BlockPass(es: seq<Element>, sels: seq<string>, rejects: set<string>): (r: seq<Element>)
    ensures |r| == |es|
  {
    seq(|es|, k requires 0 <= k < |es| => Applied(Reset(es[k], StashNonEmpty), sels, rejects))
  }

  /** The selectors of each site (content.js:138-216). */
  function Catalog(s: Site): seq<string>
  {
    match s
    case YouTube => ["ytd-rich-grid-renderer", "ytd-rich-item-renderer",
                     "ytd-watch-next-secondary-results-renderer", "#related"]
    case LinkedIn => ["[aria-label=\"Main Feed\"]", "[aria-label=\"LinkedIn News\"]"]
    case Facebook => ["[role=\"main\"]"]
    case Twitter => ["div[aria-label=\"Timeline: Your Home Timeline\"]", "div[aria-label=\"Trending\"]"]
    case Reddit => [".masthead", "#right-sidebar-container", "shreddit-feed"]
    case Instagram => ["article"]
  }

  /** The block for one site in a pass: run its selectors when the page is of that site
      and its flag is set. */
  function SitePass(es: seq<Element>, site: Site, host: string, settings: SettingsMap,
                    rejects: set<string>): (r: seq<Element>)
    ensures |r| == |es|
  {
    if Matches(host, site) && Flag(settings, site) then BlockPass(es, Catalog(site), rejects) else es
  }

  /** The site blocks of a pass, in order. */
  function SitePasses(es: seq<Element>, sites: seq<Site>, host: string, settings: SettingsMap,
                      rejects: set<string>): (r: seq<Element>)
    ensures |r| == |es|
    decreases |sites|
  {
    if |sites| == 0 then es
    else SitePass(SitePasses(es, sites[..|sites| - 1], host, settings, rejects),
                  sites[|sites| - 1], host, settings, rejects)
  }

  /** `updateBlocking()`: clear every marker, stop if a matching site is switched off,
      otherwise run every matching enabled site's selectors in site order. */
  function Reconcile(es: seq<Element>, host: string, settings: SettingsMap, rejects: set<string>): (r: seq<Element>)
    ensures |r| == |es|
  {
    var cleared := ResetAll(es, StashTruthy);
    if AnyDisabled(host, settings) then cleared
    else SitePasses(cleared, SiteOrder, host, settings, rejects)
  }
}
