/**
 * The content script's module state and the loops that change the page in
 * place (content.js:9-131, 229-264). The page is an array of element records;
 * each method is proved to leave the array as the matching function of
 * dom.dfy says, so the facts of reconcile_facts.dfy apply to it.
 */
module Engine {
  import opened Sites
  import opened Settings
  import opened Dom
  import opened Options
  import opened ReconcileFacts
  import opened Debounce

  class ContentScript {
    /** `window.location.hostname` of the page. */
    const host: string
    /** The selectors `document.querySelectorAll` throws on. */
    const rejects: set<string>
    /** The page's elements, changed in place. */
    const elems: array<Element>

    /** The module-level `settings`. */
    var settings: SettingsMap
    /** `observer !== null`. */
    var observing: bool
    /** `window.doomscrollUpdating`. */
    var updating: bool
    /** `document.body.style.overflow === 'auto'`. */
    var overflowAuto: bool

    ghost predicate Valid()
      reads this, elems
    {
      AllPaired(elems[..]) && Complete(settings)
    }

    function Control(): Debounce.Control
      reads this
    {
      Debounce.Control(observing, updating)
    }

    /** The script as loaded: default settings, no observer, no pass has run yet. */
    constructor (host: string, rejects: set<string>, page: seq<Element>)
      requires AllPaired(page)
      ensures Valid() && fresh(elems)
      ensures this.host == host && this.rejects == rejects && elems[..] == page
      ensures settings == Defaults && !observing && !updating && !overflowAuto
    {
      this.host := host;
      this.rejects := rejects;
      elems := new Element[|page|](i requires 0 <= i < |page| => page[i]);
      settings := Defaults;
      observing, updating, overflowAuto := false, false, false;
      DefaultsComplete();
    }

    /** One of the loops over `querySelectorAll('[data-doomscroll-blocked]')`: every marked
        element gets its display back by the policy and loses both attributes. */
    method ResetMarked(p: Policy)
      modifies elems
      ensures elems[..] == ResetAll(old(elems[..]), p)
    {
      var i := 0;
      while i < elems.Length
        invariant 0 <= i <= elems.Length
        invariant forall k :: 0 <= k < i ==> elems[k] == Reset(old(elems[k]), p)
        invariant forall k :: i <= k < elems.Length ==> elems[k] == old(elems[k])
      {
        var e := elems[i];
        if e.blocked {
          elems[i] := e.(inline := RestoreValue(p, e.stash), blocked := false, stash := None);
        }
        i := i + 1;
      }
    }

    /** `blockElementsBySelectors(sels)` (content.js:229-264). */
    method BlockBySelectors(sels: seq<string>)
      modifies elems
      ensures elems[..] == BlockPass(old(elems[..]), sels, rejects)
    {
      ResetMarked(StashNonEmpty);
      ghost var cleared := elems[..];
      var i := 0;
      while i < |sels|
        invariant 0 <= i <= |sels|
        invariant forall k :: 0 <= k < elems.Length ==> elems[k] == Applied(cleared[k], sels[..i], rejects)
      {
        var sel := sels[i];
        if sel !in rejects {
          var j := 0;
          while j < elems.Length
            invariant 0 <= j <= elems.Length
            invariant forall k :: 0 <= k < j ==> elems[k] == Applied(cleared[k], sels[..i + 1], rejects)
            invariant forall k :: j <= k < elems.Length ==> elems[k] == Applied(cleared[k], sels[..i], rejects)
          {
            AppliedStep(cleared[j], sels, i, rejects);
            var e := elems[j];
            if sel in e.matches && e.attached && !e.blocked {
              var original := Computed(e);
              elems[j] := e.(stash := Some(original), inline := "none", blocked := true);
            }
            j := j + 1;
          }
        } else {
          // the query throws: the error is logged and no element is touched
          forall k | 0 <= k < elems.Length
            ensures elems[k] == Applied(cleared[k], sels[..i + 1], rejects)
          {
            AppliedStep(cleared[k], sels, i, rejects);
          }
        }
        i := i + 1;
      }
      assert sels[..|sels|] == sels;
    }

    /** One site's block in `updateBlocking` (for instance content.js:134-148). */
    method ApplySite(site: Site)
      modifies elems
      ensures elems[..] == SitePass(old(elems[..]), site, host, settings, rejects)
    {
      if Matches(host, site) {
        if Flag(settings, site) {
          BlockBySelectors(Catalog(site));
        }
      }
    }

    /** `updateBlocking()` (content.js:106-223). */
    method UpdateBlocking()
      requires Valid()
      modifies this, elems
      ensures Valid()
      ensures elems[..] == Reconcile(old(elems[..]), host, settings, rejects)
      ensures settings == old(settings) && Control() == old(Control()) && overflowAuto
    {
      overflowAuto := true;
      ResetMarked(StashTruthy);
      ghost var cleared := elems[..];
      ReconcilePaired(old(elems[..]), host, settings, rejects);
      if AnyDisabled(host, settings) {
        return;
      }
      ApplySite(YouTube);
      assert elems[..] == SitePasses(cleared, SiteOrder[..1], host, settings, rejects) by {
        assert SiteOrder[..1][..0] == [];
      }
      ApplySite(LinkedIn);
      assert elems[..] == SitePasses(cleared, SiteOrder[..2], host, settings, rejects) by {
        assert SiteOrder[..2][..1] == SiteOrder[..1];
      }
      ApplySite(Facebook);
      assert elems[..] == SitePasses(cleared, SiteOrder[..3], host, settings, rejects) by {
        assert SiteOrder[..3][..2] == SiteOrder[..2];
      }
      ApplySite(Twitter);
      assert elems[..] == SitePasses(cleared, SiteOrder[..4], host, settings, rejects) by {
        assert SiteOrder[..4][..3] == SiteOrder[..3];
      }
      ApplySite(Reddit);
      assert elems[..] == SitePasses(cleared, SiteOrder[..5], host, settings, rejects) by {
        assert SiteOrder[..5][..4] == SiteOrder[..4];
      }
      ApplySite(Instagram);
      assert elems[..] == SitePasses(cleared, SiteOrder, host, settings, rejects) by {
        assert SiteOrder[..5] == SiteOrder[..|SiteOrder| - 1];
      }
    }

    /** The settings load callback of `initializeBlocking` (content.js:46-96): merge the
        stored values, clear old markers, then either reconcile and make sure an observer
        exists, or drop the observer. */
    method Initialize(stored: SettingsMap)
      requires Valid()
      modifies this, elems
      ensures Valid()
      ensures settings == Merge(old(settings), stored)
      ensures var cleared := ResetAll(old(elems[..]), InitClear);
              elems[..] == if ShouldBlock(host, settings) then Reconcile(cleared, host, settings, rejects)
                           else cleared
      ensures (Control(), if ShouldBlock(host, settings) then 1 else 0)
              == Next(old(Control()), Loaded(ShouldBlock(host, settings)))
      ensures overflowAuto == (ShouldBlock(host, settings) || old(overflowAuto))
    {
      settings := Merge(settings, stored);
      MergeKeepsComplete(old(settings), stored);
      ResetMarked(InitClear);
      assert AllPaired(elems[..]);
      var shouldBlock := ShouldBlock(host, settings);
      if shouldBlock {
        UpdateBlocking();
        if !observing {
          observing := true;
        }
      } else if observing {
        observing := false;
      }
    }

    /** The `toggle` message (content.js:10-13): only a new pass has an effect. */
    method OnToggle(enabled: bool)
      requires Valid()
      modifies this, elems
      ensures Valid()
      ensures elems[..] == Reconcile(old(elems[..]), host, settings, rejects)
      ensures settings == old(settings) && Control() == old(Control()) && overflowAuto
    {
      UpdateBlocking();
    }

    /** The `updateSettings` message (content.js:18-23): merge the patch, then a pass. */
    method OnSettingsUpdate(patch: SettingsMap)
      requires Valid()
      modifies this, elems
      ensures Valid()
      ensures settings == Merge(old(settings), patch)
      ensures elems[..] == Reconcile(old(elems[..]), host, settings, rejects)
      ensures Control() == old(Control()) && overflowAuto
    {
      settings := Merge(settings, patch);
      MergeKeepsComplete(old(settings), patch);
      UpdateBlocking();
    }

    /** The observer callback (content.js:73-81): a pass only when none ran in the last
        window, and the flag stays set until the timer fires. */
    method OnMutation() returns (ran: bool)
      requires Valid()
      modifies this, elems
      ensures Valid()
      ensures (Control(), if ran then 1 else 0) == Next(old(Control()), Mutation)
      ensures elems[..] == if ran then Reconcile(old(elems[..]), host, settings, rejects) else old(elems[..])
      ensures settings == old(settings) && overflowAuto == (ran || old(overflowAuto))
    {
      ran := false;
      if observing && !updating {
        updating := true;
        UpdateBlocking();
        ran := true;
      }
    }

    /** The debounce timer (content.js:79). */
    method OnTimer()
      modifies this
      ensures Control() == Next(old(Control()), TimerFire).0
      ensures settings == old(settings) && overflowAuto == old(overflowAuto)
    {
      updating := false;
    }
  }
}
