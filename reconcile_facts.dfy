/**
 * What a reconciliation pass guarantees: which elements end up marked (the
 * last matching enabled site wins, a disabled matching site leaves nothing
 * marked), that marker and stash stay paired, that a second pass marks the
 * same elements, and that unblocking gives an element back its display.
 */
module ReconcileFacts {
  import opened Sites
  import opened Settings
  import opened Dom
  import opened Options

  /** Marker and stash are present together, and a marked element is hidden inline and
      has a parent: only the script marks elements, and only attached ones (content.js:248). */
  predicate Paired(e: Element)
  {
    e.blocked == e.stash.Some? && (e.blocked ==> e.inline == "none" && e.attached)
  }

  predicate AllPaired(es: seq<Element>)
  {
    forall k :: 0 <= k < |es| ==> Paired(es[k])
  }

  /** The parts of an element a pass never touches. */
  predicate SameFrame(a: Element, b: Element)
  {
    a.attached == b.attached && a.sheet == b.sheet && a.matches == b.matches
  }

  predicate SameFrames(xs: seq<Element>, ys: seq<Element>)
  {
    |xs| == |ys| && forall k :: 0 <= k < |xs| ==> SameFrame(xs[k], ys[k])
  }

  /** The page belongs to the site and the site's flag is set: its selectors run. */
  predicate Runs(host: string, settings: SettingsMap, site: Site)
  {
    Matches(host, site) && Flag(settings, site)
  }

  /** The last site of the list whose selectors a pass would run. */
  function LastEnabled(sites: seq<Site>, host: string, settings: SettingsMap): (r: Option<Site>)
    ensures r.Some? ==> r.value in sites && Runs(host, settings, r.value)
    ensures r.None? ==> forall s :: s in sites ==> !Runs(host, settings, s)
    decreases |sites|
  {
    if |sites| == 0 then None
    else
      var last := sites[|sites| - 1];
      if Runs(host, settings, last) then Some(last)
      else
        var r := LastEnabled(sites[..|sites| - 1], host, settings);
        assert forall s :: s in sites && s != last ==> s in sites[..|sites| - 1];
        r
  }

  /** Whether a pass leaves this element marked: no matching site is off, and the last
      matching enabled site has a selector that returns the attached element. */
  predicate ShouldBeBlocked(e: Element, host: string, settings: SettingsMap, rejects: set<string>)
  {
    && !AnyDisabled(host, settings)
    && var last := LastEnabled(SiteOrder, host, settings);
    && last.Some?
    && e.attached
    && Hit(e.matches, Catalog(last.value), rejects)
  }

  lemma BlockPassMarks(es: seq<Element>, sels: seq<string>, rejects: set<string>)
    ensures SameFrames(es, BlockPass(es, sels, rejects))
    ensures forall k :: 0 <= k < |es| ==>
              BlockPass(es, sels, rejects)[k].blocked == (es[k].attached && Hit(es[k].matches, sels, rejects))
  {
  }

  /** An element two selectors of the list return is hidden once: its stash keeps the
      display it had when the list started, not the 'none' of its first hiding. */
  lemma BlockPassStash(es: seq<Element>, sels: seq<string>, rejects: set<string>, k: int)
    requires 0 <= k < |es| && BlockPass(es, sels, rejects)[k].blocked
    ensures BlockPass(es, sels, rejects)[k].stash == Some(Computed(Reset(es[k], StashNonEmpty)))
    ensures BlockPass(es, sels, rejects)[k].inline == "none"
  {
  }

  /** A selector whose query throws is skipped and the others still hide what they return. */
  lemma FailingSelectorSkipped(es: seq<Element>, sels: seq<string>, rejects: set<string>, k: int, j: int)
    requires 0 <= k < |es| && es[k].attached
    requires 0 <= j < |sels| && sels[j] !in rejects && sels[j] in es[k].matches
    ensures BlockPass(es, sels, rejects)[k].blocked
  {
    HitIff(es[k].matches, sels, rejects);
  }

  lemma {:induction false} SitePassesMarks(es: seq<Element>, sites: seq<Site>, host: string,
                                           settings: SettingsMap, rejects: set<string>)
    ensures SameFrames(es, SitePasses(es, sites, host, settings, rejects))
    ensures forall k :: 0 <= k < |es| ==>
              SitePasses(es, sites, host, settings, rejects)[k].blocked ==
              match LastEnabled(sites, host, settings)
              case None => es[k].blocked
              case Some(s) => es[k].attached && Hit(es[k].matches, Catalog(s), rejects)
    decreases |sites|
  {
    if |sites| > 0 {
      var n := |sites| - 1;
      var before := SitePasses(es, sites[..n], host, settings, rejects);
      SitePassesMarks(es, sites[..n], host, settings, rejects);
      BlockPassMarks(before, Catalog(sites[n]), rejects);
    }
  }

  /** After a pass, exactly the elements ShouldBeBlocked describes carry the marker. */
  lemma ReconcileMarks(es: seq<Element>, host: string, settings: SettingsMap, rejects: set<string>)
    ensures SameFrames(es, Reconcile(es, host, settings, rejects))
    ensures forall k :: 0 <= k < |es| ==>
              Reconcile(es, host, settings, rejects)[k].blocked == ShouldBeBlocked(es[k], host, settings, rejects)
  {
    var cleared := ResetAll(es, StashTruthy);
    assert SameFrames(es, cleared);
    if !AnyDisabled(host, settings) {
      SitePassesMarks(cleared, SiteOrder, host, settings, rejects);
    }
  }

  /** A matching site that is switched off leaves no element marked, whatever was before. */
  lemma DisabledLeavesNothingBlocked(es: seq<Element>, host: string, settings: SettingsMap,
                                     rejects: set<string>, site: Site)
    requires Matches(host, site) && !Flag(settings, site)
    ensures forall k :: 0 <= k < |es| ==> !Reconcile(es, host, settings, rejects)[k].blocked
  {
    AnyDisabledIff(host, settings);
    ReconcileMarks(es, host, settings, rejects);
  }

  /** A page of no known site has nothing marked after a pass. */
  lemma NoSiteNothingBlocked(es: seq<Element>, host: string, settings: SettingsMap, rejects: set<string>)
    requires forall site :: !Matches(host, site)
    ensures forall k :: 0 <= k < |es| ==> !Reconcile(es, host, settings, rejects)[k].blocked
  {
    ReconcileMarks(es, host, settings, rejects);
  }

  /** Every marked element is returned by a working selector of a site whose domain the
      hostname contains, and that site is the last matching enabled one. */
  lemma BlockedMatchesLastSite(es: seq<Element>, host: string, settings: SettingsMap,
                               rejects: set<string>, k: int)
    requires 0 <= k < |es| && Reconcile(es, host, settings, rejects)[k].blocked
    ensures exists site :: Matches(host, site) && Flag(settings, site)
              && LastEnabled(SiteOrder, host, settings) == Some(site)
              && exists j :: 0 <= j < |Catalog(site)| && Catalog(site)[j] !in rejects
                             && Catalog(site)[j] in es[k].matches
  {
    ReconcileMarks(es, host, settings, rejects);
    var site := LastEnabled(SiteOrder, host, settings).value;
    HitIff(es[k].matches, Catalog(site), rejects);
  }

  /** LastEnabled picks the latest site that runs: a running site with none after it. */
  lemma {:induction false} LastEnabledIsLast(sites: seq<Site>, host: string, settings: SettingsMap, i: int)
    requires 0 <= i < |sites| && Runs(host, settings, sites[i])
    requires forall j :: i < j < |sites| ==> !Runs(host, settings, sites[j])
    ensures LastEnabled(sites, host, settings) == Some(sites[i])
    decreases |sites|
  {
    var n := |sites| - 1;
    if i < n {
      assert !Runs(host, settings, sites[n]);
      assert LastEnabled(sites, host, settings) == LastEnabled(sites[..n], host, settings);
      var prefix := sites[..n];
      assert prefix[i] == sites[i];
      assert forall j :: i < j < n ==> prefix[j] == sites[j];
      LastEnabledIsLast(prefix, host, settings, i);
    } else {
      assert i == n;
    }
  }

  /** Two passes with the same settings mark the same elements as one. */
  lemma ReconcileIdempotent(es: seq<Element>, host: string, settings: SettingsMap, rejects: set<string>)
    ensures var once := Reconcile(es, host, settings, rejects);
            var twice := Reconcile(once, host, settings, rejects);
            |twice| == |once| && forall k :: 0 <= k < |once| ==> twice[k].blocked == once[k].blocked
  {
    var once := Reconcile(es, host, settings, rejects);
    ReconcileMarks(es, host, settings, rejects);
    ReconcileMarks(once, host, settings, rejects);
  }

  /** Every step of a pass keeps marker and stash paired. */
  lemma ResetPaired(e: Element, p: Policy)
    requires Paired(e)
    ensures Paired(Reset(e, p)) && !Reset(e, p).blocked
  {
  }

  lemma {:induction false} SitePassesPaired(es: seq<Element>, sites: seq<Site>, host: string,
                                            settings: SettingsMap, rejects: set<string>)
    requires AllPaired(es)
    ensures AllPaired(SitePasses(es, sites, host, settings, rejects))
    decreases |sites|
  {
    if |sites| > 0 {
      var n := |sites| - 1;
      SitePassesPaired(es, sites[..n], host, settings, rejects);
    }
  }

  lemma ReconcilePaired(es: seq<Element>, host: string, settings: SettingsMap, rejects: set<string>)
    requires AllPaired(es)
    ensures AllPaired(Reconcile(es, host, settings, rejects))
  {
    SitePassesPaired(ResetAll(es, StashTruthy), SiteOrder, host, settings, rejects);
  }

  /** The display an element shows once it is unblocked (its current one if not marked). */
  function Restored(e: Element): string
  {
    if e.blocked then Computed(e.(inline := RestoreValue(StashTruthy, e.stash))) else Computed(e)
  }

  /** Hiding an element and clearing it again gives back its computed display, except
      that an element which was already 'none' comes back with its style-sheet display. */
  lemma HideThenUnmark(e: Element, p: Policy)
    requires p != InitClear
    ensures Computed(Unmark(Hide(e), p)) == if Computed(e) == "none" then e.sheet else Computed(e)
  {
    RestoreLoopsAgree(Some(Computed(e)));
  }

  /** No step of a pass changes the display an element will get back, unless it is 'none'. */
  lemma StepsKeepRestored(e: Element, sels: seq<string>, rejects: set<string>)
    requires Paired(e) && Restored(e) != "none"
    ensures Restored(Reset(e, StashNonEmpty)) == Restored(e)
    ensures Restored(Applied(Reset(e, StashNonEmpty), sels, rejects)) == Restored(e)
  {
    RestoreLoopsAgree(e.stash);
    var c := Reset(e, StashNonEmpty);
    RestoreLoopsAgree(Some(Computed(c)));
  }

  lemma {:induction false} SitePassesKeepRestored(es: seq<Element>, sites: seq<Site>, host: string,
                                                  settings: SettingsMap, rejects: set<string>, k: int)
    requires AllPaired(es) && 0 <= k < |es| && Restored(es[k]) != "none"
    ensures |SitePasses(es, sites, host, settings, rejects)| == |es|
    ensures Restored(SitePasses(es, sites, host, settings, rejects)[k]) == Restored(es[k])
    decreases |sites|
  {
    if |sites| > 0 {
      var n := |sites| - 1;
      var before := SitePasses(es, sites[..n], host, settings, rejects);
      SitePassesKeepRestored(es, sites[..n], host, settings, rejects, k);
      SitePassesPaired(es, sites[..n], host, settings, rejects);
      var after := SitePass(before, sites[n], host, settings, rejects);
      assert SitePasses(es, sites, host, settings, rejects) == after;
      if Matches(host, sites[n]) && Flag(settings, sites[n]) {
        assert after[k] == Applied(Reset(before[k], StashNonEmpty), Catalog(sites[n]), rejects);
        StepsKeepRestored(before[k], Catalog(sites[n]), rejects);
      }
    }
  }

  /** Round trip: block with one settings value, then pass again with the element's site
      switched off; the element shows its original computed display again, as long as
      that display was not itself 'none'. */
  lemma DisableRestoresDisplay(es: seq<Element>, host: string, on: SettingsMap, off: SettingsMap,
                               rejects: set<string>, k: int)
    requires AllPaired(es) && 0 <= k < |es| && !es[k].blocked && Computed(es[k]) != "none"
    requires AnyDisabled(host, off)
    ensures var after := Reconcile(Reconcile(es, host, on, rejects), host, off, rejects);
            |after| == |es| && !after[k].blocked && Computed(after[k]) == Computed(es[k])
  {
    var once := Reconcile(es, host, on, rejects);
    var cleared := ResetAll(es, StashTruthy);
    RestoreLoopsAgree(es[k].stash);
    if !AnyDisabled(host, on) {
      SitePassesKeepRestored(cleared, SiteOrder, host, on, rejects, k);
    }
    ReconcilePaired(es, host, on, rejects);
    RestoreLoopsAgree(once[k].stash);
  }
}
