/**
 * The settings panel (popup.js): the toggles shown on load, the one-key patch
 * a toggle change writes, and whether the active tab is reloaded afterwards.
 */
module Popup {
  import opened Sites
  import opened Settings
  import opened Options

  /** The active tab as `chrome.tabs.query` reports it; either field may be missing. */
  datatype Tab = Tab(id: Option<int>, url: Option<string>)

  /** `tab.id` read as a condition: missing and 0 are both falsy. */
  predicate HasId(t: Tab)
  {
    t.id.Some? && t.id.value != 0
  }

  /** `tab.url` read as a condition: missing and '' are both falsy. */
  predicate HasUrl(t: Tab)
  {
    t.url.Some? && t.url.value != ""
  }

  /** The `siteDomains` table of the change handler (popup.js:54-61). */
  const SiteDomains: map<string, string> :=
    map["youtube" := "youtube.com", "linkedin" := "linkedin.com", "facebook" := "facebook.com",
        "twitter" := "x.com", "reddit" := "reddit.com", "instagram" := "instagram.com"]

  /** The panel's table and the content script's hostname tests use the same six pairs. */
  lemma DomainTablesAgree()
    ensures forall site: Site :: Name(site) in SiteDomains && SiteDomains[Name(site)] == Domain(site)
    ensures forall key :: key in SiteDomains ==> exists site: Site :: Name(site) == key
  {
    forall site: Site ensures Name(site) in SiteDomains && SiteDomains[Name(site)] == Domain(site) {
      match site
      case YouTube =>
      case LinkedIn =>
      case Facebook =>
      case Twitter =>
      case Reddit =>
      case Instagram =>
    }
    forall key | key in SiteDomains ensures exists site: Site :: Name(site) == key {
      if key == "youtube" { assert Name(YouTube) == key; }
      else if key == "linkedin" { assert Name(LinkedIn) == key; }
      else if key == "facebook" { assert Name(Facebook) == key; }
      else if key == "twitter" { assert Name(Twitter) == key; }
      else if key == "reddit" { assert Name(Reddit) == key; }
      else { assert Name(Instagram) == key; }
    }
  }

  /** The patch a toggle change saves (popup.js:42-43). */
  function TogglePatch(site: Site, checked: bool): (patch: SettingsMap)
    ensures patch.Keys == {site} && patch[site] == checked
  {
    map[site := checked]
  }

  /** Saving the patch changes the toggled site's flag and no other. */
  lemma ToggleChangesOneFlag(settings: SettingsMap, site: Site, checked: bool)
    ensures var after := Merge(settings, TogglePatch(site, checked));
            Flag(after, site) == checked
            && forall other :: other != site ==> Flag(after, other) == Flag(settings, other)
  {
  }

  /** The tab the change handler reloads, if any (popup.js:50-70). `site` is the handler's
      settings key; `tabs` is what the active-tab query returned. */
  function ReloadTarget(site: string, tabs: seq<Tab>): (r: Option<int>)
    ensures r.Some? ==> |tabs| > 0 && HasId(tabs[0]) && r.value == tabs[0].id.value
  {
    if |tabs| == 0 || !HasId(tabs[0]) || !HasUrl(tabs[0]) then None
    else
      var currentUrl := Lower(tabs[0].url.value);
      if site in SiteDomains && Contains(currentUrl, SiteDomains[site]) then Some(tabs[0].id.value)
      else None
  }

  /** No active tab, or one without an id or a URL, is never reloaded. */
  lemma NoTabNoReload(site: string, tabs: seq<Tab>)
    requires |tabs| == 0 || !HasId(tabs[0]) || !HasUrl(tabs[0])
    ensures ReloadTarget(site, tabs) == None
  {
  }

  /** A toggle for a site reloads the active tab exactly when the tab has an id and a URL
      and the lower-cased URL, anywhere in it, contains the site's domain. */
  lemma ReloadIff(site: Site, tabs: seq<Tab>)
    ensures ReloadTarget(Name(site), tabs).Some? <==>
            |tabs| > 0 && HasId(tabs[0]) && HasUrl(tabs[0])
            && Contains(Lower(tabs[0].url.value), Domain(site))
  {
    DomainTablesAgree();
  }

  /** A key outside the table never reloads anything. */
  lemma UnknownKeyNoReload(site: string, tabs: seq<Tab>)
    requires site !in SiteDomains
    ensures ReloadTarget(site, tabs) == None
  {
  }

  /** The test ignores the case of the URL: a URL that contains the domain as written,
      in any case mix after lowering, still triggers the reload. */
  lemma ReloadIgnoresCase(site: Site, id: int, url: string)
    requires id != 0 && url != "" && Contains(url, Domain(site))
    ensures ReloadTarget(Name(site), [Tab(Some(id), Some(url))]) == Some(id)
  {
    DomainsAreLower(site);
    LowerKeepsContains(url, Domain(site));
    ReloadIff(site, [Tab(Some(id), Some(url))]);
  }

  /** Containment is over the whole URL: a domain named only in the query string counts. */
  lemma ReloadFromQueryString()
    ensures ReloadTarget("youtube", [Tab(Some(7), Some("https://example.org/?u=youtube.com"))]) == Some(7)
  {
    var url := "https://example.org/?u=youtube.com";
    assert OccursAt(url, "youtube.com", 23);
    ContainsIff(url, "youtube.com");
    ReloadIgnoresCase(YouTube, 7, url);
  }

  /** The toggles' state after the load callback (popup.js:29-36): each present toggle
      shows the stored value merged over the defaults; a missing one stays missing. */
  predicate Loaded(toggles: seq<Option<bool>>, before: seq<Option<bool>>, stored: SettingsMap)
    requires |toggles| == |before| == |SiteOrder|
  {
    forall i :: 0 <= i < |SiteOrder| ==>
      toggles[i] == if before[i].None? then None else Some(Flag(Merge(Defaults, stored), SiteOrder[i]))
  }

  /** The load callback. `toggles[i]` is the checkbox of `SiteOrder[i]`, None when the
      panel has no such element; Some(b) is a checkbox whose `checked` is b. */
  method LoadToggles(toggles: array<Option<bool>>, stored: SettingsMap)
    requires toggles.Length == |SiteOrder|
    modifies toggles
    ensures Loaded(toggles[..], old(toggles[..]), stored)
  {
    var settings := Merge(Defaults, stored);
    DefaultsComplete();
    var i := 0;
    while i < toggles.Length
      invariant 0 <= i <= toggles.Length
      invariant forall k :: 0 <= k < i ==>
                  toggles[k] == if old(toggles[k]).None? then None else Some(Flag(settings, SiteOrder[k]))
      invariant forall k :: i <= k < toggles.Length ==> toggles[k] == old(toggles[k])
    {
      if toggles[i].Some? {
        toggles[i] := Some(settings[SiteOrder[i]]);
      }
      i := i + 1;
    }
  }

  /** Every shown toggle holds its site's value in the stored settings merged over the
      defaults. That map is the content script's `settings` after its own load: a freshly
      constructed `Engine.ContentScript` holds `Defaults`, and `Initialize(stored)` merges
      `stored` over them. */
  lemma LoadedShowsMergedSettings(toggles: seq<Option<bool>>, before: seq<Option<bool>>,
                                   stored: SettingsMap, i: int)
    requires |toggles| == |before| == |SiteOrder| && Loaded(toggles, before, stored)
    requires 0 <= i < |SiteOrder| && before[i].Some?
    ensures toggles[i] == Some(Merge(Defaults, stored)[SiteOrder[i]])
  {
    DefaultsComplete();
  }
}
