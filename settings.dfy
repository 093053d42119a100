/**
 * The per-site settings of the content script (content.js:20, 28-35, 48) and
 * the two hostname tests it makes with them: whether blocking should be set
 * up at all (content.js:60-65) and whether some matching site is switched off
 * (content.js:124-129).
 */
module Settings {
  import opened Sites

  /** A settings object, or a patch of one: a flag per site key it holds. */
  type SettingsMap = map<Site, bool>

  /** All six keys present. */
  predicate Complete(s: SettingsMap)
  {
    forall site: Site :: site in s
  }

  /** The defaults the content script starts from: every site blocked. */
  const Defaults: SettingsMap := map[YouTube := true, LinkedIn := true, Facebook := true,
                                  Twitter := true, Reddit := true, Instagram := true]

  lemma DefaultsComplete()
    ensures Complete(Defaults)
    ensures forall site: Site :: Defaults[site]
  {
    forall site: Site ensures site in Defaults && Defaults[site] {
      match site
      case YouTube =>
      case LinkedIn =>
      case Facebook =>
      case Twitter =>
      case Reddit =>
      case Instagram =>
    }
  }

  /** `{ ...settings, ...patch }`: the patch's keys overwrite, the rest are kept. */
  function Merge(settings: SettingsMap, patch: SettingsMap): (r: SettingsMap)
    ensures r.Keys == settings.Keys + patch.Keys
    ensures forall site :: site in patch ==> r[site] == patch[site]
    ensures forall site :: site in settings && site !in patch ==> r[site] == settings[site]
  {
    settings + patch
  }

  lemma MergeIdempotent(settings: SettingsMap, patch: SettingsMap)
    ensures Merge(Merge(settings, patch), patch) == Merge(settings, patch)
  {
  }

  lemma MergeKeepsComplete(settings: SettingsMap, patch: SettingsMap)
    requires Complete(settings)
    ensures Complete(Merge(settings, patch))
  {
  }

  /** `settings.<site>` read as a condition: a missing key is `undefined`, which is falsy. */
  predicate Flag(settings: SettingsMap, site: Site)
  {
    site in settings && settings[site]
  }

  /** `hostname.includes(<domain>)`: the page belongs to the site. */
  predicate Matches(host: string, site: Site)
  {
    Contains(host, Domain(site))
  }

  /** The `shouldBlock` condition computed when the settings have loaded (content.js:60-65). */
  predicate ShouldBlock(host: string, settings: SettingsMap)
  {
    || (Matches(host, YouTube) && Flag(settings, YouTube))
    || (Matches(host, LinkedIn) && Flag(settings, LinkedIn))
    || (Matches(host, Facebook) && Flag(settings, Facebook))
    || (Matches(host, Twitter) && Flag(settings, Twitter))
    || (Matches(host, Reddit) && Flag(settings, Reddit))
    || (Matches(host, Instagram) && Flag(settings, Instagram))
  }

  /** The early-return condition of a reconciliation pass (content.js:124-129). */
  predicate AnyDisabled(host: string, settings: SettingsMap)
  {
    || (Matches(host, YouTube) && !Flag(settings, YouTube))
    || (Matches(host, LinkedIn) && !Flag(settings, LinkedIn))
    || (Matches(host, Facebook) && !Flag(settings, Facebook))
    || (Matches(host, Twitter) && !Flag(settings, Twitter))
    || (Matches(host, Reddit) && !Flag(settings, Reddit))
    || (Matches(host, Instagram) && !Flag(settings, Instagram))
  }

  lemma ShouldBlockIff(host: string, settings: SettingsMap)
    ensures ShouldBlock(host, settings) <==> exists site :: Matches(host, site) && Flag(settings, site)
  {
    if ShouldBlock(host, settings) {
      var site :| site in SiteOrder && Matches(host, site) && Flag(settings, site);
    }
  }

  lemma AnyDisabledIff(host: string, settings: SettingsMap)
    ensures AnyDisabled(host, settings) <==> exists site :: Matches(host, site) && !Flag(settings, site)
  {
    if AnyDisabled(host, settings) {
      var site :| site in SiteOrder && Matches(host, site) && !Flag(settings, site);
    }
  }

  /** On a page of exactly one site the two tests are each other's negation; they can
      both hold only when the hostname contains two sites' domains and their flags differ. */
  lemma OneSiteTestsAgree(host: string, settings: SettingsMap, site: Site)
    requires Matches(host, site)
    requires forall other :: Matches(host, other) ==> other == site
    ensures ShouldBlock(host, settings) <==> Flag(settings, site)
    ensures AnyDisabled(host, settings) <==> !Flag(settings, site)
  {
    ShouldBlockIff(host, settings);
    AnyDisabledIff(host, settings);
  }

  lemma BothTestsNeedTwoSites(host: string, settings: SettingsMap)
    requires ShouldBlock(host, settings) && AnyDisabled(host, settings)
    ensures exists on, off :: on != off && Matches(host, on) && Matches(host, off)
                              && Flag(settings, on) && !Flag(settings, off)
  {
    ShouldBlockIff(host, settings);
    AnyDisabledIff(host, settings);
    var on :| Matches(host, on) && Flag(settings, on);
    var off :| Matches(host, off) && !Flag(settings, off);
    assert on != off;
  }

  /** "x.com" is matched by containment, so a Dropbox page counts as Twitter. */
  lemma TwitterMatchesDropbox()
    ensures Matches("dropbox.com", Twitter)
    ensures ShouldBlock("dropbox.com", Defaults)
  {
    assert OccursAt("dropbox.com", "x.com", 6);
    ContainsIff("dropbox.com", "x.com");
  }

  /** On "www.youtube.com" only the YouTube domain matches. */
  lemma YouTubeHostMatchesOnlyYouTube(site: Site)
    ensures Matches("www.youtube.com", site) <==> site == YouTube
  {
    var host := "www.youtube.com";
    if site == YouTube {
      assert OccursAt(host, "youtube.com", 4);
      ContainsIff(host, "youtube.com");
    } else if Matches(host, site) {
      var c := match site
        case LinkedIn => 'l'
        case Facebook => 'f'
        case Twitter => 'x'
        case Reddit => 'r'
        case Instagram => 'i'
        case YouTube => 'y';
      assert c in Domain(site);
      ContainsKeepsChars(host, Domain(site), c);
      assert false;
    }
  }
}
