/**
 * The six social-media sites DoomScroll knows, the domain string each one is
 * recognised by, and the two string operations the extension applies to page
 * addresses: JavaScript's `String.prototype.includes` and an ASCII
 * `toLowerCase`.
 */
module Sites {

  datatype Site = YouTube | LinkedIn | Facebook | Twitter | Reddit | Instagram

  /** The order in which the content script tries the sites (content.js:134-222). */
  const SiteOrder: seq<Site> := [YouTube, LinkedIn, Facebook, Twitter, Reddit, Instagram]

  /** The settings key of a site, as used by both scripts. */
  function Name(s: Site): string
  {
    match s
    case YouTube => "youtube"
    case LinkedIn => "linkedin"
    case Facebook => "facebook"
    case Twitter => "twitter"
    case Reddit => "reddit"
    case Instagram => "instagram"
  }

  /** The domain string a hostname or URL must contain for the site to apply.
      Twitter is recognised by "x.com". */
  function Domain(s: Site): string
  {
    match s
    case YouTube => "youtube.com"
    case LinkedIn => "linkedin.com"
    case Facebook => "facebook.com"
    case Twitter => "x.com"
    case Reddit => "reddit.com"
    case Instagram => "instagram.com"
  }

  /** `prefix` occurs at the start of `s`. */
  predicate StartsWith(s: string, prefix: string)
  {
    |prefix| <= |s| && s[..|prefix|] == prefix
  }

  /** `hay.includes(needle)`: the needle occurs somewhere in the haystack. */
  predicate Contains(hay: string, needle: string)
    decreases |hay|
  {
    StartsWith(hay, needle) || (|hay| > 0 && Contains(hay[1..], needle))
  }

  /** An independent definition of substring containment, by position. */
  predicate OccursAt(hay: string, needle: string, i: int)
  {
    0 <= i && i + |needle| <= |hay| && hay[i..i + |needle|] == needle
  }

  lemma {:induction false} ContainsIff(hay: string, needle: string)
    ensures Contains(hay, needle) <==> exists i :: OccursAt(hay, needle, i)
    decreases |hay|
  {
    if |hay| > 0 {
      ContainsIff(hay[1..], needle);
      if StartsWith(hay, needle) {
        assert OccursAt(hay, needle, 0);
      } else if Contains(hay[1..], needle) {
        var i :| OccursAt(hay[1..], needle, i);
        assert hay[i + 1..i + 1 + |needle|] == hay[1..][i..i + |needle|];
        assert OccursAt(hay, needle, i + 1);
      }
      if i :| OccursAt(hay, needle, i) {
        if i > 0 {
          assert hay[1..][i - 1..i - 1 + |needle|] == hay[i..i + |needle|];
          assert OccursAt(hay[1..], needle, i - 1);
        } else {
          assert StartsWith(hay, needle);
        }
      }
    } else if Contains(hay, needle) {
      assert OccursAt(hay, needle, 0);
    } else if i :| OccursAt(hay, needle, i) {
      assert StartsWith(hay, needle);
    }
  }

  /** Every character of the needle occurs in a haystack that contains it. */
  lemma {:induction false} ContainsKeepsChars(hay: string, needle: string, c: char)
    requires Contains(hay, needle) && c in needle
    ensures c in hay
    decreases |hay|
  {
    if StartsWith(hay, needle) {
      assert c in hay[..|needle|];
    } else {
      ContainsKeepsChars(hay[1..], needle, c);
    }
  }

  /** ASCII `toLowerCase` of one character. */
  function LowerChar(c: char): char
  {
    if 'A' <= c <= 'Z' then (c as int + 32) as char else c
  }

  /** ASCII `toLowerCase` of a string, character by character. */
  function Lower(s: string): (r: string)
    ensures |r| == |s|
  {
    seq(|s|, i requires 0 <= i < |s| => LowerChar(s[i]))
  }

  predicate IsLower(s: string)
  {
    forall i :: 0 <= i < |s| ==> !('A' <= s[i] <= 'Z')
  }

  lemma LowerKeepsLower(s: string)
    requires IsLower(s)
    ensures Lower(s) == s
  {
  }

  lemma DomainsAreLower(s: Site)
    ensures IsLower(Domain(s)) && |Domain(s)| > 0
  {
  }

  /** Lowering a haystack keeps every occurrence of an all-lower-case needle. */
  lemma LowerKeepsContains(hay: string, needle: string)
    requires IsLower(needle) && Contains(hay, needle)
    ensures Contains(Lower(hay), needle)
  {
    ContainsIff(hay, needle);
    var i :| OccursAt(hay, needle, i);
    assert Lower(hay)[i..i + |needle|] == Lower(hay[i..i + |needle|]);
    LowerKeepsLower(needle);
    assert OccursAt(Lower(hay), needle, i);
    ContainsIff(Lower(hay), needle);
  }
}
