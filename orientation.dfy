/**
  `isLandscape`: the screen orientation string, taken from the first of the
  vendor-specific fields that is set, and the test for "landscape" in it.
  The browser's `window.screen` is a parameter.
*/
module Orientation {
  import opened Wrappers

  /**
    The orientation fields read from `window.screen`: `msOrientation`,
    `mozOrientation`, and the `type` of `screen.orientation` (`None` when the
    `orientation` object itself is absent).
  */
  datatype Screen = Screen(msOrientation: Option<string>, mozOrientation: Option<string>, orientationType: Option<string>)

  /** JavaScript truthiness of a string that may be `undefined`. */
  predicate Truthy(s: Option<string>)
  {
    s.Some? && s.value != ""
  }

  /** `s.msOrientation || s.mozOrientation || (s.orientation || { type: 'portrait-primary' }).type` */
  function OrientationType(s: Screen): string
  {
    if Truthy(s.msOrientation) then s.msOrientation.value
    else if Truthy(s.mozOrientation) then s.mozOrientation.value
    else if s.orientationType.Some? then s.orientationType.value
    else "portrait-primary"
  }

  predicate OccursAt(s: string, sub: string, i: nat)
  {
    i + |sub| <= |s| && s[i..i + |sub|] == sub
  }

  /** `s.includes(sub)`. */
  function Includes(s: string, sub: string): (r: bool)
    ensures r <==> exists i: nat :: OccursAt(s, sub, i)
    decreases |s|
  {
    if |s| < |sub| then false
    else if s[..|sub|] == sub then
      assert OccursAt(s, sub, 0);
      true
    else
      var r := Includes(s[1..], sub);
      assert forall i: nat :: OccursAt(s[1..], sub, i) <==> OccursAt(s, sub, i + 1) by {
        forall i: nat
          ensures OccursAt(s[1..], sub, i) <==> OccursAt(s, sub, i + 1)
        {
          if i + |sub| <= |s[1..]| {
            assert s[1..][i..i + |sub|] == s[i + 1..i + 1 + |sub|];
          }
        }
      }
      assert !OccursAt(s, sub, 0);
      assert (exists i: nat :: OccursAt(s, sub, i)) ==> exists i: nat :: OccursAt(s[1..], sub, i) by {
        if exists i: nat :: OccursAt(s, sub, i) {
          var i: nat :| OccursAt(s, sub, i);
          assert i > 0 && OccursAt(s[1..], sub, i - 1);
        }
      }
      r
  }

  /** `orientation && orientation.includes('landscape')`, read as a boolean. */
  predicate IsLandscape(s: Screen)
  {
    var orientation := OrientationType(s);
    orientation != "" && Includes(orientation, "landscape")
  }

  /**
    The vendor fields take precedence in the order the source reads them, and a
    screen that reports nothing counts as portrait.
  */
  lemma OrientationPrecedence(s: Screen)
    ensures Truthy(s.msOrientation) ==> IsLandscape(s) == Includes(s.msOrientation.value, "landscape")
    ensures !Truthy(s.msOrientation) && Truthy(s.mozOrientation) ==> IsLandscape(s) == Includes(s.mozOrientation.value, "landscape")
    ensures !Truthy(s.msOrientation) && !Truthy(s.mozOrientation) && s.orientationType.None? ==> !IsLandscape(s)
  {
    if !Truthy(s.msOrientation) && !Truthy(s.mozOrientation) && s.orientationType.None? {
      NoLetterNoMatch("portrait-primary", "landscape");
    }
  }

  /** A string that lacks the first letter of `sub` does not include `sub`. */
  lemma NoLetterNoMatch(s: string, sub: string)
    requires |sub| > 0 && forall i :: 0 <= i < |s| ==> s[i] != sub[0]
    ensures !Includes(s, sub)
  {
    forall i: nat
      ensures !OccursAt(s, sub, i)
    {
      if i + |sub| <= |s| {
        assert s[i..i + |sub|][0] == s[i];
      }
    }
  }

  /** The landscape orientation types are landscape. */
  lemma LandscapeTypes()
    ensures IsLandscape(Screen(None, None, Some("landscape-primary")))
    ensures IsLandscape(Screen(None, None, Some("landscape-secondary")))
  {
    assert OccursAt("landscape-primary", "landscape", 0);
    assert OccursAt("landscape-secondary", "landscape", 0);
  }

  /** A portrait orientation type, which has no letter `l`, is not landscape. */
  lemma PortraitType(t: string)
    requires t == "portrait-primary" || t == "portrait-secondary"
    ensures !IsLandscape(Screen(None, None, Some(t)))
  {
    assert forall i :: 0 <= i < |t| ==> t[i] != 'l';
    NoLetterNoMatch(t, "landscape");
  }
}
