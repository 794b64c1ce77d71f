/**
  `calculateProplessValue`: the object of boolean flags `useBreakpoint()`
  returns when it is given neither a default nor candidates. Every registry
  key, expanded ones included, is tested against the width, renamed by a
  character-level casing rule, and folded over the orientation and density
  flags. The width, the orientation and `devicePixelRatio > 1` are parameters.
*/
module Flags {
  import opened Wrappers
  import opened JsObject
  import opened Registry

  /**
    `toUpperCase` on one ASCII character: the result is never a lower-case
    letter, and only a lower-case letter is changed, into a capital.
  */
  function Upper(c: char): (u: char)
    ensures !('a' <= u <= 'z')
    ensures u == c <==> !('a' <= c <= 'z')
    ensures 'a' <= c <= 'z' ==> 'A' <= u <= 'Z'
  {
    if 'a' <= c <= 'z' then (c as int - 32) as char else c
  }

  /** Moving two places keeps the parity and moves one pair. */
  lemma ParityShift(i: int)
    requires i >= 2
    ensures (i - 2) % 2 == i % 2 && (i - 2) / 2 + 1 == i / 2
  {
  }

  /** `rest.join()`: the characters separated by the default separator `,`. */
  function Join(cs: seq<char>): (r: string)
    ensures |r| == if cs == [] then 0 else 2 * |cs| - 1
    ensures forall i :: 0 <= i < |r| ==> r[i] == if i % 2 == 0 then cs[i / 2] else ','
  {
    if |cs| <= 1 then cs
    else
      var tail := Join(cs[1..]);
      var r := [cs[0], ','] + tail;
      forall i | 2 <= i < |r|
        ensures r[i] == if i % 2 == 0 then cs[i / 2] else ','
      {
        ParityShift(i);
        assert r[i] == tail[i - 2];
      }
      r
  }

  /**
    The flag name of a registry key, from `const [fl, sl, ...rest] = key`:
    `fl + sl.toUpperCase() + rest.join()` when `fl` is the landscape sigil or `sl`
    is the portrait sigil, otherwise `fl.toUpperCase() + sl + rest.join()`.
    A key shorter than two characters leaves `sl` undefined: the source throws
    when it calls `toUpperCase` on `undefined`, and writes the word "undefined"
    otherwise.
  */
  function Rename(key: string): (r: Result<string>)
    ensures r.TypeError? <==> |key| == 0 || (|key| == 1 && key[0] == LANDSCAPE)
    ensures |key| == 1 && r.Ok? ==> r.value == [Upper(key[0])] + "undefined"
    ensures |key| >= 2 ==> r.Ok? && |r.value| >= 2 && r.value[2..] == Join(key[2..])
    ensures |key| >= 2 && (key[0] == LANDSCAPE || key[1] == PORTRAIT) ==>
      r.value[0] == key[0] && r.value[1] == Upper(key[1])
    ensures |key| >= 2 && !(key[0] == LANDSCAPE || key[1] == PORTRAIT) ==>
      r.value[0] == Upper(key[0]) && r.value[1] == key[1]
  {
    if |key| == 0 then TypeError
    else if |key| == 1 then
      if key[0] == LANDSCAPE then TypeError
      else Ok([Upper(key[0])] + "undefined")
    else if key[0] == LANDSCAPE || key[1] == PORTRAIT then
      Ok([key[0], Upper(key[1])] + Join(key[2..]))
    else
      Ok([Upper(key[0]), key[1]] + Join(key[2..]))
  }

  /** The first `.map`: each key paired with `iw > from && iw <= to`. */
  function MatchAll(reg: Dict<Range>, w: int): (ms: seq<(string, bool)>)
    ensures |ms| == |reg|
    ensures forall i :: 0 <= i < |reg| ==> ms[i] == (reg[i].0, Matches(reg[i].1, w))
  {
    seq(|reg|, i requires 0 <= i < |reg| => (reg[i].0, Matches(reg[i].1, w)))
  }

  /** The second `.map`: each key renamed; it throws as soon as one key cannot be renamed. */
  function RenameAll(es: seq<(string, bool)>): (r: Result<seq<(string, bool)>>)
    ensures r.Ok? <==> forall i :: 0 <= i < |es| ==> Rename(es[i].0).Ok?
    ensures r.Ok? ==> |r.value| == |es| && forall i :: 0 <= i < |es| ==> r.value[i] == (Rename(es[i].0).value, es[i].1)
  {
    if es == [] then Ok([])
    else match (Rename(es[0].0), RenameAll(es[1..]))
      case (Ok(k), Ok(rest)) =>
        assert forall i :: 1 <= i < |es| ==> es[i] == es[1..][i - 1];
        Ok([(k, es[0].1)] + rest)
      case (_, _) =>
        assert forall i :: 1 <= i < |es| ==> es[i] == es[1..][i - 1];
        TypeError
  }

  /** The initial accumulator `{ isLandscape, isPortrait, isHDPI }`. */
  function BaseFlags(landscape: bool, highDensity: bool): Dict<bool>
  {
    [("isLandscape", landscape), ("isPortrait", !landscape), ("isHDPI", highDensity)]
  }

  lemma BaseFlagsLookup(landscape: bool, highDensity: bool)
    ensures Lookup(BaseFlags(landscape, highDensity), "isLandscape") == Some(landscape)
    ensures Lookup(BaseFlags(landscape, highDensity), "isPortrait") == Some(!landscape)
    ensures Lookup(BaseFlags(landscape, highDensity), "isHDPI") == Some(highDensity)
    ensures forall k :: Lookup(BaseFlags(landscape, highDensity), k).Some? <==> k in {"isLandscape", "isPortrait", "isHDPI"}
  {
    var base := BaseFlags(landscape, highDensity);
    assert UniqueKeys(base);
    LookupAt(base, 0);
    LookupAt(base, 1);
    LookupAt(base, 2);
  }

  /** `calculateProplessValue(iw)` without its cache, which nothing ever fills. */
  function ProplessValue(reg: Dict<Range>, w: int, landscape: bool, highDensity: bool): Result<Dict<bool>>
  {
    match RenameAll(MatchAll(reg, w))
    case Ok(renamed) => Ok(PutAll(BaseFlags(landscape, highDensity), renamed))
    case TypeError => TypeError
  }

  /** The flag object is the base flags with every renamed match test written over them, in registry order. */
  lemma ProplessUnfold(reg: Dict<Range>, w: int, landscape: bool, highDensity: bool)
    ensures ProplessValue(reg, w, landscape, highDensity).Ok? <==> RenameAll(MatchAll(reg, w)).Ok?
    ensures ProplessValue(reg, w, landscape, highDensity).Ok? ==>
      ProplessValue(reg, w, landscape, highDensity).value == PutAll(BaseFlags(landscape, highDensity), RenameAll(MatchAll(reg, w)).value)
  {
  }

  /** The flag object throws exactly when some registry key is empty or is the lone character `-`. */
  lemma ProplessThrows(reg: Dict<Range>, w: int, landscape: bool, highDensity: bool)
    ensures ProplessValue(reg, w, landscape, highDensity).TypeError?
      <==> exists i :: 0 <= i < |reg| && (|reg[i].0| == 0 || (|reg[i].0| == 1 && reg[i].0[0] == LANDSCAPE))
  {
    var ms := MatchAll(reg, w);
    ProplessUnfold(reg, w, landscape, highDensity);
    if exists i :: 0 <= i < |reg| && (|reg[i].0| == 0 || (|reg[i].0| == 1 && reg[i].0[0] == LANDSCAPE)) {
      var i :| 0 <= i < |reg| && (|reg[i].0| == 0 || (|reg[i].0| == 1 && reg[i].0[0] == LANDSCAPE));
      assert ms[i].0 == reg[i].0;
    }
  }

  /** A renamed key is never one of the three orientation and density flag names. */
  lemma RenameAvoidsBaseFlags(key: string)
    requires Rename(key).Ok?
    ensures Rename(key).value !in {"isLandscape", "isPortrait", "isHDPI"}
  {
    var n := Rename(key).value;
    if |key| == 1 {
      assert n[1] == 'u';
    } else {
      var rest := key[2..];
      assert |n| == 2 + |Join(rest)|;
      if |n| == 11 {
        assert |rest| == 5;
        assert n[3] == Join(rest)[1] == ',';
      }
    }
  }

  /** No renamed key is written over a base flag. */
  lemma BaseFlagNotWritten(es: seq<(string, bool)>, k: string)
    requires RenameAll(es).Ok?
    requires k in {"isLandscape", "isPortrait", "isHDPI"}
    ensures LastWrite(RenameAll(es).value, k).None?
  {
    var renamed := RenameAll(es).value;
    forall q | 0 <= q < |renamed|
      ensures renamed[q].0 != k
    {
      RenameAvoidsBaseFlags(es[q].0);
    }
  }

  /** The orientation and density flags are never overwritten by a renamed key. */
  lemma ProplessBaseFlags(reg: Dict<Range>, w: int, landscape: bool, highDensity: bool)
    requires ProplessValue(reg, w, landscape, highDensity).Ok?
    ensures Lookup(ProplessValue(reg, w, landscape, highDensity).value, "isLandscape") == Some(landscape)
    ensures Lookup(ProplessValue(reg, w, landscape, highDensity).value, "isPortrait") == Some(!landscape)
    ensures Lookup(ProplessValue(reg, w, landscape, highDensity).value, "isHDPI") == Some(highDensity)
  {
    ProplessUnfold(reg, w, landscape, highDensity);
    var ms := MatchAll(reg, w);
    var base := BaseFlags(landscape, highDensity);
    var renamed := RenameAll(ms).value;
    BaseFlagsLookup(landscape, highDensity);
    BaseFlagNotWritten(ms, "isLandscape");
    BaseFlagNotWritten(ms, "isPortrait");
    BaseFlagNotWritten(ms, "isHDPI");
    LookupPutAll(base, renamed, "isLandscape");
    LookupPutAll(base, renamed, "isPortrait");
    LookupPutAll(base, renamed, "isHDPI");
  }

  /**
    Under its renamed key, the flag object holds `from < w <= to` of the last
    registry entry renamed to that key: when no later entry collides, the
    entry's own test.
  */
  lemma ProplessFlag(reg: Dict<Range>, w: int, landscape: bool, highDensity: bool, i: nat)
    requires ProplessValue(reg, w, landscape, highDensity).Ok?
    requires i < |reg|
    requires forall j :: i < j < |reg| ==> Rename(reg[j].0) != Rename(reg[i].0)
    ensures Lookup(ProplessValue(reg, w, landscape, highDensity).value, Rename(reg[i].0).value)
      == Some(Matches(reg[i].1, w))
  {
    ProplessUnfold(reg, w, landscape, highDensity);
    var ms := MatchAll(reg, w);
    var renamed := RenameAll(ms).value;
    LastWriteAt(renamed, i);
    LookupPutAll(BaseFlags(landscape, highDensity), renamed, Rename(reg[i].0).value);
  }

  /** The flag object has the three base flags and one flag per renamed registry key, and nothing else. */
  lemma ProplessKeys(reg: Dict<Range>, w: int, landscape: bool, highDensity: bool, k: string)
    requires ProplessValue(reg, w, landscape, highDensity).Ok?
    ensures Lookup(ProplessValue(reg, w, landscape, highDensity).value, k).Some?
      <==> k in {"isLandscape", "isPortrait", "isHDPI"} || exists i :: 0 <= i < |reg| && Rename(reg[i].0) == Ok(k)
  {
    ProplessUnfold(reg, w, landscape, highDensity);
    var ms := MatchAll(reg, w);
    var base := BaseFlags(landscape, highDensity);
    var renamed := RenameAll(ms).value;
    LookupPutAll(base, renamed, k);
    BaseFlagsLookup(landscape, highDensity);
    assert LastWrite(renamed, k).Some? <==> exists i :: 0 <= i < |reg| && Rename(reg[i].0) == Ok(k) by {
      if exists i :: 0 <= i < |reg| && Rename(reg[i].0) == Ok(k) {
        var i :| 0 <= i < |reg| && Rename(reg[i].0) == Ok(k);
        assert renamed[i].0 == k;
      }
      if LastWrite(renamed, k).Some? {
        var q :| 0 <= q < |renamed| && renamed[q].0 == k;
        assert Rename(reg[q].0) == Ok(k);
      }
    }
  }

  /** Two sample keys: the rest of the name is comma-separated, and the first letter is upper-cased. */
  lemma RenameSamplePlain()
    ensures Rename("mobile") == Ok("Mob,i,l,e")
    ensures Rename("tablet") == Ok("Tab,l,e,t")
  {
    assert Rename("mobile") == Ok("Mob,i,l,e") by {
      assert Join("bile") == "b,i,l,e";
      assert ['M', 'o'] + "b,i,l,e" == "Mob,i,l,e";
    }
    assert Rename("tablet") == Ok("Tab,l,e,t") by {
      assert Join("blet") == "b,l,e,t";
      assert ['T', 'a'] + "b,l,e,t" == "Tab,l,e,t";
    }
  }

  /** A sample down key: the direction sigil at the end is joined like any other character. */
  lemma RenameSampleDown()
    ensures Rename("tablet-") == Ok("Tab,l,e,t,-")
  {
    assert Join("blet-") == "b,l,e,t,-";
    assert ['T', 'a'] + "b,l,e,t,-" == "Tab,l,e,t,-";
  }

  /** Sample one-character keys: the missing second character is written as the word "undefined", or throws. */
  lemma RenameSampleShort()
    ensures Rename("m") == Ok("Mundefined")
    ensures Rename("|") == Ok("|undefined")
    ensures Rename("-").TypeError?
  {
    assert ['M'] + "undefined" == "Mundefined";
    assert ['|'] + "undefined" == "|undefined";
  }

  /**
    Sample keys with an orientation prefix: after the landscape sigil the second
    character is upper-cased, but after the portrait sigil nothing is, since the
    rule tests the second character for the portrait sigil.
  */
  lemma RenameSampleOriented()
    ensures Rename("-tablet") == Ok("-Ta,b,l,e,t")
    ensures Rename("|tablet") == Ok("|ta,b,l,e,t")
  {
    assert Join("ablet") == "a,b,l,e,t";
    assert Rename("-tablet") == Ok("-Ta,b,l,e,t") by {
      assert ['-', 'T'] + "a,b,l,e,t" == "-Ta,b,l,e,t";
    }
    assert ['|', 't'] + "a,b,l,e,t" == "|ta,b,l,e,t";
  }

  /** Joining loses nothing: the characters are recovered from the even positions. */
  lemma JoinInjective(a: seq<char>, b: seq<char>)
    ensures Join(a) == Join(b) ==> a == b
  {
    if Join(a) == Join(b) {
      assert |a| == |b|;
      forall i | 0 <= i < |a|
        ensures a[i] == b[i]
      {
        assert (2 * i) % 2 == 0 && (2 * i) / 2 == i;
        assert Join(a)[2 * i] == a[i];
      }
    }
  }

  /**
    Two keys that rename alike: when a name starts with two lower-case letters,
    the only other key with its flag name is the one with a capital first
    letter, so a key whose first character is not a capital has it only if it
    is that name.
  */
  lemma RenameSameAs(k: string, name: string)
    requires |name| >= 2 && 'a' <= name[0] <= 'z' && 'a' <= name[1] <= 'z'
    ensures Rename(k) == Rename(name) && (|k| == 0 || !('A' <= k[0] <= 'Z')) ==> k == name
  {
    if Rename(k) == Rename(name) && (|k| == 0 || !('A' <= k[0] <= 'Z')) {
      var r := Rename(name).value;
      assert r[1] == name[1] && r[0] == Upper(name[0]);
      assert |k| >= 2 by {
        assert |r| == 2 + |Join(name[2..])|;
      }
      assert !(k[0] == LANDSCAPE || k[1] == PORTRAIT);
      assert k[1] == name[1];
      JoinInjective(k[2..], name[2..]);
      assert k[2..] == name[2..];
      assert k[0] == name[0];
      assert k == [k[0], k[1]] + k[2..];
      assert name == [name[0], name[1]] + name[2..];
    }
  }

  /**
    After `setup`, no key is empty or the lone `-`, so `calculateProplessValue`
    never throws on an expanded table of plain names.
  */
  lemma ProplessNeverThrows(reg: Dict<Range>, w: int, landscape: bool, highDensity: bool)
    requires forall j :: 0 <= j < |reg| ==> PlainName(reg[j].0)
    ensures ProplessValue(Expand(reg), w, landscape, highDensity).Ok?
  {
    var e := Expand(reg);
    ProplessThrows(e, w, landscape, highDensity);
    forall i | 0 <= i < |e|
      ensures |e[i].0| >= 2 || (|e[i].0| == 1 && e[i].0[0] != LANDSCAPE)
    {
      ExpandedKeyShape(reg, e[i].0);
    }
  }

  /** A key of an expanded table of plain names starts with a name's first character or with a sigil. */
  lemma ExpandedKeyShape(reg: Dict<Range>, k: string)
    requires forall j :: 0 <= j < |reg| ==> PlainName(reg[j].0)
    ensures Lookup(Expand(reg), k).Some? ==>
      |k| > 0 && (|k| == 1 ==> !IsSigil(k[0])) &&
      exists j :: 0 <= j < |reg| && |reg[j].0| > 0 && (k[0] == reg[j].0[0] || k[0] == LANDSCAPE || k[0] == PORTRAIT)
  {
    ExpandKeys(reg, k);
    if Lookup(reg, k).Some? && !Generated(reg, k) {
      var j :| 0 <= j < |reg| && reg[j] == (k, Lookup(reg, k).value);
      assert k[0] == reg[j].0[0];
    } else if Generated(reg, k) {
      var i, o, s :| 0 <= i < |reg| && 0 <= o < 3 && 0 <= s < 3 && k == VariantKey(o, reg[i].0, s);
      VariantKeyEnds(o, reg[i].0, s);
    }
  }

  /**
    On an expanded table of distinct plain names, none of them capitalised, a
    name starting with two lower-case letters gets its own flag: no derived key
    renames to it, so the flag object holds whether its range holds the width.
  */
  lemma ExpandedFlag(reg: Dict<Range>, w: int, landscape: bool, highDensity: bool, i: nat)
    requires UniqueKeys(reg) && forall j :: 0 <= j < |reg| ==> PlainName(reg[j].0) && !('A' <= reg[j].0[0] <= 'Z')
    requires i < |reg| && |reg[i].0| >= 2 && 'a' <= reg[i].0[0] <= 'z' && 'a' <= reg[i].0[1] <= 'z'
    ensures ProplessValue(Expand(reg), w, landscape, highDensity).Ok?
    ensures Lookup(ProplessValue(Expand(reg), w, landscape, highDensity).value, Rename(reg[i].0).value)
      == Some(Matches(reg[i].1, w))
  {
    ProplessNeverThrows(reg, w, landscape, highDensity);
    ExpandedEntry(reg, i);
    NoLaterRename(reg, i);
    ProplessFlag(Expand(reg), w, landscape, highDensity, i);
  }

  /** In such a table, no key after a name's own place renames to that name's flag. */
  lemma NoLaterRename(reg: Dict<Range>, i: nat)
    requires UniqueKeys(reg) && forall j :: 0 <= j < |reg| ==> PlainName(reg[j].0) && !('A' <= reg[j].0[0] <= 'Z')
    requires i < |reg| && |reg[i].0| >= 2 && 'a' <= reg[i].0[0] <= 'z' && 'a' <= reg[i].0[1] <= 'z'
    ensures forall j :: i < j < |Expand(reg)| ==> Rename(Expand(reg)[j].0) != Rename(reg[i].0)
  {
    var e := Expand(reg);
    ExpandShape(reg);
    forall j | i < j < |e|
      ensures Rename(e[j].0) != Rename(reg[i].0)
    {
      assert Lookup(e, e[j].0).Some?;
      ExpandedKeyShape(reg, e[j].0);
      RenameSameAs(e[j].0, reg[i].0);
    }
  }
}
