/**
  `calculateValue`: the choice between the flag object, the plain default and
  the candidate scan, and the scan itself -- the first registered,
  orientation-allowed candidate whose range holds the width wins.
*/
module Resolution {
  import opened Wrappers
  import opened JsObject
  import opened Registry
  import opened Flags

  /** `key.startsWith(c)` for a one-character prefix. */
  predicate StartsWith(key: string, c: char)
  {
    |key| > 0 && key[0] == c
  }

  /**
    A candidate key passes every check of the scan: it is registered, it is not
    portrait-only in landscape nor landscape-only in portrait, and its range holds
    the width.
  */
  predicate Qualifies(reg: Dict<Range>, w: int, landscape: bool, key: string)
  {
    match Lookup(reg, key)
    case None => false
    case Some(r) =>
      && !(landscape && StartsWith(key, PORTRAIT))
      && !(!landscape && StartsWith(key, LANDSCAPE))
      && Matches(r, w)
  }

  /** The position of the first qualifying candidate, if any. */
  function FirstQualifying<T>(reg: Dict<Range>, w: int, landscape: bool, cands: seq<(string, T)>): (r: Option<nat>)
    ensures r.Some? ==> r.value < |cands| && Qualifies(reg, w, landscape, cands[r.value].0)
    ensures r.Some? ==> forall j :: 0 <= j < r.value ==> !Qualifies(reg, w, landscape, cands[j].0)
    ensures r.None? ==> forall j :: 0 <= j < |cands| ==> !Qualifies(reg, w, landscape, cands[j].0)
  {
    if cands == [] then None
    else if Qualifies(reg, w, landscape, cands[0].0) then Some(0)
    else
      match FirstQualifying(reg, w, landscape, cands[1..])
      case None =>
        assert forall j :: 1 <= j < |cands| ==> cands[j] == cands[1..][j - 1];
        None
      case Some(i) =>
        assert forall j :: 1 <= j <= i + 1 ==> cands[j] == cands[1..][j - 1];
        Some(i + 1)
  }

  /** A candidate that qualifies after none has is the one found. */
  lemma FirstQualifyingAt<T>(reg: Dict<Range>, w: int, landscape: bool, cands: seq<(string, T)>, i: nat)
    requires i < |cands| && Qualifies(reg, w, landscape, cands[i].0)
    requires forall j :: 0 <= j < i ==> !Qualifies(reg, w, landscape, cands[j].0)
    ensures FirstQualifying(reg, w, landscape, cands) == Some(i)
  {
    var r := FirstQualifying(reg, w, landscape, cands);
    assert r.Some?;
    assert !(r.value < i);
  }

  /** The scan's result: the value of the first qualifying candidate, else the default. */
  function Resolve<T>(reg: Dict<Range>, w: int, landscape: bool, cands: seq<(string, T)>, defaultValue: Option<T>): Option<T>
  {
    match FirstQualifying(reg, w, landscape, cands)
    case Some(i) => Some(cands[i].1)
    case None => defaultValue
  }

  /** The `for...of` loop over the candidates, with its `continue`s and its early `return`. */
  method ScanCandidates<T>(reg: Dict<Range>, w: int, landscape: bool, cands: seq<(string, T)>, defaultValue: Option<T>)
    returns (r: Option<T>)
    ensures r == Resolve(reg, w, landscape, cands, defaultValue)
  {
    for i := 0 to |cands|
      invariant forall j :: 0 <= j < i ==> !Qualifies(reg, w, landscape, cands[j].0)
    {
      var (key, value) := cands[i];
      var range := Lookup(reg, key);
      if range.None? {
        continue;
      }
      if landscape && StartsWith(key, PORTRAIT) {
        continue;
      }
      if !landscape && StartsWith(key, LANDSCAPE) {
        continue;
      }
      if w > range.value.from && w <= range.value.to {
        assert Qualifies(reg, w, landscape, cands[i].0);
        return Some(value);
      }
    }
    return defaultValue;
  }

  /** The scan read one candidate at a time: the first candidate decides when it qualifies. */
  lemma {:induction false} ResolveStep<T>(reg: Dict<Range>, w: int, landscape: bool, cands: seq<(string, T)>, defaultValue: Option<T>)
    requires cands != []
    ensures Resolve(reg, w, landscape, cands, defaultValue) ==
      if Qualifies(reg, w, landscape, cands[0].0) then Some(cands[0].1)
      else Resolve(reg, w, landscape, cands[1..], defaultValue)
  {
  }

  /** The candidates whose key is registered, in their order. */
  function Registered<T>(reg: Dict<Range>, cands: seq<(string, T)>): (r: seq<(string, T)>)
    ensures |r| <= |cands|
    ensures forall j :: 0 <= j < |r| ==> Lookup(reg, r[j].0).Some?
    ensures forall j :: 0 <= j < |r| ==> r[j] in cands
    ensures forall j :: 0 <= j < |cands| && Lookup(reg, cands[j].0).Some? ==> cands[j] in r
  {
    if cands == [] then []
    else if Lookup(reg, cands[0].0).Some? then [cands[0]] + Registered(reg, cands[1..])
    else Registered(reg, cands[1..])
  }

  /** Candidates with unregistered keys are skipped: dropping them does not change the result. */
  lemma {:induction false} UnregisteredIrrelevant<T>(reg: Dict<Range>, w: int, landscape: bool, cands: seq<(string, T)>, defaultValue: Option<T>)
    ensures Resolve(reg, w, landscape, Registered(reg, cands), defaultValue) == Resolve(reg, w, landscape, cands, defaultValue)
    decreases |cands|
  {
    if cands != [] {
      UnregisteredIrrelevant(reg, w, landscape, cands[1..], defaultValue);
      ResolveStep(reg, w, landscape, cands, defaultValue);
      if Lookup(reg, cands[0].0).Some? {
        var r := Registered(reg, cands);
        assert r[0] == cands[0] && r[1..] == Registered(reg, cands[1..]);
        ResolveStep(reg, w, landscape, r, defaultValue);
      }
    }
  }

  /** Once a candidate qualifies, later candidates are never examined: appending more does not change the result. */
  lemma LaterCandidatesIgnored<T>(reg: Dict<Range>, w: int, landscape: bool, cands: seq<(string, T)>, more: seq<(string, T)>, defaultValue: Option<T>)
    requires FirstQualifying(reg, w, landscape, cands).Some?
    ensures Resolve(reg, w, landscape, cands + more, defaultValue) == Resolve(reg, w, landscape, cands, defaultValue)
  {
    var i := FirstQualifying(reg, w, landscape, cands).value;
    var all := cands + more;
    assert all[i] == cands[i];
    assert forall j :: 0 <= j < i ==> all[j] == cands[j];
    FirstQualifyingAt(reg, w, landscape, all, i);
  }

  /** When no candidate qualifies the scan falls back to the default, which may be absent. */
  lemma FallbackToDefault<T>(reg: Dict<Range>, w: int, landscape: bool, cands: seq<(string, T)>, defaultValue: Option<T>)
    requires forall j :: 0 <= j < |cands| ==> !Qualifies(reg, w, landscape, cands[j].0)
    ensures Resolve(reg, w, landscape, cands, defaultValue) == defaultValue
  {
  }

  /**
    In landscape a portrait-only key (`|...`) is never selected, in portrait a
    landscape-only key (`-...`) is never selected, whatever the width.
  */
  lemma OrientationGating<T>(reg: Dict<Range>, w: int, landscape: bool, cands: seq<(string, T)>)
    requires FirstQualifying(reg, w, landscape, cands).Some?
    ensures var key := cands[FirstQualifying(reg, w, landscape, cands).value].0;
      && (landscape ==> !StartsWith(key, PORTRAIT))
      && (!landscape ==> !StartsWith(key, LANDSCAPE))
  {
  }

  /**
    The direction sigil is a suffix, so a down key such as `tablet-` is gated by
    no orientation: it qualifies in both orientations whenever its range holds
    the width.
  */
  lemma DownKeyNotGated(reg: Dict<Range>, w: int, name: string, landscape: bool)
    requires PlainName(name)
    requires Lookup(reg, name + [DOWN]).Some? && Matches(Lookup(reg, name + [DOWN]).value, w)
    ensures Qualifies(reg, w, landscape, name + [DOWN])
  {
    assert (name + [DOWN])[0] == name[0];
  }

  /** Whether `breakpointValues` is an array with at least one element. */
  predicate HasCandidates<T>(breakpointValues: Option<seq<(string, T)>>)
  {
    breakpointValues.Some? && |breakpointValues.value| > 0
  }

  /** What `calculateValue` returns: the flag object, or a value of the caller's (possibly `undefined`). */
  datatype Outcome<T> = FlagObject(flags: Dict<bool>) | Value(value: Option<T>)

  /** `calculateValue(defaultValue, breakpointValues)` for the given width and orientation. */
  function Calculate<T>(reg: Dict<Range>, w: int, landscape: bool, highDensity: bool,
                        defaultValue: Option<T>, breakpointValues: Option<seq<(string, T)>>): Result<Outcome<T>>
  {
    if defaultValue.None? && !HasCandidates(breakpointValues) then
      match ProplessValue(reg, w, landscape, highDensity)
      case Ok(d) => Ok(FlagObject(d))
      case TypeError => TypeError
    else if !HasCandidates(breakpointValues) then Ok(Value(defaultValue))
    else Ok(Value(Resolve(reg, w, landscape, breakpointValues.value, defaultValue)))
  }

  /**
    The three modes: with neither a default nor candidates (a missing list and an
    empty one alike), the flag object; with a default and no candidates, the
    default unchanged whatever the width; with candidates, the scan, which never
    throws and never yields the flag object.
  */
  lemma Modes<T>(reg: Dict<Range>, w: int, landscape: bool, highDensity: bool,
                 defaultValue: Option<T>, breakpointValues: Option<seq<(string, T)>>)
    ensures defaultValue.None? && !HasCandidates(breakpointValues) ==>
      Calculate(reg, w, landscape, highDensity, defaultValue, breakpointValues)
        == Calculate(reg, w, landscape, highDensity, defaultValue, None)
    ensures defaultValue.None? && !HasCandidates(breakpointValues) && ProplessValue(reg, w, landscape, highDensity).Ok? ==>
      Calculate(reg, w, landscape, highDensity, defaultValue, breakpointValues)
        == Ok(FlagObject(ProplessValue(reg, w, landscape, highDensity).value))
    ensures defaultValue.Some? && !HasCandidates(breakpointValues) ==>
      Calculate(reg, w, landscape, highDensity, defaultValue, breakpointValues) == Ok(Value(defaultValue))
    ensures HasCandidates(breakpointValues) ==>
      Calculate(reg, w, landscape, highDensity, defaultValue, breakpointValues).Ok?
      && Calculate(reg, w, landscape, highDensity, defaultValue, breakpointValues).value.Value?
  {
  }

  /**
    Two scenarios on any registry that maps `tablet` and `-tablet` to
    `[640, 1023]`: with width 700, of the candidates `tablet` and `-tablet` the
    first wins; with width 1500 `-tablet` does not hold the width and the
    default is returned.
  */
  lemma TabletScenarios(reg: Dict<Range>, landscape: bool, highDensity: bool)
    requires Lookup(reg, "tablet") == Some(Range(640, 1023))
    requires Lookup(reg, "-tablet") == Some(Range(640, 1023))
    ensures Calculate(reg, 700, landscape, highDensity, Some('N'), Some([("tablet", 'T'), ("-tablet", 'D')]))
      == Ok(Value(Some('T')))
    ensures Calculate(reg, 1500, landscape, highDensity, Some('N'), Some([("-tablet", 'D')]))
      == Ok(Value(Some('N')))
  {
    var first := [("tablet", 'T'), ("-tablet", 'D')];
    assert Qualifies(reg, 700, landscape, first[0].0);
    ResolveStep(reg, 700, landscape, first, Some('N'));
    var second := [("-tablet", 'D')];
    assert !Qualifies(reg, 1500, landscape, second[0].0);
    FallbackToDefault(reg, 1500, landscape, second, Some('N'));
  }

  /** On a table `setup` has expanded, `useBreakpoint` never throws, whatever it is given. */
  lemma CalculateNeverThrows<T>(reg: Dict<Range>, w: int, landscape: bool, highDensity: bool,
                                defaultValue: Option<T>, breakpointValues: Option<seq<(string, T)>>)
    requires forall j :: 0 <= j < |reg| ==> PlainName(reg[j].0)
    ensures Calculate(Expand(reg), w, landscape, highDensity, defaultValue, breakpointValues).Ok?
  {
    ProplessNeverThrows(reg, w, landscape, highDensity);
  }

  /**
    `useBreakpoint()` at width 700 on any expanded table of distinct plain,
    uncapitalised names with `tablet → [640, 1023]` and `mobile → [376, 639]`:
    the flag object has the tablet flag, under its renamed name, true and the
    mobile flag false.
  */
  lemma FlagsAt700(reg: Dict<Range>, t: nat, m: nat, landscape: bool, highDensity: bool)
    requires UniqueKeys(reg) && forall j :: 0 <= j < |reg| ==> PlainName(reg[j].0) && !('A' <= reg[j].0[0] <= 'Z')
    requires t < |reg| && reg[t] == ("tablet", Range(640, 1023))
    requires m < |reg| && reg[m] == ("mobile", Range(376, 639))
    ensures var c := Calculate<char>(Expand(reg), 700, landscape, highDensity, None, None);
      c.Ok? && c.value.FlagObject? &&
      Lookup(c.value.flags, "Tab,l,e,t") == Some(true) && Lookup(c.value.flags, "Mob,i,l,e") == Some(false)
  {
    ExpandedFlag(reg, 700, landscape, highDensity, t);
    ExpandedFlag(reg, 700, landscape, highDensity, m);
    RenameSamplePlain();
  }

  /** The loaded default table at width 700: `Tab,l,e,t` is true and `Mob,i,l,e` is false. */
  lemma DefaultFlagsAt700(landscape: bool, highDensity: bool)
    ensures var c := Calculate<char>(Expand(DefaultBreakpoints()), 700, landscape, highDensity, None, None);
      c.Ok? && c.value.FlagObject? &&
      Lookup(c.value.flags, "Tab,l,e,t") == Some(true) && Lookup(c.value.flags, "Mob,i,l,e") == Some(false)
  {
    DefaultIsPlain();
    FlagsAt700(DefaultBreakpoints(), 2, 1, landscape, highDensity);
  }

  /**
    On any table of distinct plain names with `tablet → [640, 1023]`, `setup`
    gives `tablet` and `-tablet` that range, `tablet+` the range `[640, 10000]`
    and `|tablet-` the range `[0, 1023]`.
  */
  lemma TabletKeys(reg: Dict<Range>, i: nat)
    requires UniqueKeys(reg) && forall j :: 0 <= j < |reg| ==> PlainName(reg[j].0)
    requires i < |reg| && reg[i] == ("tablet", Range(640, 1023))
    ensures Lookup(Expand(reg), "tablet") == Some(Range(640, 1023))
    ensures Lookup(Expand(reg), "-tablet") == Some(Range(640, 1023))
    ensures Lookup(Expand(reg), "tablet+") == Some(Range(640, UP_LIMIT))
    ensures Lookup(Expand(reg), "|tablet-") == Some(Range(0, 1023))
  {
    TabletVariantKeys();
    ExpandedLookup(reg, i, 0, 0);
    ExpandedLookup(reg, i, 1, 0);
    ExpandedLookup(reg, i, 0, 1);
    ExpandedLookup(reg, i, 2, 2);
  }

  /** The default table, expanded when the module loads, has those four keys. */
  lemma DefaultTabletKeys()
    ensures Lookup(Expand(DefaultBreakpoints()), "tablet") == Some(Range(640, 1023))
    ensures Lookup(Expand(DefaultBreakpoints()), "-tablet") == Some(Range(640, 1023))
    ensures Lookup(Expand(DefaultBreakpoints()), "tablet+") == Some(Range(640, UP_LIMIT))
    ensures Lookup(Expand(DefaultBreakpoints()), "|tablet-") == Some(Range(0, 1023))
  {
    DefaultIsPlain();
    TabletKeys(DefaultBreakpoints(), 2);
  }

  lemma TabletVariantKeys()
    ensures VariantKey(0, "tablet", 0) == "tablet" && VariantKey(1, "tablet", 0) == "-tablet"
    ensures VariantKey(0, "tablet", 1) == "tablet+" && VariantKey(2, "tablet", 2) == "|tablet-"
  {
    assert ORIENTATIONS[1] == "-" && ORIENTATIONS[2] == "|";
    assert SYMBOLS[1] == "+" && SYMBOLS[2] == "-";
  }
}
