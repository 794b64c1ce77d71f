/**
  The breakpoint registry of useBreakpoint: named width ranges, the nine
  orientation and direction variants `setup` derives from each of them, and the
  default table installed when the module loads.
*/
module Registry {
  import opened Wrappers
  import opened JsObject

  const UP: char := '+'
  const DOWN: char := '-'
  const LANDSCAPE: char := '-'
  const PORTRAIT: char := '|'

  /** The upper bound `setup` writes for an "up" variant: a number, not infinity. */
  const UP_LIMIT: int := 10000

  /** A breakpoint's `[from, to]` pair. */
  datatype Range = Range(from: int, to: int)

  /** A width lies in a breakpoint when `from < w <= to`: the lower bound itself is outside. */
  predicate Matches(r: Range, w: int)
  {
    r.from < w <= r.to
  }

  /** The orientation prefixes, in the order `setup` writes them: any, landscape-only, portrait-only. */
  const ORIENTATIONS: seq<string> := ["", [LANDSCAPE], [PORTRAIT]]

  /** The direction suffixes, in the order `setup` writes them: exact, up, down. */
  const SYMBOLS: seq<string> := ["", [UP], [DOWN]]

  /** The three `[symbol, fromTo]` pairs `setup` derives from a base range. */
  function Directions(r: Range): seq<(string, Range)>
  {
    [(SYMBOLS[0], r), (SYMBOLS[1], Range(r.from, UP_LIMIT)), (SYMBOLS[2], Range(0, r.to))]
  }

  /** The key `${orientation}${name}${symbol}`. */
  function VariantKey(o: nat, name: string, s: nat): string
    requires o < 3 && s < 3
  {
    ORIENTATIONS[o] + name + SYMBOLS[s]
  }

  /** The nine writes `setup` makes for one base entry: symbol-major, orientation-minor. */
  function NameWrites(name: string, r: Range): seq<(string, Range)>
  {
    seq(9, p requires 0 <= p < 9 => (VariantKey(p % 3, name, p / 3), Directions(r)[p / 3].1))
  }

  /** Write `3 * s + o` of an entry sets key `${ORIENTATIONS[o]}${name}${symbol}` to the range of direction `s`. */
  lemma NameWriteAt(name: string, r: Range, s: nat, o: nat)
    requires s < 3 && o < 3
    ensures NameWrites(name, r)[3 * s + o] == (ORIENTATIONS[o] + name + Directions(r)[s].0, Directions(r)[s].1)
  {
    assert (3 * s + o) % 3 == o && (3 * s + o) / 3 == s;
  }

  /** All writes `setup` makes for a snapshot of the registry's entries, in order. */
  function Writes(snapshot: Dict<Range>): seq<(string, Range)>
    decreases |snapshot|
  {
    if snapshot == [] then []
    else Writes(snapshot[..|snapshot| - 1]) + NameWrites(snapshot[|snapshot| - 1].0, snapshot[|snapshot| - 1].1)
  }

  /** The registry after `setup`: every write of `Writes(reg)` applied to `reg` itself. */
  function Expand(reg: Dict<Range>): Dict<Range>
  {
    PutAll(reg, Writes(reg))
  }

  /** `k` is one of the keys `setup` derives from some entry of `snapshot`. */
  ghost predicate Generated(snapshot: Dict<Range>, k: string)
  {
    exists i, o, s :: 0 <= i < |snapshot| && 0 <= o < 3 && 0 <= s < 3 && k == VariantKey(o, snapshot[i].0, s)
  }

  predicate IsSigil(c: char)
  {
    c == UP || c == DOWN || c == PORTRAIT
  }

  /** A base name that is not empty and contains none of the sigil characters. */
  predicate PlainName(n: string)
  {
    |n| > 0 && forall i :: 0 <= i < |n| ==> !IsSigil(n[i])
  }

  /** A derived key starts with its name or an orientation sigil, and is one character long only when it is the name itself. */
  lemma VariantKeyEnds(o: nat, name: string, s: nat)
    requires o < 3 && s < 3 && |name| > 0
    ensures o == 0 ==> VariantKey(o, name, s)[0] == name[0]
    ensures o != 0 ==> VariantKey(o, name, s)[0] == LANDSCAPE || VariantKey(o, name, s)[0] == PORTRAIT
    ensures |VariantKey(o, name, s)| == 1 ==> VariantKey(o, name, s) == name
  {
    assert |ORIENTATIONS[o]| == if o == 0 then 0 else 1;
    assert |SYMBOLS[s]| == if s == 0 then 0 else 1;
  }

  /** Between plain names, a derived key determines its orientation, its name and its direction. */
  lemma VariantKeyInjective(o1: nat, n1: string, s1: nat, o2: nat, n2: string, s2: nat)
    requires o1 < 3 && s1 < 3 && o2 < 3 && s2 < 3
    requires PlainName(n1) && PlainName(n2)
    requires VariantKey(o1, n1, s1) == VariantKey(o2, n2, s2)
    ensures o1 == o2 && n1 == n2 && s1 == s2
  {
    var k := VariantKey(o1, n1, s1);
    var a1, a2 := ORIENTATIONS[o1], ORIENTATIONS[o2];
    var b1, b2 := SYMBOLS[s1], SYMBOLS[s2];
    assert k == a1 + n1 + b1 && k == a2 + n2 + b2;
    assert k[0] == if o1 == 0 then n1[0] else a1[0];
    assert k[0] == if o2 == 0 then n2[0] else a2[0];
    assert o1 == o2;
    assert k[|k| - 1] == if s1 == 0 then n1[|n1| - 1] else b1[0];
    assert k[|k| - 1] == if s2 == 0 then n2[|n2| - 1] else b2[0];
    assert s1 == s2;
    assert n1 == k[|a1|..|k| - |b1|] == n2;
  }

  /** The writes of an entry up to `3 * s + o + 1` extend those up to `3 * s + o` by that variant key. */
  lemma NameWriteNext(name: string, r: Range, s: nat, o: nat)
    requires s < 3 && o < 3
    ensures NameWrites(name, r)[..3 * s + o + 1]
      == NameWrites(name, r)[..3 * s + o] + [(ORIENTATIONS[o] + name + Directions(r)[s].0, Directions(r)[s].1)]
  {
    NameWriteAt(name, r, s, o);
  }

  /** The writes of a snapshot's first `i + 1` entries: those of the first `i`, then entry `i`'s nine. */
  lemma WritesPrefix(t: Dict<Range>, i: nat)
    requires i < |t|
    ensures Writes(t[..i + 1]) == Writes(t[..i]) + NameWrites(t[i].0, t[i].1)
  {
    assert t[..i + 1][..i] == t[..i];
  }

  /** Writes of a concatenated snapshot are the writes of its parts, in order. */
  lemma {:induction false} WritesConcat(a: Dict<Range>, b: Dict<Range>)
    ensures Writes(a + b) == Writes(a) + Writes(b)
    decreases |b|
  {
    if b == [] {
      assert a + b == a;
    } else {
      assert (a + b)[..|a + b| - 1] == a + b[..|b| - 1];
      assert (a + b)[|a + b| - 1] == b[|b| - 1];
      WritesConcat(a, b[..|b| - 1]);
      assert Writes(a + b) == Writes(a + b[..|b| - 1]) + NameWrites(b[|b| - 1].0, b[|b| - 1].1);
    }
  }

  /** A key no entry of `t` generates is never written. */
  lemma {:induction false} NotWritten(t: Dict<Range>, k: string)
    requires forall j, o, s :: 0 <= j < |t| && 0 <= o < 3 && 0 <= s < 3 ==> VariantKey(o, t[j].0, s) != k
    ensures LastWrite(Writes(t), k) == None
    decreases |t|
  {
    if t != [] {
      var last := t[|t| - 1];
      NotWritten(t[..|t| - 1], k);
      LastWriteConcat(Writes(t[..|t| - 1]), NameWrites(last.0, last.1), k);
      forall p | 0 <= p < 9
        ensures NameWrites(last.0, last.1)[p].0 != k
      {
        assert NameWrites(last.0, last.1)[p].0 == VariantKey(p % 3, t[|t| - 1].0, p / 3);
      }
    }
  }

  /** A key some entry of `t` generates is written. */
  lemma {:induction false} Written(t: Dict<Range>, j: nat, o: nat, s: nat)
    requires j < |t| && o < 3 && s < 3
    ensures LastWrite(Writes(t), VariantKey(o, t[j].0, s)).Some?
    decreases |t|
  {
    var last := t[|t| - 1];
    var k := VariantKey(o, t[j].0, s);
    LastWriteConcat(Writes(t[..|t| - 1]), NameWrites(last.0, last.1), k);
    if j == |t| - 1 {
      NameWriteAt(last.0, last.1, s, o);
    } else {
      assert t[..|t| - 1][j] == t[j];
      Written(t[..|t| - 1], j, o, s);
    }
  }

  /**
    After `setup`, each of the nine keys derived from a base entry holds the
    range of its direction: `[from, to]`, `[from, 10000]` or `[0, to]` -- provided
    the names are plain, so that no two derived keys collide.
  */
  lemma ExpandedLookup(reg: Dict<Range>, i: nat, o: nat, s: nat)
    requires UniqueKeys(reg) && forall j :: 0 <= j < |reg| ==> PlainName(reg[j].0)
    requires i < |reg| && o < 3 && s < 3
    ensures Lookup(Expand(reg), VariantKey(o, reg[i].0, s)) == Some(Directions(reg[i].1)[s].1)
  {
    var name, r := reg[i].0, reg[i].1;
    var k := VariantKey(o, name, s);
    var before, after := reg[..i], reg[i + 1..];
    assert reg == before + [reg[i]] + after;
    WritesConcat(before + [reg[i]], after);
    WritesConcat(before, [reg[i]]);
    assert Writes([reg[i]]) == NameWrites(name, r) by {
      assert [reg[i]][..0] == [];
    }
    var ws := NameWrites(name, r);
    var p := 3 * s + o;
    assert ws[p].0 == k;
    forall q | p < q < 9
      ensures ws[q].0 != k
    {
      if ws[q].0 == k {
        VariantKeyInjective(q % 3, name, q / 3, o, name, s);
      }
    }
    LastWriteAt(ws, p);
    forall j, o', s' | 0 <= j < |after| && 0 <= o' < 3 && 0 <= s' < 3
      ensures VariantKey(o', after[j].0, s') != k
    {
      assert after[j] == reg[i + 1 + j];
      if VariantKey(o', after[j].0, s') == k {
        VariantKeyInjective(o', after[j].0, s', o, name, s);
      }
    }
    NotWritten(after, k);
    LastWriteConcat(Writes(before) + ws, Writes(after), k);
    LastWriteConcat(Writes(before), ws, k);
    LookupPutAll(reg, Writes(reg), k);
  }

  /** `setup` leaves every key it does not generate as it was. */
  lemma ExpandKeepsOthers(reg: Dict<Range>, k: string)
    requires !Generated(reg, k)
    ensures Lookup(Expand(reg), k) == Lookup(reg, k)
  {
    NotWritten(reg, k);
    LookupPutAll(reg, Writes(reg), k);
  }

  /** `setup` deletes no key and adds exactly the generated ones. */
  /** A base entry keeps its place and its range through `setup`. */
  lemma ExpandedEntry(reg: Dict<Range>, i: nat)
    requires UniqueKeys(reg) && forall j :: 0 <= j < |reg| ==> PlainName(reg[j].0)
    requires i < |reg|
    ensures i < |Expand(reg)| && Expand(reg)[i] == reg[i]
  {
    ExpandShape(reg);
    ExpandedLookup(reg, i, 0, 0);
    assert VariantKey(0, reg[i].0, 0) == reg[i].0;
    LookupAt(Expand(reg), i);
  }

  lemma ExpandKeys(reg: Dict<Range>, k: string)
    ensures Lookup(Expand(reg), k).Some? <==> Lookup(reg, k).Some? || Generated(reg, k)
  {
    LookupPutAll(reg, Writes(reg), k);
    if Generated(reg, k) {
      var i, o, s :| 0 <= i < |reg| && 0 <= o < 3 && 0 <= s < 3 && k == VariantKey(o, reg[i].0, s);
      Written(reg, i, o, s);
    } else {
      NotWritten(reg, k);
    }
  }

  /** `setup` keeps the keys of the registry distinct and the old keys in their places. */
  lemma ExpandShape(reg: Dict<Range>)
    requires UniqueKeys(reg)
    ensures UniqueKeys(Expand(reg))
    ensures |Expand(reg)| >= |reg| && forall i :: 0 <= i < |reg| ==> Expand(reg)[i].0 == reg[i].0
  {
    PutAllUnique(reg, Writes(reg));
    PutAllKeepsOrder(reg, Writes(reg));
  }

  /** No plain name generates a key that starts with two sigils. */
  lemma DoubleSigilNotGenerated(reg: Dict<Range>, k: string)
    requires forall j :: 0 <= j < |reg| ==> PlainName(reg[j].0)
    requires |k| >= 2 && IsSigil(k[0]) && IsSigil(k[1])
    ensures !Generated(reg, k)
  {
    forall m, o, s | 0 <= m < |reg| && 0 <= o < 3 && 0 <= s < 3
      ensures k != VariantKey(o, reg[m].0, s)
    {
      var n := reg[m].0;
      var v := VariantKey(o, n, s);
      assert PlainName(n) && !IsSigil(n[0]);
      assert if o == 0 then v[0] == n[0] else v[1] == n[0];
    }
  }

  /**
    Calling `setup` a second time on an expanded registry is not idempotent: it
    compounds prefixes, creating `--name` for every plain base name.
  */
  lemma ExpandTwiceCompounds(reg: Dict<Range>, i: nat)
    requires forall j :: 0 <= j < |reg| ==> PlainName(reg[j].0)
    requires i < |reg|
    ensures Lookup(Expand(Expand(reg)), "--" + reg[i].0).Some?
    ensures Lookup(Expand(reg), "--" + reg[i].0).None?
    ensures Expand(Expand(reg)) != Expand(reg)
  {
    var name := reg[i].0;
    var once := Expand(reg);
    var dashed := VariantKey(1, name, 0);
    assert dashed == "-" + name;
    ExpandKeys(reg, dashed);
    var j :| 0 <= j < |once| && once[j] == (dashed, Lookup(once, dashed).value);
    var twice := "--" + name;
    assert VariantKey(1, once[j].0, 0) == twice;
    ExpandKeys(once, twice);
    assert Lookup(reg, twice).None? by {
      assert twice[0] == DOWN;
      forall m | 0 <= m < |reg|
        ensures reg[m].0 != twice
      {
        assert PlainName(reg[m].0) && !IsSigil(reg[m].0[0]);
      }
    }
    DoubleSigilNotGenerated(reg, twice);
    ExpandKeys(reg, twice);
  }

  /** The exported default table, as written in the source. */
  function DefaultBreakpoints(): Dict<Range>
  {
    [
      ("micro", Range(0, 375)),
      ("mobile", Range(376, 639)),
      ("tablet", Range(640, 1023)),
      ("small", Range(1024, 1439)),
      ("medium", Range(1440, 1919)),
      ("large", Range(1920, 10000))
    ]
  }

  /** The default names are distinct and plain, so `ExpandedLookup` applies to them. */
  lemma DefaultIsPlain()
    ensures UniqueKeys(DefaultBreakpoints())
    ensures forall j :: 0 <= j < |DefaultBreakpoints()| ==> PlainName(DefaultBreakpoints()[j].0)
  {
  }

  /**
    The six default ranges are pairwise disjoint, and a width lies in one of them
    exactly when it is in `(0, 10000]` and is not one of the lower bounds
    376, 640, 1024, 1440 and 1920, which fall between two ranges.
  */
  lemma DefaultRangesPartition(w: int)
    ensures forall i, j :: 0 <= i < j < |DefaultBreakpoints()| ==>
      !(Matches(DefaultBreakpoints()[i].1, w) && Matches(DefaultBreakpoints()[j].1, w))
    ensures (exists i :: 0 <= i < |DefaultBreakpoints()| && Matches(DefaultBreakpoints()[i].1, w))
      <==> 0 < w <= UP_LIMIT && w != 376 && w != 640 && w != 1024 && w != 1440 && w != 1920
  {
    var d := DefaultBreakpoints();
    if 0 < w <= UP_LIMIT && w != 376 && w != 640 && w != 1024 && w != 1440 && w != 1920 {
      var i := if w <= 375 then 0 else if w <= 639 then 1 else if w <= 1023 then 2
        else if w <= 1439 then 3 else if w <= 1919 then 4 else 5;
      assert Matches(d[i].1, w);
    }
  }
}
