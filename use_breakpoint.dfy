/**
  The state of the useBreakpoint module and the operations that read or change
  it: `setup`, which expands a breakpoint table in place and installs it as the
  module's `options`, and `calculateValue`, which reads the installed table.
  Loading the module builds the exported default table and calls `setup` on it.
*/
module UseBreakpoint {
  import opened Wrappers
  import opened JsObject
  import opened Registry
  import opened Orientation
  import opened Flags
  import opened Resolution

  /** A breakpoint table: the JavaScript object mapping names to `[from, to]`, updated in place. */
  class Table {
    var entries: Dict<Range>

    constructor (entries: Dict<Range>)
      ensures this.entries == entries
    {
      this.entries := entries;
    }
  }

  /** `IOptions`: the object handed to `setup`, whose `breakpoints` is the table it expands. */
  class Options {
    var breakpoints: Table

    constructor (breakpoints: Table)
      ensures this.breakpoints == breakpoints
    {
      this.breakpoints := breakpoints;
    }
  }

  /** The module-level bindings: `options`, the exported `breakpoints` and `cachedProplessValue`. */
  class BreakpointModule {
    var options: Options?
    const breakpoints: Table
    const cachedProplessValue: map<int, Dict<bool>>

    /** After loading, `options` is installed and the cache, which nothing writes, is empty. */
    ghost predicate Valid()
      reads this
    {
      options != null && cachedProplessValue == map[]
    }

    /** Loading the module: `setup({ breakpoints })` on the exported default table, which is mutated and shared. */
    constructor ()
      ensures Valid()
      ensures options.breakpoints == breakpoints
      ensures breakpoints.entries == Expand(DefaultBreakpoints())
    {
      breakpoints := new Table(DefaultBreakpoints());
      cachedProplessValue := map[];
      options := null;
      new;
      var opts := new Options(breakpoints);
      Setup(opts);
    }

    /**
      `setup(opts)`: for each entry of a snapshot of the table, write the nine
      keys `${orientation}${name}${symbol}` into the same table, then install
      `opts` as the module's options.
    */
    method Setup(opts: Options)
      modifies this, opts.breakpoints
      ensures options == opts
      ensures opts.breakpoints.entries == Expand(old(opts.breakpoints.entries))
      ensures cachedProplessValue == map[] ==> Valid()
    {
      var table := opts.breakpoints;
      var snapshot := table.entries;
      for i := 0 to |snapshot|
        invariant table.entries == PutAll(snapshot, Writes(snapshot[..i]))
      {
        var (name, range) := snapshot[i];
        WriteVariants(table, name, range);
        WritesPrefix(snapshot, i);
        PutAllConcat(snapshot, Writes(snapshot[..i]), NameWrites(name, range));
      }
      assert snapshot[..|snapshot|] == snapshot;
      options := opts;
    }

    /** The callback `setup` runs for one entry `name → [from, to]`: the nine writes, direction by direction. */
    static method WriteVariants(table: Table, name: string, range: Range)
      modifies table
      ensures table.entries == PutAll(old(table.entries), NameWrites(name, range))
    {
      ghost var start := table.entries;
      ghost var done: seq<(string, Range)> := [];
      var directions := Directions(range);
      for j := 0 to 3
        invariant done == NameWrites(name, range)[..3 * j]
        invariant table.entries == PutAll(start, done)
      {
        var (symbol, fromTo) := directions[j];
        for k := 0 to 3
          invariant done == NameWrites(name, range)[..3 * j + k]
          invariant table.entries == PutAll(start, done)
        {
          var key := ORIENTATIONS[k] + name + symbol;
          NameWriteNext(name, range, j, k);
          PutAllSnoc(start, done, (key, fromTo));
          table.entries := Put(table.entries, key, fromTo);
          done := done + [(key, fromTo)];
        }
        assert 3 * j + 3 == 3 * (j + 1);
      }
      assert NameWrites(name, range)[..9] == NameWrites(name, range);
    }

    /** `calculateProplessValue(iw)`: the cache is read first, then the flag object is computed. */
    method CalculateProplessValue(innerWidth: int, screen: Screen, highDensity: bool) returns (r: Result<Dict<bool>>)
      requires options != null
      ensures innerWidth in cachedProplessValue ==> r == Ok(cachedProplessValue[innerWidth])
      ensures innerWidth !in cachedProplessValue ==>
        r == ProplessValue(options.breakpoints.entries, innerWidth, IsLandscape(screen), highDensity)
    {
      if innerWidth in cachedProplessValue {
        return Ok(cachedProplessValue[innerWidth]);
      }
      var isLands := IsLandscape(screen);
      r := ProplessValue(options.breakpoints.entries, innerWidth, isLands, highDensity);
    }

    /**
      `calculateValue(defaultValue, breakpointValues)` against the installed
      table; since the cache stays empty, the result depends only on the
      table, the width, the screen and the pixel-ratio flag.
    */
    method CalculateValue<T>(innerWidth: int, screen: Screen, highDensity: bool,
                             defaultValue: Option<T>, breakpointValues: Option<seq<(string, T)>>)
      returns (r: Result<Outcome<T>>)
      requires Valid()
      ensures r == Calculate(options.breakpoints.entries, innerWidth, IsLandscape(screen), highDensity,
                             defaultValue, breakpointValues)
    {
      var hasBreakpointValues := breakpointValues.Some? && |breakpointValues.value| > 0;
      var hasDefaultValue := defaultValue.Some?;
      if !hasDefaultValue && !hasBreakpointValues {
        var flags := CalculateProplessValue(innerWidth, screen, highDensity);
        return match flags
          case Ok(d) => Ok(FlagObject(d))
          case TypeError => TypeError;
      }
      if !hasBreakpointValues {
        return Ok(Value(defaultValue));
      }
      var isLands := IsLandscape(screen);
      var value := ScanCandidates(options.breakpoints.entries, innerWidth, isLands, breakpointValues.value, defaultValue);
      return Ok(Value(value));
    }
  }
}
