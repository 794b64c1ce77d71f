# use-breakpoint — a Dafny model of the breakpoint engine

use-breakpoint is a React hook that maps the browser's width to a named
breakpoint. Its logic lives in `src/useBreakpoint.ts`, which has four parts:

- a registry of named width ranges `name → [from, to]`;
- `setup`, which expands each base name in place into nine orientation and
  direction variants, then installs the registry as the module's `options`;
- `calculateValue`, which returns one of three things:
  - the flag object of `calculateProplessValue`;
  - the caller's default;
  - the value of the first candidate whose range holds the width;
- `isLandscape`, which reads the screen orientation.

This project models that engine and proves what it promises.

Modules:

- `Wrappers` — `Option`, and `Result`. `Result` stands for a value or the
  `TypeError` the source throws.
- `JsObject` — a JavaScript plain object as its insertion-ordered list of
  properties:
  - `Lookup` is `o[k]`;
  - `Put` is `o[k] = v` and also `{ ...o, [k]: v }`;
  - `PutAll` is a series of writes.
- `Registry` — the sigils, the `from < w <= to` test, the nine variant keys,
  and the specification of `setup` (`Expand`: every write of `Writes(reg)`
  applied to `reg` itself, in the order the nested `forEach` loops make them).
  It also holds the default table.
- `Orientation` — `isLandscape` over the screen's orientation fields.
- `Flags` — `calculateProplessValue`: the match test over every key, the
  casing rule, and the fold over `{ isLandscape, isPortrait, isHDPI }`.
- `Resolution` — `calculateValue`: mode selection, and the candidate scan as a
  specification (`Resolve`) and as the source's loop (`ScanCandidates`).
- `UseBreakpoint` — the module's state as a class (`BreakpointModule`):
  `options`, the exported `breakpoints` table and the cache. The table is a
  class whose entries `Setup` rewrites in place: it loops over a snapshot of
  the entries, and `WriteVariants`, the per-entry callback, loops over the
  directions and then the orientations. The constructor is module loading:
  it builds the default table and calls `Setup` on it.

The browser is a set of parameters: the width (`window.innerWidth`), the
`window.screen` orientation fields, and `devicePixelRatio > 1` as a boolean.

Where the code and its design description differ, the model follows the code:

- The direction sigil is a suffix (`tablet+`, `tablet-`), not a prefix.
- An "up" variant is capped at 10000, not open-ended.
- The flag object has a flag for every registry key, the expanded ones
  included.
- `rest.join()` separates the remaining characters with commas, so `mobile`
  becomes `Mob,i,l,e`, not `Mobile`.
- The default ranges do not cover every width in `[0, 10000]`. Widths 0, 376,
  640, 1024, 1440 and 1920 lie in no base range, because a range excludes its
  lower bound.

## Model

| member | source | states |
|---|---|---|
| JsObject.Lookup | src/useBreakpoint.ts:94-95 | reading a key gives `undefined` exactly when no property has that key, otherwise the value of a property with that key |
| JsObject.PutLookup | src/useBreakpoint.ts:128-131 | after `o[k] = v`, `k` holds `v` and every other key its old value |
| JsObject.PutShape | src/useBreakpoint.ts:128-131 | `o[k] = v` appends a new key at the end; for an existing key, every key keeps its place |
| JsObject.LookupPutAll | src/useBreakpoint.ts:61-64 | after a series of writes, a key holds the last value written to it, or its old value if it was never written |
| JsObject.PutAllKeepsOrder | src/useBreakpoint.ts:119-134 | a series of writes removes no key and moves no existing key |
| JsObject.PutAllUnique | src/useBreakpoint.ts:119-134 | a series of writes keeps the keys distinct |
| JsObject.LastWriteAt | src/useBreakpoint.ts:61-64 | a write that no later write to the same key follows is the one that sticks |
| Registry.VariantKeyInjective | src/useBreakpoint.ts:128 | between names without sigils, a derived key `${orientation}${name}${symbol}` determines its orientation, name and direction |
| Registry.NameWriteAt | src/useBreakpoint.ts:121-132 | the writes for one entry go symbol by symbol and orientation by orientation, each with its direction's range |
| Registry.ExpandedLookup | src/useBreakpoint.ts:119-134 | after `setup`, each of the nine keys of a base name holds `[from, to]`, `[from, 10000]` or `[0, to]`, when no keys collide |
| Registry.ExpandKeepsOthers | src/useBreakpoint.ts:119-134 | after `setup`, a key not of the generated form keeps its previous range |
| Registry.ExpandKeys | src/useBreakpoint.ts:119-134 | after `setup`, a key is present exactly when it was present before or is one of the generated keys |
| Registry.ExpandedEntry | src/useBreakpoint.ts:119-134 | on a table of distinct plain names, `setup` leaves each base entry at its place with its own range |
| Registry.VariantKeyEnds | src/useBreakpoint.ts:128 | a derived key starts with its name's first character or an orientation sigil, and has one character only when it is the name itself |
| Registry.ExpandShape | src/useBreakpoint.ts:119-134 | `setup` keeps keys distinct and leaves the old keys in their places |
| Registry.ExpandTwiceCompounds | src/useBreakpoint.ts:119-134 | a second `setup` on an expanded table creates `--name`, which one `setup` does not, so the expansion is not idempotent |
| Registry.DefaultIsPlain | src/useBreakpoint.ts:139-146 | the default names are distinct and contain no sigil |
| Registry.DefaultRangesPartition | src/useBreakpoint.ts:139-146 | the six default ranges are pairwise disjoint, and a width lies in one of them exactly when it is in `(0, 10000]` and is not 376, 640, 1024, 1440 or 1920 |
| Orientation.Includes | src/useBreakpoint.ts:28 | `includes` holds exactly when the substring occurs at some position |
| Orientation.OrientationPrecedence | src/useBreakpoint.ts:24-28 | `msOrientation` beats `mozOrientation`, which beats `screen.orientation.type`; a screen that reports nothing counts as portrait |
| Orientation.NoLetterNoMatch | src/useBreakpoint.ts:28 | a string without the first letter of the pattern does not include the pattern |
| Orientation.LandscapeTypes | src/useBreakpoint.ts:27-28 | the `landscape-primary` and `landscape-secondary` types are landscape |
| Orientation.PortraitType | src/useBreakpoint.ts:27-28 | the `portrait-primary` and `portrait-secondary` types are not landscape |
| Flags.Upper | src/useBreakpoint.ts:56-58 | `toUpperCase` never yields a lower-case letter; it changes a character exactly when that is a lower-case letter, and then into a capital |
| Flags.Join | src/useBreakpoint.ts:54-58 | `rest.join()` has the characters at the even positions and a comma at each odd position |
| Flags.Rename | src/useBreakpoint.ts:52-60 | renaming throws exactly for the empty key and the key `-`; another one-character key `c` becomes `C` + `undefined`; a longer key keeps its first character and upper-cases its second after the landscape sigil or before the portrait sigil, otherwise the reverse, and its remaining characters are comma-joined |
| Flags.RenameAll | src/useBreakpoint.ts:52-60 | renaming all keys succeeds exactly when each key renames, and then renames each one in place |
| Flags.BaseFlagsLookup | src/useBreakpoint.ts:38-42 | the initial accumulator holds `isLandscape`, `isPortrait = !isLandscape` and `isHDPI`, and nothing else |
| Flags.JoinInjective | src/useBreakpoint.ts:54-58 | two character lists that `rest.join()` alike are equal |
| Flags.RenameSameAs | src/useBreakpoint.ts:52-60 | a name starting with two lower-case letters shares its flag name only with its capitalised form: any other key that renames alike and does not start with a capital is that name |
| Flags.ProplessThrows | src/useBreakpoint.ts:52-60 | the flag object throws exactly when some registry key is empty or is `-` |
| Flags.RenameAvoidsBaseFlags | src/useBreakpoint.ts:52-60 | no renamed key is `isLandscape`, `isPortrait` or `isHDPI` |
| Flags.ProplessBaseFlags | src/useBreakpoint.ts:38-64 | the flag object has `isLandscape`, `isPortrait = !isLandscape` and `isHDPI` as given |
| Flags.ProplessFlag | src/useBreakpoint.ts:46-64 | under a key's renamed name, the flag object holds that key's `from < w <= to` when no later key renames to the same name; the last writer wins |
| Flags.ProplessKeys | src/useBreakpoint.ts:38-64 | the flag object's keys are the three base flags and the renamed registry keys, and nothing else |
| Flags.ProplessNeverThrows | src/useBreakpoint.ts:52-60 | after `setup` on a table of plain names, no key is empty or `-`, so the flag object never throws |
| Flags.ExpandedKeyShape | src/useBreakpoint.ts:119-134 | a key of such an expanded table is not empty, is not a lone sigil, and starts with a base name's first character or an orientation sigil |
| Flags.NoLaterRename | src/useBreakpoint.ts:52-64 | on such a table with no capitalised names, no key after a lower-case name's place renames to that name's flag |
| Flags.ExpandedFlag | src/useBreakpoint.ts:33-65 | on such a table, the flag object holds, under a lower-case name's renamed name, whether that name's range holds the width |
| Flags.RenameSamplePlain | src/useBreakpoint.ts:52-60 | `mobile` → `Mob,i,l,e` and `tablet` → `Tab,l,e,t` |
| Flags.RenameSampleDown | src/useBreakpoint.ts:52-60 | `tablet-` → `Tab,l,e,t,-`: the down sigil is joined like any other character |
| Flags.RenameSampleShort | src/useBreakpoint.ts:54-58 | `m` → `Mundefined`, `\|` → `\|undefined`, and `-` throws |
| Flags.RenameSampleOriented | src/useBreakpoint.ts:55-56 | `-tablet` → `-Ta,b,l,e,t` and `\|tablet` → `\|ta,b,l,e,t`: the portrait sigil is tested in second position, so a portrait key is not upper-cased at all |
| Resolution.FirstQualifying | src/useBreakpoint.ts:93-99 | the index found is of a candidate that passes every check, and no earlier candidate passes them; when none is found, no candidate passes |
| Resolution.FirstQualifyingAt | src/useBreakpoint.ts:93-99 | a candidate that passes every check after none has passed is the one found |
| Resolution.ScanCandidates | src/useBreakpoint.ts:93-101 | the loop returns the value of the first registered, orientation-allowed candidate whose range holds the width, otherwise the default |
| Resolution.ResolveStep | src/useBreakpoint.ts:93-99 | the first candidate decides when it passes every check; otherwise the scan goes on with the rest |
| Resolution.Registered | src/useBreakpoint.ts:94 | a candidate is kept exactly when it is one of those given and its key is registered |
| Resolution.UnregisteredIrrelevant | src/useBreakpoint.ts:94 | removing the unregistered candidates does not change the result |
| Resolution.LaterCandidatesIgnored | src/useBreakpoint.ts:98 | once a candidate passes, appending more candidates does not change the result |
| Resolution.FallbackToDefault | src/useBreakpoint.ts:101 | when no candidate passes, the result is the default, which may be `undefined` |
| Resolution.OrientationGating | src/useBreakpoint.ts:96-97 | in landscape a key starting with `\|` is never selected, and in portrait a key starting with `-` is never selected |
| Resolution.DownKeyNotGated | src/useBreakpoint.ts:96-97 | a down key such as `tablet-` passes in either orientation whenever its range holds the width |
| Resolution.Modes | src/useBreakpoint.ts:78-89 | with neither a default nor candidates (missing or empty list alike) the result is the flag object; with a default and no candidates it is the default, whatever the width; with candidates it is a scan value and never throws |
| Resolution.TabletScenarios | src/useBreakpoint.ts:75-101 | with `tablet` and `-tablet` on `[640, 1023]`: width 700, candidates `tablet`, `-tablet` → the first; width 1500, candidate `-tablet` → the default |
| Resolution.CalculateNeverThrows | src/useBreakpoint.ts:75-102 | on a table `setup` has expanded from plain names, `useBreakpoint` never throws, with or without a default and candidates |
| Resolution.FlagsAt700 | src/useBreakpoint.ts:33-89 | with no arguments at width 700, on any expanded table of lower-case plain names with `tablet → [640, 1023]` and `mobile → [376, 639]`, the flag object has `Tab,l,e,t` true and `Mob,i,l,e` false |
| Resolution.DefaultFlagsAt700 | src/useBreakpoint.ts:139-148 | the same on the default table as loaded: `useBreakpoint()` at width 700 gives `Tab,l,e,t` true and `Mob,i,l,e` false |
| Resolution.TabletKeys | src/useBreakpoint.ts:119-134 | on any table of distinct plain names with `tablet` on `[640, 1023]`, `setup` gives `tablet` and `-tablet` that range, `tablet+` `[640, 10000]` and `\|tablet-` `[0, 1023]` |
| Resolution.DefaultTabletKeys | src/useBreakpoint.ts:119-148 | after loading, the default table maps `tablet` and `-tablet` to `[640, 1023]`, `tablet+` to `[640, 10000]` and `\|tablet-` to `[0, 1023]` |
| UseBreakpoint.BreakpointModule.constructor | src/useBreakpoint.ts:139-148 | loading the module expands the exported default table in place and installs it as `options`, with an empty cache |
| UseBreakpoint.BreakpointModule.Setup | src/useBreakpoint.ts:118-137 | the loop over the snapshot leaves the table equal to the expansion of its old contents, and `options` is the same, now-mutated, object; with the cache empty, the module is then valid |
| UseBreakpoint.BreakpointModule.WriteVariants | src/useBreakpoint.ts:121-133 | the callback for one entry writes its nine keys direction by direction, orientation by orientation, each with its direction's range |
| UseBreakpoint.BreakpointModule.CalculateProplessValue | src/useBreakpoint.ts:33-65 | a cached width returns the cached object; otherwise the result is the flag object of the installed table |
| UseBreakpoint.BreakpointModule.CalculateValue | src/useBreakpoint.ts:75-102 | the result is the mode selection and scan over the installed table; since the cache is never written, it depends only on the table, the width, the orientation and the pixel-ratio flag |

## Left out

- The `useBreakpoint` React hook (`useState`, `useMemo`, `src/useBreakpoint.ts:104-116`): it is framework glue around `calculateValue`.
- The TypeScript overload signatures (`src/useBreakpoint.ts:67-74`): they are types only.
- `src/useResize.ts` is not part of this model: it is window event listeners and a `setTimeout` debounce, which are I/O and timers. Its disposer calls `findIndex(callback)` with the handler as the predicate, so it never removes a listener.
- `src/story.tsx` is not part of this model: it is a demo component with no logic.
- `window.innerWidth`, `window.screen` and `window.devicePixelRatio` are parameters. The pixel ratio is a float in the source; here only the result of `> 1` is passed in.
- JsObject.Lookup: a key inherited from the prototype (such as `toString`) is not a property here. The source's `options.breakpoints[key]` would find it, and the scan would then fail on its `[from, to]`.
- JsObject.PutShape: integer-like keys, which JavaScript enumerates before all other keys, are kept in insertion order like any other key.
- Orientation.IsLandscape: the result is read as a boolean. The source returns `orientation && …`, so when the orientation is `''` or `undefined` it returns that falsy value itself, and `calculateProplessValue` stores it as `isLandscape`; here that flag is `false`. `isPortrait` is `true` in both.
- Flags.Upper: only ASCII letters are upper-cased. Unicode case mapping, which can change a string's length, is not modelled.
- UseBreakpoint.BreakpointModule.CalculateProplessValue: the cache is a constant map, because the source never writes it. A cached value would be returned only if truthy, and every object is truthy.
- Registry.ExpandedLookup: proved only for tables whose names are distinct and contain no sigil. Otherwise one name's variants can overwrite another's, and the key then holds whatever was written last, as `JsObject.LookupPutAll` states.
- Range bounds are unbounded integers. The source's numbers are floats, but the width and the table bounds are integers in practice.
