# Route-tree compiler, modelled in Dafny

The repository compiles a nested route declaration into a flat list of
`{path, handler}` registrations for the `route-recognizer` engine, and
returns a lookup closure over that engine. A route map is a callback that
calls `this.route(name, options?, callback?)` (and, in the compiled
`dist/index.js` variant, `this.alias(name, path, target)`). Each `route`
call:

- normalises its own path segment (a truthy `options.path`, else the name,
  with a `/` prepended unless one is already there);
- composes the dotted `fullName` and the slash-joined `fullPath` from the
  parent record's;
- registers exactly one record, then runs its callback with that record
  as the new parent (depth-first, pre-order).

`dist/index.js` also fills a `routeLookup` side table from `fullName` to
callback. `alias` uses it to re-run a target's callback under a new name
and path.

The model is functional:

- `Dsl.Stmt` is one call of the declaration language.
- `Dsl.Value` is the options or callback argument of `route`: `undefined`,
  an options object, or a callback.
- `Naming.RouteRecord` is the registered handler.
- `LibCompiler` and `DistCompiler` are pure recursive functions. They map
  a call sequence and an optional parent record to the registrations made,
  in order.
- `DistCompiler` also threads the side table as a `map`.
- A JavaScript exception that aborts compilation is an `Err` of
  `Dsl.JsError`.
- `Twin` proves that the two compilers agree whenever no `alias` call is
  made.

Files: `wrappers.dfy` (Option, Result), `naming.dfy` (segments, names,
record shape), `dsl.dfy` (declaration language, argument shaping),
`engine.dfy` (registrations), `lib_compiler.dfy`,
`dist_compiler.dfy`, `twin.dfy`, `alias_example.dfy`.

Two details of the code matter here:

- The code picks the segment by truthiness (`if (options.path)`), not by
  "is present". So an empty-string `path` falls back to the name
  (`Naming.SegmentChoice`).
- A dangling alias target does not leave the alias without effect. The
  code still calls `route(aliasName, {path: aliasPath})`, which registers
  the alias's own record and writes its side-table entry
  (`DistCompiler.AliasDeclaresItself`).

## Model

| member | source | states |
|---|---|---|
| `Naming.NormalizeShape` | lib/index.js:26-28 | normalisation only prepends one `/`, and leaves the segment unchanged exactly when it already starts with `/` |
| `Naming.NormalizeIdempotent` | dist/index.js:36-38 | normalising an already normalised segment changes nothing |
| `Naming.SegmentChoice` | lib/index.js:20-28 | a truthy `path` option becomes the segment, otherwise the name; `path: ""` falls back to the name; `x` and `/x` give the same segment; the segment ends with the chosen source |
| `Naming.QualifiedNameShape` | lib/index.js:30-40 | a dotted name ends with the name and, below a parent, starts with the parent's `fullName` and a dot |
| `Naming.RecordComposition` | lib/index.js:30-48 | root: `fullName == name`, `fullPath == path`; child: `parent.fullName + "." + name` and `parent.fullPath + path`; the record is well formed and lies inside its parent's subtree |
| `Dsl.ShapeCases` | lib/index.js:14-22 | no arguments give no path and no callback; an options object's `path` is what is read; `route(name, {path}, fn)` runs `fn`; with two functions the second one runs; an options object in the callback position fails |
| `Dsl.Shape` | lib/index.js:14-18 | only an options object in the callback position makes a route fail; the callback that runs is one of the passed functions; a `path` is read only from an options object in the second position |
| `Dsl.TwoArgumentCallback` | lib/index.js:14-18 | `route(name, fn)` takes `fn` as callback with default options, like `route(name, undefined, fn)` and `route(name, {}, fn)` |
| `Dsl.DefaultOptions` | dist/index.js:22-28 | an explicit `undefined` options argument defaults to `{}`; with three arguments a function as options is not the callback |
| `Engine.RegistrationsAppend` | lib/index.js:49 | `router.add` is called once per record, in order: no records give no entries, one record gives the single entry `{path: fullPath, handler: record}`, and the entries of a concatenation are the concatenated entries |
| `LibCompiler.CompileSeq` | lib/index.js:49-53 | on success, one registration per declaration node; all are well formed and inside the parent's subtree; success implies no `alias` call, and an alias-free map never fails for lack of `alias` |
| `LibCompiler.CompileStmt` | lib/index.js:6-11 | one call registers as many records as the nodes it declares; an `alias` call fails because the context offers only `route` and `parentRoute` |
| `LibCompiler.CompileRoute` | lib/index.js:14-54 | a `route` call registers its node and its descendants, all well formed and inside the parent's subtree |
| `LibCompiler.LibSucceeds` | lib/index.js:6-54 | compilation succeeds exactly when no `alias` call is reached and every reached `route` call has a function or nothing in its callback position |
| `LibCompiler.LibSucceedsRoute` | lib/index.js:14-54 | a `route` call succeeds exactly when its arguments are usable and its callback, if any, succeeds |
| `LibCompiler.RoutesLoader` | lib/index.js:56-60 | an empty route map registers nothing; every registration's pattern is its handler's `fullPath` and starts with `/` |
| `LibCompiler.ParentsRegisteredFirst` | lib/index.js:49-53 | every registered record is a child of the root parent or of a record registered earlier |
| `LibCompiler.RouteBlock` | lib/index.js:43-53 | a `route` call registers its own record first and then only records inside its subtree, so all descendants precede the next sibling |
| `LibCompiler.AliasRejected` | lib/index.js:6-11 | calling `alias` aborts lib compilation |
| `LibCompiler.SingleRouteExample` | test/index-test.js:36-56 | `route('single-route')` registers `/single-route` with the expected record |
| `LibCompiler.DynamicChildExample` | test/index-test.js:290-313 | a child with path `:dynamic_segment` gets `fullName` `parent-route.child-route` and `fullPath` `/parent-route/:dynamic_segment` |
| `DistCompiler.RunSeq` | dist/index.js:10-16 | dist compilation never fails for lack of `alias` |
| `DistCompiler.SeqInvariant` | dist/index.js:54-66 | a run writes exactly the registered full names into the side table, keeps every other entry, registers only inside the parent's subtree, and registers only well-formed records |
| `DistCompiler.StmtInvariant` | dist/index.js:69-87 | the same invariant holds for a single `route` or `alias` call |
| `DistCompiler.RouteInvariant` | dist/index.js:54-66 | `route` registers its own record first, then only inside its subtree; after the callback the side table still maps its `fullName` to its callback |
| `DistCompiler.RoutesLoader` | dist/index.js:89-93 | an empty route map registers nothing; every pattern is the handler's `fullPath` and starts with `/` |
| `DistCompiler.RunConcat` | dist/index.js:60-62 | running `a` then `b` appends `b`'s registrations to `a`'s unchanged ones, and `b` sees the table `a` left |
| `DistCompiler.AliasDeclaresItself` | dist/index.js:80-86 | an alias registers one record of its own first, named by the alias with the alias path or name as segment, mapped to the target's callback; with an unknown target that record is all it registers |
| `DistCompiler.AliasReDeclares` | dist/index.js:80-86 | with a known target callback, the children are re-run below the alias record; every later registration lies under the alias's `fullName` and `fullPath`, not the target's |
| `DistCompiler.AliasFindsTarget` | dist/index.js:62-86 | after any earlier calls and a `route(target, ...)` with a callback, `alias(name, path, target)` resolves the target under the parent's `fullName`, registers its own record after everything earlier, maps its full name to the target's callback, and re-runs that callback below itself with one unit less fuel; with no fuel left it fails with `FuelExhausted` |
| `DistCompiler.AliasSeesOnlyEarlier` | dist/index.js:62-80 | if no earlier registration has the target's full name, the alias appends only its own record |
| `DistCompiler.LaterDeclarationWins` | dist/index.js:62 | after any earlier calls, including earlier declarations of the same `fullName`, the last `route` call's callback is the one left in the side table under its `fullName` |
| `DistCompiler.FuelMonotone` | dist/index.js:80-86 | a run that does not run out of fuel gives the same result with any larger fuel |
| `DistCompiler.ParentsRegisteredFirst` | dist/index.js:60-66 | with aliases too, every registered record is a child of the root parent or of an earlier registration |
| `Twin.AgreeSeq` | dist/index.js:21-67 | on alias-free declarations dist registers exactly what lib registers and fails exactly when lib fails, for any side table and fuel |
| `Twin.DistSucceeds` | dist/index.js:21-67 | on alias-free declarations the dist compiler succeeds exactly when every reached `route` call has usable arguments |
| `Twin.LoadersAgree` | dist/index.js:89-93 | both entry points agree on alias-free route maps, and dist then never runs out of fuel |
| `AliasExample.AliasKeepsTarget` | dist/index.js:69-87 | aliasing `target` (one child) as `copy` at `copied` registers `/target`, `/target/child`, `/copied`, `/copied/child` in this order |

## Left out

- The `route-recognizer` engine: trie matching, `:param` extraction, `isDynamic`, query strings, specificity. It is an external library, so the model ends at the ordered registration list. The returned closure (lib/index.js:58-60) only forwards its `path` to the engine's `recognize`, so it is not modelled.
- The `this`-binding of callbacks (`callback.call({...})`) is modelled as an explicit parent-record parameter.
- Module and export glue (dist/index.js:1-5, 96-100) and the mocha/chai test suite.
- `routeLookup` is a plain object in the source. Keys such as `constructor` or `__proto__` find inherited members. The model's table is a map with no inherited entries.
- Option values other than strings, `null` arguments and non-string names. These throw or stringify in JavaScript and are not modelled.
- Strings, numbers and other non-object, non-function values in the options or callback position. `Dsl.Value` only represents `undefined`, an options object and a callback. For example, `route('a', {}, 'x')` throws when `callCallback` calls `'x'.call` (lib/index.js:7); the model cannot express that call.
- A callback that catches the exception thrown by a nested `route` or `alias` call. The model always aborts the whole compilation on such an exception. The registrations made before the throw are dropped with the discarded engine.
- Termination of alias re-expansion is not argued. Each alias expansion runs with one unit less `fuel` than the call that made it; sibling calls keep the same fuel. An `alias` call made with no fuel left fails with `FuelExhausted`. So the model only covers route maps whose alias expansions nest no deeper than the fuel given. `DistCompiler.FuelMonotone` and `Twin.LoadersAgree` show that fuel changes nothing else.
- DistCompiler.RunSeq: its own contract only excludes the missing-`alias` error, and `RunStmt` and `RunRoute` carry the same one. The invariants it keeps are stated by `DistCompiler.SeqInvariant`, which keeps the function definitions cheap to verify.
