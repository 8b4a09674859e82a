/**
 * The route-map compiler of dist/index.js: the lib walk plus the
 * `routeLookup` side table from each `fullName` to its callback, and the
 * `alias` call that re-declares a target's children under a new name.
 */
module DistCompiler {
  import opened Wrappers
  import opened Naming
  import opened Dsl
  import Engine

  /** `routeLookup`: each declared `fullName` mapped to its callback (`None` for `undefined`). */
  type Table = map<string, Option<seq<Stmt>>>

  /** The registrations a run makes, in order, and the side table it leaves. */
  datatype Run = Run(regs: seq<RouteRecord>, table: Table)

  function FullNames(rs: seq<RouteRecord>): set<string> {
    set k | 0 <= k < |rs| :: rs[k].fullName
  }

  /**
   * `out` was produced from table `t`: exactly the registered names were
   * written, and every other entry of `t` is unchanged.
   */
  predicate Extends(t: Table, out: Run) {
    && out.table.Keys == t.Keys + FullNames(out.regs)
    && forall k :: k in t && k !in FullNames(out.regs) ==> out.table[k] == t[k]
  }

  /** `routeLookup[key]` read as a callback: an absent key is `undefined`. */
  function TargetCallback(t: Table, key: string): Option<seq<Stmt>> {
    if key in t then t[key] else None
  }

  /** The arguments `alias` passes on to `route`: `{path}` and the target's callback, if truthy. */
  function AliasArgs(path: Option<string>, callback: Option<seq<Stmt>>): seq<Value> {
    match callback
    case None => [Options(path)]
    case Some(body) => [Options(path), Callback(body)]
  }

  /**
   * Registrations made by running `ss` with `parent` as `this.parentRoute`
   * and side table `t`. `fuel` bounds how deeply alias expansions nest.
   */
  function RunSeq(ss: seq<Stmt>, parent: Option<RouteRecord>, t: Table, fuel: nat): (r: Result<Run, JsError>)
    ensures r.Err? ==> r.error != AliasNotAFunction
    decreases fuel, ss
  {
    if |ss| == 0 then Ok(Run([], t))
    else
      match RunStmt(ss[0], parent, t, fuel)
      case Err(e) => Err(e)
      case Ok(head) =>
        match RunSeq(ss[1..], parent, head.table, fuel)
        case Err(e) => Err(e)
        case Ok(tail) => Ok(Run(head.regs + tail.regs, tail.table))
  }

  /** Registrations made by one call of the declaration language. */
  function RunStmt(s: Stmt, parent: Option<RouteRecord>, t: Table, fuel: nat): (r: Result<Run, JsError>)
    ensures r.Err? ==> r.error != AliasNotAFunction
    decreases fuel, s
  {
    match s
    case Route(name, args) => RunRoute(name, args, parent, t, fuel)
    case Alias(name, path, target) =>
      if fuel == 0 then Err(FuelExhausted)
      else
        var callback := TargetCallback(t, QualifiedName(parent, target));
        RunRoute(name, AliasArgs(path, callback), parent, t, fuel - 1)
  }

  /**
   * Registrations made by `this.route(name, ...args)`: its record is
   * registered and entered in the side table before its callback runs.
   */
  function RunRoute(name: string, args: seq<Value>, parent: Option<RouteRecord>, t: Table, fuel: nat): (r: Result<Run, JsError>)
    ensures r.Err? ==> r.error != AliasNotAFunction
    decreases fuel, args
  {
    match Shape(args)
    case Err(e) => Err(e)
    case Ok(decl) =>
      var rec := MakeRecord(parent, name, Segment(name, decl.path));
      var t1 := t[rec.fullName := decl.callback];
      match decl.callback
      case None => Ok(Run([rec], t1))
      case Some(body) =>
        match RunSeq(body, Some(rec), t1, fuel)
        case Err(e) => Err(e)
        case Ok(children) => Ok(Run([rec] + children.regs, children.table))
  }

  /**
   * What every run keeps: only the registered names are written to the side
   * table, everything registered lies inside the parent's subtree, and every
   * record is well formed.
   */
  predicate Invariant(t: Table, parent: Option<RouteRecord>, out: Run) {
    && Extends(t, out)
    && (parent.Some? ==> AllBelow(out.regs, parent.value))
    && (Admissible(parent) ==> AllWellFormed(out.regs))
  }

  lemma {:induction false} SeqInvariant(ss: seq<Stmt>, parent: Option<RouteRecord>, t: Table, fuel: nat)
    ensures RunSeq(ss, parent, t, fuel).Ok? ==> Invariant(t, parent, RunSeq(ss, parent, t, fuel).value)
    decreases fuel, ss
  {
    if |ss| == 0 {
      assert FullNames([]) == {};
    } else {
      match RunStmt(ss[0], parent, t, fuel)
      case Err(_) =>
      case Ok(head) =>
        StmtInvariant(ss[0], parent, t, fuel);
        match RunSeq(ss[1..], parent, head.table, fuel)
        case Err(_) =>
        case Ok(tail) =>
          SeqInvariant(ss[1..], parent, head.table, fuel);
          ExtendsCompose(t, head, tail);
          FacetsConcat(head.regs, tail.regs, parent);
    }
  }

  lemma {:induction false} StmtInvariant(s: Stmt, parent: Option<RouteRecord>, t: Table, fuel: nat)
    ensures RunStmt(s, parent, t, fuel).Ok? ==> Invariant(t, parent, RunStmt(s, parent, t, fuel).value)
    decreases fuel, s
  {
    match s
    case Route(name, args) =>
      RouteInvariant(name, args, parent, t, fuel);
    case Alias(name, path, target) =>
      if fuel > 0 {
        RouteInvariant(name, AliasArgs(path, TargetCallback(t, QualifiedName(parent, target))), parent, t, fuel - 1);
      }
  }

  /**
   * A `route` call registers its own record first, then only records inside
   * its subtree, and its side-table entry, written before its callback runs,
   * still holds that callback afterwards.
   */
  lemma {:induction false} RouteInvariant(name: string, args: seq<Value>, parent: Option<RouteRecord>, t: Table, fuel: nat)
    ensures var r := RunRoute(name, args, parent, t, fuel);
            r.Ok? ==> && Invariant(t, parent, r.value)
                      && Shape(args).Ok?
                      && OwnBlock(r.value, MakeRecord(parent, name, Segment(name, Shape(args).value.path)), Shape(args).value.callback)
    decreases fuel, args
  {
    match Shape(args)
    case Err(_) =>
    case Ok(decl) =>
      var rec := MakeRecord(parent, name, Segment(name, decl.path));
      var t1 := t[rec.fullName := decl.callback];
      match decl.callback
      case None =>
        assert FullNames([]) == {};
        RouteOutcome(rec, parent, t, decl.callback, Run([], t1));
        assert [rec] + [] == [rec];
      case Some(body) =>
        match RunSeq(body, Some(rec), t1, fuel)
        case Err(_) =>
        case Ok(children) =>
          SeqInvariant(body, Some(rec), t1, fuel);
          RouteOutcome(rec, parent, t, decl.callback, children);
  }

  /**
   * `out` starts with `rec`, registers nothing outside `rec`'s subtree after
   * it, and leaves `rec`'s callback in the side table.
   */
  predicate OwnBlock(out: Run, rec: RouteRecord, callback: Option<seq<Stmt>>) {
    && |out.regs| >= 1
    && out.regs[0] == rec
    && AllBelow(out.regs[1..], rec)
    && rec.fullName in out.table
    && out.table[rec.fullName] == callback
  }

  /** What a `route` call's registrations and table satisfy, given its callback's run. */
  lemma RouteOutcome(rec: RouteRecord, parent: Option<RouteRecord>, t: Table, callback: Option<seq<Stmt>>, children: Run)
    requires ChildOf(rec, parent) && StartsWithSlash(rec.path)
    requires Extends(t[rec.fullName := callback], children)
    requires AllBelow(children.regs, rec)
    requires Admissible(Some(rec)) ==> AllWellFormed(children.regs)
    ensures Extends(t, Run([rec] + children.regs, children.table))
    ensures parent.Some? ==> AllBelow([rec] + children.regs, parent.value)
    ensures Admissible(parent) ==> AllWellFormed([rec] + children.regs)
    ensures OwnBlock(Run([rec] + children.regs, children.table), rec, callback)
  {
    BlockUnderParent(rec, children.regs, parent);
    OwnEntryKept(rec, t, callback, children);
  }

  lemma FullNamesConcat(a: seq<RouteRecord>, b: seq<RouteRecord>)
    ensures FullNames(a + b) == FullNames(a) + FullNames(b)
  {
    var ab := a + b;
    forall n | n in FullNames(ab)
      ensures n in FullNames(a) + FullNames(b)
    {
      var k :| 0 <= k < |ab| && ab[k].fullName == n;
      if k < |a| {
        assert ab[k] == a[k];
      } else {
        assert ab[k] == b[k - |a|];
      }
    }
    forall n | n in FullNames(a) + FullNames(b)
      ensures n in FullNames(ab)
    {
      if n in FullNames(a) {
        var k :| 0 <= k < |a| && a[k].fullName == n;
        assert ab[k] == a[k];
      } else {
        var k :| 0 <= k < |b| && b[k].fullName == n;
        assert ab[k + |a|] == b[k];
      }
    }
  }

  lemma FullNamesSingle(rec: RouteRecord)
    ensures FullNames([rec]) == {rec.fullName}
  {
    assert [rec][0] == rec;
    assert rec.fullName in FullNames([rec]);
  }

  lemma ExtendsCompose(t: Table, head: Run, tail: Run)
    requires Extends(t, head) && Extends(head.table, tail)
    ensures Extends(t, Run(head.regs + tail.regs, tail.table))
  {
    FullNamesConcat(head.regs, tail.regs);
  }

  /** Below-ness and well-formedness of two runs carry over to their concatenation. */
  lemma FacetsConcat(a: seq<RouteRecord>, b: seq<RouteRecord>, parent: Option<RouteRecord>)
    ensures parent.Some? && AllBelow(a, parent.value) && AllBelow(b, parent.value) ==> AllBelow(a + b, parent.value)
    ensures AllWellFormed(a) && AllWellFormed(b) ==> AllWellFormed(a + b)
  {
    assert forall k :: |a| <= k < |a + b| ==> (a + b)[k] == b[k - |a|];
  }

  /** Registrations inside a record's subtree never name the record itself. */
  lemma BelowNamesDiffer(rs: seq<RouteRecord>, q: RouteRecord)
    requires AllBelow(rs, q)
    ensures q.fullName !in FullNames(rs)
  {
    forall k | 0 <= k < |rs|
      ensures rs[k].fullName != q.fullName
    {
      BelowLonger(rs[k], q);
    }
  }

  /** The route's own side-table entry, written before its callback runs, survives the callback. */
  lemma OwnEntryKept(rec: RouteRecord, t: Table, callback: Option<seq<Stmt>>, children: Run)
    requires Extends(t[rec.fullName := callback], children)
    requires AllBelow(children.regs, rec)
    ensures Extends(t, Run([rec] + children.regs, children.table))
    ensures OwnBlock(Run([rec] + children.regs, children.table), rec, callback)
  {
    assert ([rec] + children.regs)[1..] == children.regs;
    BelowNamesDiffer(children.regs, rec);
    FullNamesConcat([rec], children.regs);
    FullNamesSingle(rec);
  }

  /** The root invocation: the route map runs with no parent route and an empty side table. */
  function RoutesLoader(routeMap: seq<Stmt>, fuel: nat): (r: Result<seq<Engine.Registration>, JsError>)
    ensures routeMap == [] ==> r == Ok([])
    ensures r.Ok? ==> forall k :: 0 <= k < |r.value| ==>
              r.value[k].path == r.value[k].handler.fullPath && StartsWithSlash(r.value[k].path)
  {
    match RunSeq(routeMap, None, map[], fuel)
    case Err(e) => Err(e)
    case Ok(run) =>
      SeqInvariant(routeMap, None, map[], fuel);
      Ok(Engine.Registrations(run.regs))
  }

  /**
   * Running the calls `b` after an outcome `first`: `b` sees the table
   * `first` left, and `first`'s registrations are kept unchanged as a prefix.
   */
  function Then(first: Result<Run, JsError>, b: seq<Stmt>, parent: Option<RouteRecord>, fuel: nat): Result<Run, JsError> {
    match first
    case Err(e) => Err(e)
    case Ok(done) =>
      match RunSeq(b, parent, done.table, fuel)
      case Err(e) => Err(e)
      case Ok(next) => Ok(Run(done.regs + next.regs, next.table))
  }

  /**
   * Running two call sequences is running the first and then the second:
   * later calls, aliases included, only append registrations.
   */
  lemma {:induction false} RunConcat(a: seq<Stmt>, b: seq<Stmt>, parent: Option<RouteRecord>, t: Table, fuel: nat)
    ensures RunSeq(a + b, parent, t, fuel) == Then(RunSeq(a, parent, t, fuel), b, parent, fuel)
    decreases a
  {
    var ab := a + b;
    if |a| == 0 {
      assert ab == b;
      if RunSeq(b, parent, t, fuel).Ok? {
        assert [] + RunSeq(b, parent, t, fuel).value.regs == RunSeq(b, parent, t, fuel).value.regs;
      }
    } else {
      assert ab[0] == a[0];
      assert ab[1..] == a[1..] + b;
      var h := RunStmt(a[0], parent, t, fuel);
      if h.Ok? {
        RunConcat(a[1..], b, parent, h.value.table, fuel);
        var rest := RunSeq(a[1..], parent, h.value.table, fuel);
        if rest.Ok? {
          var second := RunSeq(b, parent, rest.value.table, fuel);
          if second.Ok? {
            assert h.value.regs + (rest.value.regs + second.value.regs)
                == (h.value.regs + rest.value.regs) + second.value.regs;
          }
        }
      }
    }
  }

  /**
   * An `alias` call always registers exactly one record for itself first,
   * named after the alias and placed at the alias path (falling back to the
   * alias name); its side-table entry holds the target's callback. When the
   * target is unknown or has no callback, that record is all it registers.
   */
  lemma AliasDeclaresItself(name: string, path: Option<string>, target: string, parent: Option<RouteRecord>, t: Table, fuel: nat)
    requires fuel > 0
    ensures var r := RunStmt(Alias(name, path, target), parent, t, fuel);
            var own := MakeRecord(parent, name, Segment(name, path));
            r.Ok? ==> OwnBlock(r.value, own, TargetCallback(t, QualifiedName(parent, target)))
    ensures var own := MakeRecord(parent, name, Segment(name, path));
            TargetCallback(t, QualifiedName(parent, target)).None? ==>
              RunStmt(Alias(name, path, target), parent, t, fuel) == Ok(Run([own], t[own.fullName := None]))
  {
    var callback := TargetCallback(t, QualifiedName(parent, target));
    assert Shape(AliasArgs(path, callback)) == Ok(Decl(path, callback));
    RouteInvariant(name, AliasArgs(path, callback), parent, t, fuel - 1);
  }

  /**
   * When the target has a callback, the alias re-runs it with the alias's
   * own record as parent, so the re-declared children are named and placed
   * under the alias, not under the target.
   */
  lemma AliasReDeclares(name: string, path: Option<string>, target: string, parent: Option<RouteRecord>, t: Table, fuel: nat, body: seq<Stmt>)
    requires fuel > 0
    requires TargetCallback(t, QualifiedName(parent, target)) == Some(body)
    ensures var own := MakeRecord(parent, name, Segment(name, path));
            RunStmt(Alias(name, path, target), parent, t, fuel)
              == match RunSeq(body, Some(own), t[own.fullName := Some(body)], fuel - 1)
                 case Err(e) => Err(e)
                 case Ok(children) => Ok(Run([own] + children.regs, children.table))
    ensures RunStmt(Alias(name, path, target), parent, t, fuel).Ok? ==>
              var regs := RunStmt(Alias(name, path, target), parent, t, fuel).value.regs;
              forall k :: 1 <= k < |regs| ==>
                StartsWith(regs[k].fullName, QualifiedName(parent, name) + ".")
                && StartsWith(regs[k].fullPath, PathPrefix(parent) + Segment(name, path) + "/")
  {
    assert Shape(AliasArgs(path, Some(body))) == Ok(Decl(path, Some(body)));
    RouteInvariant(name, AliasArgs(path, Some(body)), parent, t, fuel - 1);
    var r := RunStmt(Alias(name, path, target), parent, t, fuel);
    if r.Ok? {
      var regs := r.value.regs;
      assert AllBelow(regs[1..], regs[0]);
      forall k | 1 <= k < |regs|
        ensures StartsWith(regs[k].fullName, QualifiedName(parent, name) + ".")
        ensures StartsWith(regs[k].fullPath, PathPrefix(parent) + Segment(name, path) + "/")
      {
        assert regs[1..][k - 1] == regs[k];
      }
    }
  }

  /**
   * `alias` behaves as the `route` call it forwards to: the alias name, the
   * `{path}` options and the callback found for the target.
   */
  lemma AliasIsRouteCall(name: string, path: Option<string>, target: string, parent: Option<RouteRecord>, t: Table, fuel: nat)
    ensures RunStmt(Alias(name, path, target), parent, t, fuel + 1)
         == RunStmt(Route(name, AliasArgs(path, TargetCallback(t, QualifiedName(parent, target)))), parent, t, fuel)
  {
  }

  /**
   * An alias sees only what was declared before it: if no earlier
   * registration carries the target's full name, the alias registers only
   * itself, after everything earlier.
   */
  lemma AliasSeesOnlyEarlier(ss: seq<Stmt>, name: string, path: Option<string>, target: string, parent: Option<RouteRecord>, t: Table, fuel: nat)
    requires fuel > 0
    requires RunSeq(ss, parent, t, fuel).Ok?
    requires QualifiedName(parent, target) !in t
    requires QualifiedName(parent, target) !in FullNames(RunSeq(ss, parent, t, fuel).value.regs)
    ensures var before := RunSeq(ss, parent, t, fuel).value;
            var own := MakeRecord(parent, name, Segment(name, path));
            RunSeq(ss + [Alias(name, path, target)], parent, t, fuel)
              == Ok(Run(before.regs + [own], before.table[own.fullName := None]))
  {
    var before := RunSeq(ss, parent, t, fuel).value;
    var own := MakeRecord(parent, name, Segment(name, path));
    var alias := [Alias(name, path, target)];
    RunConcat(ss, alias, parent, t, fuel);
    SeqInvariant(ss, parent, t, fuel);
    assert QualifiedName(parent, target) !in before.table;
    AliasDeclaresItself(name, path, target, parent, before.table, fuel);
    assert RunStmt(alias[0], parent, before.table, fuel) == Ok(Run([own], before.table[own.fullName := None]));
    assert RunSeq(alias[1..], parent, before.table[own.fullName := None], fuel) == Ok(Run([], before.table[own.fullName := None]));
    assert [own] + [] == [own];
  }

  /**
   * Whatever calls ran before (earlier declarations of the same name
   * included), the side-table entry of a `route` call's full name holds that
   * last call's callback.
   */
  lemma LaterDeclarationWins(ss: seq<Stmt>, name: string, second: seq<Value>, parent: Option<RouteRecord>, t: Table, fuel: nat)
    ensures var r := RunSeq(ss + [Route(name, second)], parent, t, fuel);
            r.Ok? ==> && Shape(second).Ok?
                      && QualifiedName(parent, name) in r.value.table
                      && r.value.table[QualifiedName(parent, name)] == Shape(second).value.callback
  {
    var s2 := Route(name, second);
    var r := RunSeq(ss + [s2], parent, t, fuel);
    RunConcat(ss, [s2], parent, t, fuel);
    if r.Ok? {
      var before := RunSeq(ss, parent, t, fuel);
      assert before.Ok?;
      var tail := RunSeq([s2], parent, before.value.table, fuel);
      assert tail.Ok? && r.value.table == tail.value.table;
      var last := RunRoute(name, second, parent, before.value.table, fuel);
      assert [s2][0] == s2 && [s2][1..] == [];
      assert RunStmt(s2, parent, before.value.table, fuel) == last;
      assert last.Ok?;
      assert RunSeq([s2][1..], parent, last.value.table, fuel) == Ok(Run([], last.value.table));
      assert tail.value.table == last.value.table;
      RouteInvariant(name, second, parent, before.value.table, fuel);
    }
  }

  /**
   * An alias finds a target declared before it: after `route(target, ...)`
   * with a callback, `alias(name, path, target)` registers its own record
   * and re-runs that callback below it, after everything earlier.
   */
  lemma AliasFindsTarget(ss: seq<Stmt>, target: string, args: seq<Value>, name: string, path: Option<string>,
                         parent: Option<RouteRecord>, t: Table, fuel: nat, body: seq<Stmt>)
    requires Shape(args).Ok? && Shape(args).value.callback == Some(body)
    ensures var pre := ss + [Route(target, args)];
            var before := RunSeq(pre, parent, t, fuel);
            var own := MakeRecord(parent, name, Segment(name, path));
            before.Ok? ==>
              RunSeq(pre + [Alias(name, path, target)], parent, t, fuel)
                == if fuel == 0 then Err(FuelExhausted)
                   else match RunSeq(body, Some(own), before.value.table[own.fullName := Some(body)], fuel - 1)
                        case Err(e) => Err(e)
                        case Ok(children) => Ok(Run(before.value.regs + [own] + children.regs, children.table))
  {
    var pre := ss + [Route(target, args)];
    var a := Alias(name, path, target);
    var before := RunSeq(pre, parent, t, fuel);
    if before.Ok? {
      TargetFound(ss, target, args, parent, t, fuel, body);
      RunConcat(pre, [a], parent, t, fuel);
      SingleRun(a, parent, before.value.table, fuel);
      if fuel > 0 {
        AliasStep(name, path, target, parent, before.value.table, fuel, body);
        var own := MakeRecord(parent, name, Segment(name, path));
        match RunSeq(body, Some(own), before.value.table[own.fullName := Some(body)], fuel - 1)
        case Err(_) =>
        case Ok(children) =>
          assert before.value.regs + ([own] + children.regs) == before.value.regs + [own] + children.regs;
      }
    }
  }

  /** After `route(target, ...)` with a callback, the side table maps the target's full name to it. */
  lemma TargetFound(ss: seq<Stmt>, target: string, args: seq<Value>, parent: Option<RouteRecord>, t: Table, fuel: nat, body: seq<Stmt>)
    requires Shape(args).Ok? && Shape(args).value.callback == Some(body)
    ensures var before := RunSeq(ss + [Route(target, args)], parent, t, fuel);
            before.Ok? ==> TargetCallback(before.value.table, QualifiedName(parent, target)) == Some(body)
  {
    LaterDeclarationWins(ss, target, args, parent, t, fuel);
  }

  /** One step of `RunStmt` for an alias whose target has a callback. */
  lemma AliasStep(name: string, path: Option<string>, target: string, parent: Option<RouteRecord>, t: Table, fuel: nat, body: seq<Stmt>)
    requires fuel > 0
    requires TargetCallback(t, QualifiedName(parent, target)) == Some(body)
    ensures var own := MakeRecord(parent, name, Segment(name, path));
            RunStmt(Alias(name, path, target), parent, t, fuel)
              == match RunSeq(body, Some(own), t[own.fullName := Some(body)], fuel - 1)
                 case Err(e) => Err(e)
                 case Ok(children) => Ok(Run([own] + children.regs, children.table))
  {
    assert Shape(AliasArgs(path, Some(body))) == Ok(Decl(path, Some(body)));
  }

  /** A one-call sequence registers what its call registers. */
  lemma SingleRun(s: Stmt, parent: Option<RouteRecord>, t: Table, fuel: nat)
    ensures RunSeq([s], parent, t, fuel) == RunStmt(s, parent, t, fuel)
  {
    assert [s][0] == s && [s][1..] == [];
    if RunStmt(s, parent, t, fuel).Ok? {
      var head := RunStmt(s, parent, t, fuel).value;
      assert RunSeq([], parent, head.table, fuel) == Ok(Run([], head.table));
      assert head.regs + [] == head.regs;
    }
  }

  /**
   * Fuel only bounds alias expansion: a run that did not exhaust its fuel
   * gives the same outcome with any larger fuel.
   */
  lemma {:induction false} FuelMonotone(ss: seq<Stmt>, parent: Option<RouteRecord>, t: Table, fuel: nat, more: nat)
    requires fuel <= more
    requires RunSeq(ss, parent, t, fuel) != Err(FuelExhausted)
    ensures RunSeq(ss, parent, t, more) == RunSeq(ss, parent, t, fuel)
    decreases fuel, ss
  {
    if |ss| > 0 {
      FuelMonotoneStmt(ss[0], parent, t, fuel, more);
      match RunStmt(ss[0], parent, t, fuel)
      case Err(_) =>
      case Ok(head) =>
        FuelMonotone(ss[1..], parent, head.table, fuel, more);
    }
  }

  lemma {:induction false} FuelMonotoneStmt(s: Stmt, parent: Option<RouteRecord>, t: Table, fuel: nat, more: nat)
    requires fuel <= more
    requires RunStmt(s, parent, t, fuel) != Err(FuelExhausted)
    ensures RunStmt(s, parent, t, more) == RunStmt(s, parent, t, fuel)
    decreases fuel, s
  {
    match s
    case Route(name, args) =>
      FuelMonotoneRoute(name, args, parent, t, fuel, more);
    case Alias(name, path, target) =>
      assert fuel > 0;
      var args := AliasArgs(path, TargetCallback(t, QualifiedName(parent, target)));
      assert RunStmt(s, parent, t, fuel) == RunRoute(name, args, parent, t, fuel - 1);
      assert RunStmt(s, parent, t, more) == RunRoute(name, args, parent, t, more - 1);
      FuelMonotoneRoute(name, args, parent, t, fuel - 1, more - 1);
  }

  lemma {:induction false} FuelMonotoneRoute(name: string, args: seq<Value>, parent: Option<RouteRecord>, t: Table, fuel: nat, more: nat)
    requires fuel <= more
    requires RunRoute(name, args, parent, t, fuel) != Err(FuelExhausted)
    ensures RunRoute(name, args, parent, t, more) == RunRoute(name, args, parent, t, fuel)
    decreases fuel, args
  {
    match Shape(args)
    case Err(_) =>
    case Ok(decl) =>
      var rec := MakeRecord(parent, name, Segment(name, decl.path));
      match decl.callback
      case None =>
      case Some(body) =>
        FuelMonotone(body, Some(rec), t[rec.fullName := decl.callback], fuel, more);
  }

  /**
   * Registration is depth-first and pre-order, aliases included: every
   * record is registered after the record it was declared under.
   */
  lemma {:induction false} ParentsRegisteredFirst(ss: seq<Stmt>, parent: Option<RouteRecord>, t: Table, fuel: nat)
    ensures RunSeq(ss, parent, t, fuel).Ok? ==> ParentsFirst(RunSeq(ss, parent, t, fuel).value.regs, parent)
    decreases fuel, ss
  {
    if |ss| > 0 {
      match RunStmt(ss[0], parent, t, fuel)
      case Err(_) =>
      case Ok(head) =>
        ParentsRegisteredFirstStmt(ss[0], parent, t, fuel);
        ParentsRegisteredFirst(ss[1..], parent, head.table, fuel);
        if RunSeq(ss, parent, t, fuel).Ok? {
          ParentsFirstConcat(head.regs, RunSeq(ss[1..], parent, head.table, fuel).value.regs, parent);
        }
    }
  }

  lemma {:induction false} ParentsRegisteredFirstStmt(s: Stmt, parent: Option<RouteRecord>, t: Table, fuel: nat)
    ensures RunStmt(s, parent, t, fuel).Ok? ==> ParentsFirst(RunStmt(s, parent, t, fuel).value.regs, parent)
    decreases fuel, s
  {
    match s
    case Route(name, args) =>
      assert RunStmt(s, parent, t, fuel) == RunRoute(name, args, parent, t, fuel);
      ParentsRegisteredFirstRoute(name, args, parent, t, fuel);
    case Alias(name, path, target) =>
      if fuel > 0 {
        var args := AliasArgs(path, TargetCallback(t, QualifiedName(parent, target)));
        assert RunStmt(s, parent, t, fuel) == RunRoute(name, args, parent, t, fuel - 1);
        ParentsRegisteredFirstRoute(name, args, parent, t, fuel - 1);
      }
  }

  lemma {:induction false} ParentsRegisteredFirstRoute(name: string, args: seq<Value>, parent: Option<RouteRecord>, t: Table, fuel: nat)
    ensures RunRoute(name, args, parent, t, fuel).Ok? ==> ParentsFirst(RunRoute(name, args, parent, t, fuel).value.regs, parent)
    decreases fuel, args
  {
    var r := RunRoute(name, args, parent, t, fuel);
    if r.Ok? {
      var decl := Shape(args).value;
      var rec := MakeRecord(parent, name, Segment(name, decl.path));
      match decl.callback
      case None =>
        assert r.value.regs == [rec];
      case Some(body) =>
        var t1 := t[rec.fullName := decl.callback];
        ParentsRegisteredFirst(body, Some(rec), t1, fuel);
        ParentsFirstCons(rec, RunSeq(body, Some(rec), t1, fuel).value.regs, parent);
    }
  }
}
