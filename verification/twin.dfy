/**
 * The two compilers agree: on declarations that make no `alias` call, the
 * dist compiler registers exactly what the lib compiler registers, fails
 * exactly when it fails, and never runs out of fuel, whatever its side
 * table holds.
 */
module Twin {
  import opened Wrappers
  import opened Naming
  import opened Dsl
  import LibCompiler
  import DistCompiler

  /** The registrations of a dist run, forgetting its side table. */
  function Registered(r: Result<DistCompiler.Run, JsError>): Result<seq<RouteRecord>, JsError> {
    match r
    case Ok(run) => Ok(run.regs)
    case Err(e) => Err(e)
  }

  lemma {:induction false} AgreeSeq(ss: seq<Stmt>, parent: Option<RouteRecord>, t: DistCompiler.Table, fuel: nat)
    requires AliasFree(ss)
    ensures Registered(DistCompiler.RunSeq(ss, parent, t, fuel)) == LibCompiler.CompileSeq(ss, parent)
    decreases ss
  {
    if |ss| > 0 {
      AgreeStmt(ss[0], parent, t, fuel);
      match DistCompiler.RunStmt(ss[0], parent, t, fuel)
      case Err(_) =>
      case Ok(head) =>
        AgreeSeq(ss[1..], parent, head.table, fuel);
    }
  }

  lemma {:induction false} AgreeStmt(s: Stmt, parent: Option<RouteRecord>, t: DistCompiler.Table, fuel: nat)
    requires StmtAliasFree(s)
    ensures Registered(DistCompiler.RunStmt(s, parent, t, fuel)) == LibCompiler.CompileStmt(s, parent)
    decreases s
  {
    AgreeRoute(s.name, s.args, parent, t, fuel);
  }

  lemma {:induction false} AgreeRoute(name: string, args: seq<Value>, parent: Option<RouteRecord>, t: DistCompiler.Table, fuel: nat)
    requires StmtAliasFree(Route(name, args))
    ensures Registered(DistCompiler.RunRoute(name, args, parent, t, fuel)) == LibCompiler.CompileRoute(name, args, parent)
    decreases args
  {
    match Shape(args)
    case Err(_) =>
    case Ok(decl) =>
      var rec := MakeRecord(parent, name, Segment(name, decl.path));
      match decl.callback
      case None =>
      case Some(body) =>
        AgreeSeq(body, Some(rec), t[rec.fullName := decl.callback], fuel);
  }

  /** The entry points agree on alias-free route maps, for any fuel. */
  lemma LoadersAgree(routeMap: seq<Stmt>, fuel: nat)
    requires AliasFree(routeMap)
    ensures DistCompiler.RoutesLoader(routeMap, fuel) == LibCompiler.RoutesLoader(routeMap)
    ensures DistCompiler.RoutesLoader(routeMap, fuel) != Err(FuelExhausted)
  {
    AgreeSeq(routeMap, None, map[], fuel);
  }

  /** On alias-free declarations the dist compiler, too, succeeds exactly on well-shaped input. */
  lemma DistSucceeds(ss: seq<Stmt>, parent: Option<RouteRecord>, t: DistCompiler.Table, fuel: nat)
    ensures AliasFree(ss) ==> (DistCompiler.RunSeq(ss, parent, t, fuel).Ok? <==> WellShaped(ss))
  {
    if AliasFree(ss) {
      AgreeSeq(ss, parent, t, fuel);
      LibCompiler.LibSucceeds(ss, parent);
    }
  }
}
