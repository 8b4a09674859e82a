/**
 * A worked alias: `target` with one child is declared, then aliased as
 * `copy` at path `copied`. The target keeps its registrations and the alias
 * adds its own record and a fresh copy of the child below it.
 */
module AliasExample {
  import opened Wrappers
  import opened Naming
  import opened Dsl
  import opened DistCompiler

  function Kids(): seq<Stmt> { [Route("child", [])] }

  function TargetRec(): RouteRecord { RouteRecord("target", "target", "/target", "/target") }
  function TargetChild(): RouteRecord { RouteRecord("child", "target.child", "/child", "/target/child") }
  function CopyRec(): RouteRecord { RouteRecord("copy", "copy", "/copied", "/copied") }
  function CopyChild(): RouteRecord { RouteRecord("child", "copy.child", "/child", "/copied/child") }

  lemma ChildUnder(rec: RouteRecord, t: Table, fuel: nat)
    ensures RunSeq(Kids(), Some(rec), t, fuel)
         == Ok(Run([MakeRecord(Some(rec), "child", "/child")], t[rec.fullName + ".child" := None]))
  {
    var child := MakeRecord(Some(rec), "child", "/child");
    assert Shape([]) == Ok(Decl(None, None));
    assert Segment("child", None) == "/child";
    assert rec.fullName + "." + "child" == rec.fullName + ".child";
    assert RunRoute("child", [], Some(rec), t, fuel) == Ok(Run([child], t[rec.fullName + ".child" := None]));
    assert Kids()[0] == Route("child", []) && Kids()[1..] == [];
    assert RunSeq(Kids()[1..], Some(rec), t[rec.fullName + ".child" := None], fuel)
        == Ok(Run([], t[rec.fullName + ".child" := None]));
    assert [child] + [] == [child];
  }

  /** One step of `RunRoute` for a declaration with a callback. */
  lemma RouteWithCallback(name: string, args: seq<Value>, parent: Option<RouteRecord>, t: Table, fuel: nat,
                          path: Option<string>, body: seq<Stmt>, rec: RouteRecord)
    requires Shape(args) == Ok(Decl(path, Some(body)))
    requires rec == MakeRecord(parent, name, Segment(name, path))
    ensures RunRoute(name, args, parent, t, fuel)
         == match RunSeq(body, Some(rec), t[rec.fullName := Some(body)], fuel)
            case Err(e) => Err(e)
            case Ok(children) => Ok(Run([rec] + children.regs, children.table))
  {
  }

  lemma TargetDeclared(fuel: nat)
    ensures RunStmt(Route("target", [Callback(Kids())]), None, map[], fuel)
         == Ok(Run([TargetRec(), TargetChild()], map["target" := Some(Kids()), "target.child" := None]))
  {
    TwoArgumentCallback(Kids());
    TargetRecord();
    TargetChildRecord();
    RouteWithCallback("target", [Callback(Kids())], None, map[], fuel, None, Kids(), TargetRec());
    var t1 := map["target" := Some(Kids())];
    assert map[][TargetRec().fullName := Some(Kids())] == t1;
    ChildUnder(TargetRec(), t1, fuel);
    assert t1["target.child" := None] == map["target" := Some(Kids()), "target.child" := None];
    assert [TargetRec()] + [TargetChild()] == [TargetRec(), TargetChild()];
  }

  lemma TargetRecord()
    ensures MakeRecord(None, "target", Segment("target", None)) == TargetRec()
  {
    assert Segment("target", None) == "/target";
  }

  lemma TargetChildRecord()
    ensures MakeRecord(Some(TargetRec()), "child", "/child") == TargetChild()
    ensures TargetRec().fullName + ".child" == "target.child"
  {
    assert "target" + "." + "child" == "target.child";
    assert "/target" + "/child" == "/target/child";
  }

  lemma CopyDeclared(t: Table)
    requires t == map["target" := Some(Kids()), "target.child" := None]
    ensures RunStmt(Alias("copy", Some("copied"), "target"), None, t, 1)
         == Ok(Run([CopyRec(), CopyChild()], t["copy" := Some(Kids())]["copy.child" := None]))
  {
    assert TargetCallback(t, QualifiedName(None, "target")) == Some(Kids());
    var args := AliasArgs(Some("copied"), Some(Kids()));
    assert RunStmt(Alias("copy", Some("copied"), "target"), None, t, 1) == RunRoute("copy", args, None, t, 0);
    assert Shape(args) == Ok(Decl(Some("copied"), Some(Kids())));
    CopyRecord();
    CopyChildRecord();
    RouteWithCallback("copy", args, None, t, 0, Some("copied"), Kids(), CopyRec());
    ChildUnder(CopyRec(), t["copy" := Some(Kids())], 0);
    assert [CopyRec()] + [CopyChild()] == [CopyRec(), CopyChild()];
  }

  lemma CopyRecord()
    ensures MakeRecord(None, "copy", Segment("copy", Some("copied"))) == CopyRec()
  {
    assert Segment("copy", Some("copied")) == "/copied";
  }

  lemma CopyChildRecord()
    ensures MakeRecord(Some(CopyRec()), "child", "/child") == CopyChild()
    ensures CopyRec().fullName + ".child" == "copy.child"
  {
    assert "copy" + "." + "child" == "copy.child";
    assert "/copied" + "/child" == "/copied/child";
  }

  /**
   * Aliasing adds registrations reachable by the alias's own paths and
   * leaves the target's registrations in place.
   */
  lemma AliasKeepsTarget()
    ensures var ss := [Route("target", [Callback(Kids())]), Alias("copy", Some("copied"), "target")];
            RunSeq(ss, None, map[], 1).Ok?
            && RunSeq(ss, None, map[], 1).value.regs == [TargetRec(), TargetChild(), CopyRec(), CopyChild()]
  {
    var s1 := Route("target", [Callback(Kids())]);
    var s2 := Alias("copy", Some("copied"), "target");
    var t := map["target" := Some(Kids()), "target.child" := None];
    TargetDeclared(1);
    CopyDeclared(t);
    RunConcat([s1], [s2], None, map[], 1);
    assert [s1] + [s2] == [s1, s2];
    assert [s1][1..] == [] && [s2][1..] == [];
    var t2 := t["copy" := Some(Kids())]["copy.child" := None];
    assert RunSeq([s1], None, map[], 1) == Ok(Run([TargetRec(), TargetChild()] + [], t));
    assert RunSeq([s2], None, t, 1) == Ok(Run([CopyRec(), CopyChild()] + [], t2));
  }
}
