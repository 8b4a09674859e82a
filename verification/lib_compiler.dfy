/**
 * The route-map compiler of lib/index.js: a depth-first, pre-order walk of
 * the declarations that registers one record per `route` call. Its context
 * offers no `alias`.
 */
module LibCompiler {
  import opened Wrappers
  import opened Naming
  import opened Dsl
  import Engine

  /** Registrations made by running `ss` with `parent` as `this.parentRoute`. */
  function CompileSeq(ss: seq<Stmt>, parent: Option<RouteRecord>): (r: Result<seq<RouteRecord>, JsError>)
    ensures r.Ok? ==> |r.value| == DeclaredNodes(ss)
    ensures r.Ok? && parent.Some? ==> AllBelow(r.value, parent.value)
    ensures r.Ok? && Admissible(parent) ==> AllWellFormed(r.value)
    ensures r.Ok? ==> AliasFree(ss)
    ensures AliasFree(ss) ==> r != Err(AliasNotAFunction)
    ensures r != Err(FuelExhausted)
    decreases ss
  {
    if |ss| == 0 then Ok([])
    else
      match CompileStmt(ss[0], parent)
      case Err(e) => Err(e)
      case Ok(head) =>
        match CompileSeq(ss[1..], parent)
        case Err(e) => Err(e)
        case Ok(tail) => Ok(head + tail)
  }

  /** Registrations made by one call of the declaration language. */
  function CompileStmt(s: Stmt, parent: Option<RouteRecord>): (r: Result<seq<RouteRecord>, JsError>)
    ensures r.Ok? ==> |r.value| == StmtNodes(s)
    ensures r.Ok? && parent.Some? ==> AllBelow(r.value, parent.value)
    ensures r.Ok? && Admissible(parent) ==> AllWellFormed(r.value)
    ensures r.Ok? ==> StmtAliasFree(s)
    ensures StmtAliasFree(s) ==> r != Err(AliasNotAFunction)
    ensures r != Err(FuelExhausted)
    decreases s
  {
    match s
    case Alias(_, _, _) => Err(AliasNotAFunction)
    case Route(name, args) => CompileRoute(name, args, parent)
  }

  /** Registrations made by `this.route(name, ...args)`: its own record, then its descendants'. */
  function CompileRoute(name: string, args: seq<Value>, parent: Option<RouteRecord>): (r: Result<seq<RouteRecord>, JsError>)
    ensures r.Ok? ==> |r.value| == StmtNodes(Route(name, args))
    ensures r.Ok? && parent.Some? ==> AllBelow(r.value, parent.value)
    ensures r.Ok? && Admissible(parent) ==> AllWellFormed(r.value)
    ensures r.Ok? ==> StmtAliasFree(Route(name, args))
    ensures StmtAliasFree(Route(name, args)) ==> r != Err(AliasNotAFunction)
    ensures r != Err(FuelExhausted)
    decreases args
  {
      match Shape(args)
      case Err(e) => Err(e)
      case Ok(decl) =>
        var rec := MakeRecord(parent, name, Segment(name, decl.path));
        match decl.callback
        case None =>
          BlockUnderParent(rec, [], parent);
          Ok([rec])
        case Some(body) =>
          match CompileSeq(body, Some(rec))
          case Err(e) => Err(e)
          case Ok(children) =>
            BlockUnderParent(rec, children, parent);
            Ok([rec] + children)
  }

  /** The root invocation: the route map runs with no parent route. */
  function RoutesLoader(routeMap: seq<Stmt>): (r: Result<seq<Engine.Registration>, JsError>)
    ensures routeMap == [] ==> r == Ok([])
    ensures r.Ok? ==> |r.value| == DeclaredNodes(routeMap)
    ensures r.Ok? ==> forall k :: 0 <= k < |r.value| ==>
              r.value[k].path == r.value[k].handler.fullPath && StartsWithSlash(r.value[k].path)
  {
    match CompileSeq(routeMap, None)
    case Err(e) => Err(e)
    case Ok(rs) => Ok(Engine.Registrations(rs))
  }

  /**
   * Registration is depth-first and pre-order: every record is registered
   * after the record it was declared under.
   */
  lemma {:induction false} ParentsRegisteredFirst(ss: seq<Stmt>, parent: Option<RouteRecord>)
    ensures CompileSeq(ss, parent).Ok? ==> ParentsFirst(CompileSeq(ss, parent).value, parent)
    decreases ss
  {
    if |ss| > 0 && CompileSeq(ss, parent).Ok? {
      ParentsRegisteredFirstStmt(ss[0], parent);
      ParentsRegisteredFirst(ss[1..], parent);
      ParentsFirstConcat(CompileStmt(ss[0], parent).value, CompileSeq(ss[1..], parent).value, parent);
    }
  }

  lemma {:induction false} ParentsRegisteredFirstStmt(s: Stmt, parent: Option<RouteRecord>)
    ensures CompileStmt(s, parent).Ok? ==> ParentsFirst(CompileStmt(s, parent).value, parent)
    decreases s
  {
    if s.Route? {
      ParentsRegisteredFirstRoute(s.name, s.args, parent);
    }
  }

  lemma {:induction false} ParentsRegisteredFirstRoute(name: string, args: seq<Value>, parent: Option<RouteRecord>)
    ensures CompileRoute(name, args, parent).Ok? ==> ParentsFirst(CompileRoute(name, args, parent).value, parent)
    decreases args
  {
    var r := CompileRoute(name, args, parent);
    if r.Ok? {
      var decl := Shape(args).value;
      var rec := MakeRecord(parent, name, Segment(name, decl.path));
      match decl.callback
      case None =>
        assert r.value == [rec];
      case Some(body) =>
        ParentsRegisteredFirst(body, Some(rec));
        ParentsFirstCons(rec, CompileSeq(body, Some(rec)).value, parent);
    }
  }

  /**
   * A `route` call registers its own record first and then only records
   * inside its subtree, so all of its descendants precede the next sibling.
   */
  lemma RouteBlock(name: string, args: seq<Value>, parent: Option<RouteRecord>)
    ensures CompileRoute(name, args, parent).Ok? ==>
              var rs := CompileRoute(name, args, parent).value;
              && |rs| >= 1
              && rs[0] == MakeRecord(parent, name, Segment(name, Shape(args).value.path))
              && AllBelow(rs[1..], rs[0])
  {
    var r := CompileRoute(name, args, parent);
    if r.Ok? && Shape(args).value.callback.Some? {
      assert r.value[1..] == CompileSeq(Shape(args).value.callback.value, Some(r.value[0])).value;
    }
  }

  /** The `alias` call is not offered by this compiler's context and aborts compilation. */
  lemma AliasRejected(name: string, path: Option<string>, target: string, parent: Option<RouteRecord>, rest: seq<Stmt>)
    ensures CompileSeq([Alias(name, path, target)] + rest, parent) == Err(AliasNotAFunction)
  {
    assert ([Alias(name, path, target)] + rest)[0] == Alias(name, path, target);
  }

  /**
   * Compilation raises nothing for well-formed input: it succeeds exactly
   * when no `alias` call is reached and every reached `route` call has a
   * function or nothing in its callback position.
   */
  lemma {:induction false} LibSucceeds(ss: seq<Stmt>, parent: Option<RouteRecord>)
    ensures CompileSeq(ss, parent).Ok? <==> AliasFree(ss) && WellShaped(ss)
    decreases ss
  {
    if |ss| > 0 {
      LibSucceedsStmt(ss[0], parent);
      LibSucceeds(ss[1..], parent);
    }
  }

  lemma {:induction false} LibSucceedsStmt(s: Stmt, parent: Option<RouteRecord>)
    ensures CompileStmt(s, parent).Ok? <==> StmtAliasFree(s) && StmtWellShaped(s)
    decreases s
  {
    match s
    case Alias(_, _, _) =>
    case Route(name, args) => LibSucceedsRoute(name, args, parent);
  }

  lemma {:induction false} LibSucceedsRoute(name: string, args: seq<Value>, parent: Option<RouteRecord>)
    ensures CompileRoute(name, args, parent).Ok? <==> StmtAliasFree(Route(name, args)) && StmtWellShaped(Route(name, args))
    decreases args
  {
    match Shape(args)
    case Err(_) =>
    case Ok(decl) =>
      match decl.callback
      case None =>
      case Some(body) =>
        LibSucceeds(body, Some(MakeRecord(parent, name, Segment(name, decl.path))));
  }

  /** One step of `CompileRoute` for a declaration without a callback. */
  lemma LeafStep(name: string, args: seq<Value>, parent: Option<RouteRecord>, path: Option<string>, rec: RouteRecord)
    requires Shape(args) == Ok(Decl(path, None))
    requires rec == MakeRecord(parent, name, Segment(name, path))
    ensures CompileRoute(name, args, parent) == Ok([rec])
  {
  }

  /** One step of `CompileRoute` for a declaration with a callback. */
  lemma RouteStep(name: string, args: seq<Value>, parent: Option<RouteRecord>, path: Option<string>, body: seq<Stmt>, rec: RouteRecord)
    requires Shape(args) == Ok(Decl(path, Some(body)))
    requires rec == MakeRecord(parent, name, Segment(name, path))
    ensures CompileRoute(name, args, parent)
         == match CompileSeq(body, Some(rec))
            case Err(e) => Err(e)
            case Ok(children) => Ok([rec] + children)
  {
  }

  /** A one-statement sequence registers what its statement registers. */
  lemma SingleStmt(s: Stmt, parent: Option<RouteRecord>)
    ensures CompileSeq([s], parent) == CompileStmt(s, parent)
  {
    assert [s][0] == s && [s][1..] == [];
    if CompileStmt(s, parent).Ok? {
      assert CompileStmt(s, parent).value + [] == CompileStmt(s, parent).value;
    }
  }

  function SingleRec(): RouteRecord { RouteRecord("single-route", "single-route", "/single-route", "/single-route") }
  function ParentRec(): RouteRecord { RouteRecord("parent-route", "parent-route", "/parent-route", "/parent-route") }
  function ChildRec(): RouteRecord {
    RouteRecord("child-route", "parent-route.child-route", "/:dynamic_segment", "/parent-route/:dynamic_segment")
  }
  function ChildDecl(): Stmt { Route("child-route", [Options(Some(":dynamic_segment"))]) }

  /** test/index-test.js:36-56: a single root route. */
  lemma SingleRouteExample()
    ensures RoutesLoader([Route("single-route", [])]) == Ok([Engine.Registration("/single-route", SingleRec())])
  {
    SingleRouteCompiled();
    var es := Engine.Registrations([SingleRec()]);
    assert es[0] == Engine.Registration("/single-route", SingleRec());
    assert es == [Engine.Registration("/single-route", SingleRec())];
  }

  lemma SingleRouteCompiled()
    ensures CompileSeq([Route("single-route", [])], None) == Ok([SingleRec()])
  {
    assert Shape([]) == Ok(Decl(None, None));
    SingleRecord();
    LeafStep("single-route", [], None, None, SingleRec());
    SingleStmt(Route("single-route", []), None);
  }

  /** test/index-test.js:290-313: a child route with a dynamic segment. */
  lemma DynamicChildExample()
    ensures CompileSeq([Route("parent-route", [Callback([ChildDecl()])])], None) == Ok([ParentRec(), ChildRec()])
  {
    DynamicParentRoute();
    SingleStmt(Route("parent-route", [Callback([ChildDecl()])]), None);
  }

  lemma DynamicParentRoute()
    ensures CompileRoute("parent-route", [Callback([ChildDecl()])], None) == Ok([ParentRec(), ChildRec()])
  {
    TwoArgumentCallback([ChildDecl()]);
    ParentRecord();
    RouteStep("parent-route", [Callback([ChildDecl()])], None, None, [ChildDecl()], ParentRec());
    DynamicChildUnder(ParentRec());
    assert [ParentRec()] + [ChildRec()] == [ParentRec(), ChildRec()];
  }

  lemma DynamicChildUnder(parent: RouteRecord)
    requires parent == ParentRec()
    ensures CompileSeq([ChildDecl()], Some(parent)) == Ok([ChildRec()])
  {
    DynamicChildRoute(parent);
    SingleStmt(ChildDecl(), Some(parent));
  }

  lemma DynamicChildRoute(parent: RouteRecord)
    requires parent == ParentRec()
    ensures CompileRoute("child-route", [Options(Some(":dynamic_segment"))], Some(parent)) == Ok([ChildRec()])
  {
    assert Shape([Options(Some(":dynamic_segment"))]) == Ok(Decl(Some(":dynamic_segment"), None));
    ChildRecord(parent);
    LeafStep("child-route", [Options(Some(":dynamic_segment"))], Some(parent), Some(":dynamic_segment"), ChildRec());
  }

  lemma SingleRecord()
    ensures MakeRecord(None, "single-route", Segment("single-route", None)) == SingleRec()
  {
    assert Segment("single-route", None) == "/single-route";
  }

  lemma ParentRecord()
    ensures MakeRecord(None, "parent-route", Segment("parent-route", None)) == ParentRec()
  {
    assert Segment("parent-route", None) == "/parent-route";
  }

  lemma ChildRecord(parent: RouteRecord)
    requires parent == ParentRec()
    ensures MakeRecord(Some(parent), "child-route", Segment("child-route", Some(":dynamic_segment"))) == ChildRec()
  {
    DynamicSegment();
    DottedChildName();
    DynamicChildPath();
  }

  lemma DynamicSegment()
    ensures Segment("child-route", Some(":dynamic_segment")) == "/:dynamic_segment"
  {
  }

  lemma DottedChildName()
    ensures "parent-route" + "." + "child-route" == "parent-route.child-route"
  {
  }

  lemma DynamicChildPath()
    ensures "/parent-route" + "/:dynamic_segment" == "/parent-route/:dynamic_segment"
  {
  }
}
