/**
 * The declaration language: the calls a route-map callback makes on its
 * context (`this.route(...)`, `this.alias(...)`) and how `route` reads its
 * positional arguments (lib/index.js:14-18, dist/index.js:21-28).
 */
module Dsl {
  import opened Wrappers

  /** A JavaScript value passed as the second or third argument of `route`. */
  datatype Value =
    | Undefined
      /** An options object; `path` is the only property read. */
    | Options(path: Option<string>)
      /** A nested declaration callback, given by the calls its body makes. */
    | Callback(body: seq<Stmt>)

  /** One call made by a declaration callback. */
  datatype Stmt =
      /** `this.route(name, ...args)`; `args` holds the arguments after the name. */
    | Route(name: string, args: seq<Value>)
      /** `this.alias(name, path, target)`. */
    | Alias(name: string, path: Option<string>, target: string)

  /** The exceptions that abort a compilation. */
  datatype JsError =
      /** `this.alias` called where the context has no `alias` member. */
    | AliasNotAFunction
      /** A truthy callback that is not a function: `callback.call` is undefined. */
    | CallbackNotAFunction
      /** Alias re-expansion nested deeper than the model's fuel allows. */
    | FuelExhausted

  /** What `route` takes from its arguments: the `path` option and the callback. */
  datatype Decl = Decl(path: Option<string>, callback: Option<seq<Stmt>>)

  /**
   * Argument shaping of `route`. A missing or `undefined` options argument
   * becomes `{}`; with exactly two arguments a function in the options
   * position is the callback; a function used as options has no `path`.
   */
  function Shape(args: seq<Value>): (r: Result<Decl, JsError>)
    ensures r.Err? <==> |args| >= 2 && args[1].Options?
    ensures r.Ok? && r.value.callback.Some? ==>
              (|args| >= 1 && args[0] == Callback(r.value.callback.value))
              || (|args| >= 2 && args[1] == Callback(r.value.callback.value))
    ensures r.Ok? && r.value.path.Some? ==> |args| >= 1 && args[0] == Options(r.value.path)
  {
    var options := if |args| >= 1 && !args[0].Undefined? then args[0] else Options(None);
    var callback := if |args| >= 2 then args[1] else Undefined;
    var (options, callback) :=
      if |args| == 1 && options.Callback? then (Options(None), options) else (options, callback);
    var path := if options.Options? then options.path else None;
    match callback
    case Undefined => Ok(Decl(path, None))
    case Callback(body) => Ok(Decl(path, Some(body)))
    case Options(_) => Err(CallbackNotAFunction)
  }

  /** The body `route` runs for these arguments, if any. */
  function CallbackOf(args: seq<Value>): (r: Option<seq<Stmt>>)
    ensures r.Some? ==> (|args| >= 1 && args[0] == Callback(r.value))
                        || (|args| >= 2 && args[1] == Callback(r.value))
  {
    match Shape(args)
    case Ok(d) => d.callback
    case Err(_) => None
  }

  /**
   * Number of declaration nodes written in `ss`: one per `route` or `alias`
   * call, plus the nodes of each route's callback. The children an `alias`
   * re-declares from its target are not counted.
   */
  function DeclaredNodes(ss: seq<Stmt>): nat
    decreases ss
  {
    if |ss| == 0 then 0 else StmtNodes(ss[0]) + DeclaredNodes(ss[1..])
  }

  function StmtNodes(s: Stmt): nat
    decreases s
  {
    match s
    case Alias(_, _, _) => 1
    case Route(_, args) =>
      match CallbackOf(args)
      case None => 1
      case Some(body) => 1 + DeclaredNodes(body)
  }

  /** Running `ss` makes no `alias` call. */
  predicate AliasFree(ss: seq<Stmt>)
    decreases ss
  {
    |ss| == 0 || (StmtAliasFree(ss[0]) && AliasFree(ss[1..]))
  }

  predicate StmtAliasFree(s: Stmt)
    decreases s
  {
    match s
    case Alias(_, _, _) => false
    case Route(_, args) =>
      match CallbackOf(args)
      case None => true
      case Some(body) => AliasFree(body)
  }

  /** Every `route` call reached by running `ss` gets arguments it can use: no options object as callback. */
  predicate WellShaped(ss: seq<Stmt>)
    decreases ss
  {
    |ss| == 0 || (StmtWellShaped(ss[0]) && WellShaped(ss[1..]))
  }

  predicate StmtWellShaped(s: Stmt)
    decreases s
  {
    match s
    case Alias(_, _, _) => true
    case Route(_, args) =>
      && Shape(args).Ok?
      && match CallbackOf(args)
         case None => true
         case Some(body) => WellShaped(body)
  }

  /**
   * The options object's `path` is what `route` reads, the callback is the
   * value in the callback position, and with two functions the second one
   * runs.
   */
  lemma ShapeCases(p: Option<string>, b: seq<Stmt>, b1: seq<Stmt>, b2: seq<Stmt>)
    ensures Shape([]) == Ok(Decl(None, None))
    ensures Shape([Options(p)]) == Ok(Decl(p, None))
    ensures Shape([Options(p), Callback(b)]) == Ok(Decl(p, Some(b)))
    ensures Shape([Options(p), Undefined]) == Ok(Decl(p, None))
    ensures Shape([Callback(b1), Callback(b2)]) == Ok(Decl(None, Some(b2)))
    ensures Shape([Options(p), Options(None)]) == Err(CallbackNotAFunction)
  {
  }

  /**
   * `route(name, fn)` treats `fn` as the callback with default options,
   * exactly as `route(name, undefined, fn)` and `route(name, {}, fn)` do.
   */
  lemma TwoArgumentCallback(body: seq<Stmt>)
    ensures Shape([Callback(body)]) == Ok(Decl(None, Some(body)))
    ensures Shape([Undefined, Callback(body)]) == Shape([Callback(body)])
    ensures Shape([Options(None), Callback(body)]) == Shape([Callback(body)])
  {
  }

  /**
   * An explicit `undefined` options argument defaults to `{}`, and with three
   * arguments a function in the options position is not a callback.
   */
  lemma DefaultOptions(body: seq<Stmt>)
    ensures Shape([Undefined]) == Shape([]) == Ok(Decl(None, None))
    ensures Shape([Callback(body), Undefined]) == Ok(Decl(None, None))
  {
  }
}
