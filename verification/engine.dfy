/**
 * The boundary with the external recognition engine: what is registered
 * with it.
 */
module Engine {
  import opened Naming

  /** The single-element `router.add([{ path, handler }])` argument. */
  datatype Registration = Registration(path: string, handler: RouteRecord)

  /** The engine's view of a compilation: one entry per registered record, in order. */
  function Registrations(rs: seq<RouteRecord>): (es: seq<Registration>)
    ensures |es| == |rs|
    ensures forall k :: 0 <= k < |rs| ==> es[k] == Registration(rs[k].fullPath, rs[k])
  {
    seq(|rs|, k requires 0 <= k < |rs| => Registration(rs[k].fullPath, rs[k]))
  }

  /**
   * `router.add` is called once per registered record, in registration order:
   * the engine entries of a concatenation are the concatenation of the entries.
   */
  lemma RegistrationsAppend(a: seq<RouteRecord>, b: seq<RouteRecord>, r: RouteRecord)
    ensures Registrations([]) == []
    ensures Registrations([r]) == [Registration(r.fullPath, r)]
    ensures Registrations(a + b) == Registrations(a) + Registrations(b)
  {
  }
}
