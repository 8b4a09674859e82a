/**
 * Path-segment normalisation and the composition of a route's dotted
 * `fullName` and slash-joined `fullPath` from its parent's record
 * (lib/index.js:20-48, dist/index.js:30-59).
 */
module Naming {
  import opened Wrappers

  /** The record registered with the recognition engine as a route's handler. */
  datatype RouteRecord = RouteRecord(name: string, fullName: string, path: string, fullPath: string)

  predicate StartsWith(s: string, prefix: string) {
    |prefix| <= |s| && s[..|prefix|] == prefix
  }

  predicate EndsWith(s: string, suffix: string) {
    |suffix| <= |s| && s[|s| - |suffix|..] == suffix
  }

  /** `p.indexOf('/') === 0`: the first occurrence of a slash is at position 0. */
  predicate StartsWithSlash(p: string) {
    |p| > 0 && p[0] == '/'
  }

  /** JavaScript truthiness of an optional string: `undefined` and `""` are falsy. */
  predicate Truthy(o: Option<string>) {
    o.Some? && o.value != ""
  }

  /** Prepends a slash unless the segment already starts with one. */
  function Normalize(p: string): (r: string)
    ensures StartsWithSlash(r)
  {
    if StartsWithSlash(p) then p else "/" + p
  }

  /**
   * Normalisation changes a segment only by prepending one slash, and only
   * when it does not start with one already.
   */
  lemma NormalizeShape(p: string)
    ensures EndsWith(Normalize(p), p) && |Normalize(p)| <= |p| + 1
    ensures Normalize(p) == p <==> StartsWithSlash(p)
  {
    if !StartsWithSlash(p) {
      assert ("/" + p)[1..] == p;
    }
  }

  /** The string a route's segment is made from: a truthy `path` option, else the name. */
  function SegmentSource(name: string, option: Option<string>): string {
    if Truthy(option) then option.value else name
  }

  /** The node's own normalised pattern segment. */
  function Segment(name: string, option: Option<string>): (r: string)
    ensures StartsWithSlash(r)
  {
    Normalize(SegmentSource(name, option))
  }

  /**
   * Dotted name of `name` below `parent`; used both for a new record's
   * `fullName` and for resolving an alias target.
   */
  function QualifiedName(parent: Option<RouteRecord>, name: string): string {
    match parent
    case None => name
    case Some(p) => p.fullName + "." + name
  }

  /** A qualified name ends with the name and, below a parent, starts with the parent's name and a dot. */
  lemma QualifiedNameShape(parent: Option<RouteRecord>, name: string)
    ensures EndsWith(QualifiedName(parent, name), name)
    ensures parent.Some? ==> StartsWith(QualifiedName(parent, name), parent.value.fullName + ".")
    ensures parent.Some? ==> |QualifiedName(parent, name)| == |parent.value.fullName| + 1 + |name|
  {
    var r := QualifiedName(parent, name);
    if parent.Some? {
      assert r[..|parent.value.fullName + "."|] == parent.value.fullName + ".";
      assert r[|r| - |name|..] == name;
    }
  }

  /** The path every child pattern is appended to: empty at the root. */
  function PathPrefix(parent: Option<RouteRecord>): string {
    match parent
    case None => ""
    case Some(p) => p.fullPath
  }

  /** `r` is the record `route` builds for `r.name` directly below `parent`. */
  predicate ChildOf(r: RouteRecord, parent: Option<RouteRecord>) {
    r.fullName == QualifiedName(parent, r.name) && r.fullPath == PathPrefix(parent) + r.path
  }

  function MakeRecord(parent: Option<RouteRecord>, name: string, segment: string): (r: RouteRecord)
    ensures r.name == name && r.path == segment
    ensures ChildOf(r, parent)
  {
    RouteRecord(name, QualifiedName(parent, name), segment, PathPrefix(parent) + segment)
  }

  /** `r` lies strictly inside the subtree rooted at `q`. */
  predicate Below(r: RouteRecord, q: RouteRecord) {
    StartsWith(r.fullName, q.fullName + ".") && StartsWith(r.fullPath, q.fullPath + "/")
  }

  predicate AllBelow(rs: seq<RouteRecord>, q: RouteRecord) {
    forall k :: 0 <= k < |rs| ==> Below(rs[k], q)
  }

  /** The shape every registered record has. */
  predicate WellFormed(r: RouteRecord) {
    && StartsWithSlash(r.path)
    && StartsWithSlash(r.fullPath)
    && EndsWith(r.fullName, r.name)
    && EndsWith(r.fullPath, r.path)
  }

  predicate AllWellFormed(rs: seq<RouteRecord>) {
    forall k :: 0 <= k < |rs| ==> WellFormed(rs[k])
  }

  /** A parent records can be built under: the root, or a well-formed record. */
  predicate Admissible(parent: Option<RouteRecord>) {
    parent.None? || WellFormed(parent.value)
  }

  /** Normalisation is idempotent. */
  lemma NormalizeIdempotent(p: string)
    ensures Normalize(Normalize(p)) == Normalize(p)
  {
  }

  /**
   * The segment comes from a truthy `path` option and otherwise from the
   * name; an empty-string option falls back to the name, and a leading slash
   * in the option makes no difference.
   */
  lemma SegmentChoice(name: string, option: Option<string>)
    ensures Truthy(option) ==> Segment(name, option) == Normalize(option.value)
    ensures !Truthy(option) ==> Segment(name, option) == Normalize(name)
    ensures Segment(name, Some("")) == Segment(name, None)
    ensures Truthy(option) && !StartsWithSlash(option.value) ==>
              Segment(name, option) == Segment(name, Some("/" + option.value))
    ensures EndsWith(Segment(name, option), SegmentSource(name, option))
    ensures |Segment(name, option)| <= |SegmentSource(name, option)| + 1
  {
    NormalizeShape(SegmentSource(name, option));
  }

  /**
   * A root record is named and placed by its own name and segment; a child
   * record extends its parent's name with a dot and its parent's path with
   * its segment.
   */
  lemma RecordComposition(parent: Option<RouteRecord>, name: string, segment: string)
    ensures parent.None? ==> MakeRecord(parent, name, segment).fullName == name
    ensures parent.None? ==> MakeRecord(parent, name, segment).fullPath == segment
    ensures parent.Some? ==> MakeRecord(parent, name, segment).fullName == parent.value.fullName + "." + name
    ensures parent.Some? ==> MakeRecord(parent, name, segment).fullPath == parent.value.fullPath + segment
    ensures StartsWithSlash(segment) && Admissible(parent) ==> WellFormed(MakeRecord(parent, name, segment))
    ensures StartsWithSlash(segment) && parent.Some? ==> Below(MakeRecord(parent, name, segment), parent.value)
  {
    var r := MakeRecord(parent, name, segment);
    if StartsWithSlash(segment) {
      ChildWellFormed(r, parent);
      if parent.Some? {
        ChildIsBelow(r, parent.value);
      }
    }
  }

  lemma ChildWellFormed(r: RouteRecord, parent: Option<RouteRecord>)
    requires ChildOf(r, parent) && StartsWithSlash(r.path)
    ensures Admissible(parent) ==> WellFormed(r)
  {
    var pre := PathPrefix(parent);
    QualifiedNameShape(parent, r.name);
    assert r.fullPath[|r.fullPath| - |r.path|..] == r.path;
    if Admissible(parent) && parent.Some? {
      assert r.fullPath[0] == pre[0];
    }
  }

  lemma ChildIsBelow(r: RouteRecord, q: RouteRecord)
    requires ChildOf(r, Some(q)) && StartsWithSlash(r.path)
    ensures Below(r, q)
  {
    QualifiedNameShape(Some(q), r.name);
    assert r.fullPath[..|q.fullPath + "/"|] == q.fullPath + "/";
  }

  lemma StartsWithTransitive(s: string, a: string, b: string)
    requires StartsWith(s, a) && StartsWith(a, b)
    ensures StartsWith(s, b)
  {
    assert s[..|b|] == s[..|a|][..|b|];
  }

  /** A prefix of `a` followed by a separator is still a prefix of `a` extended by that separator. */
  lemma StartsWithExtend(a: string, b: string, sep: string)
    requires StartsWith(a, b + sep)
    ensures StartsWith(a + sep, b + sep)
  {
    assert (a + sep)[..|b + sep|] == a[..|b + sep|];
  }

  lemma BelowTransitive(a: RouteRecord, b: RouteRecord, c: RouteRecord)
    requires Below(a, b) && Below(b, c)
    ensures Below(a, c)
  {
    StartsWithExtend(b.fullName, c.fullName, ".");
    StartsWithTransitive(a.fullName, b.fullName + ".", c.fullName + ".");
    StartsWithExtend(b.fullPath, c.fullPath, "/");
    StartsWithTransitive(a.fullPath, b.fullPath + "/", c.fullPath + "/");
  }

  lemma AllBelowTransitive(rs: seq<RouteRecord>, b: RouteRecord, c: RouteRecord)
    requires AllBelow(rs, b) && Below(b, c)
    ensures AllBelow(rs, c)
  {
    forall k | 0 <= k < |rs|
      ensures Below(rs[k], c)
    {
      BelowTransitive(rs[k], b, c);
    }
  }

  /** A record strictly inside `q`'s subtree has a longer name than `q`. */
  lemma BelowLonger(r: RouteRecord, q: RouteRecord)
    requires Below(r, q)
    ensures |r.fullName| > |q.fullName|
  {
  }

  /**
   * A record followed by registrations inside its subtree forms a block that
   * lies inside the record's own parent and keeps well-formedness.
   */
  lemma BlockUnderParent(rec: RouteRecord, children: seq<RouteRecord>, parent: Option<RouteRecord>)
    requires ChildOf(rec, parent) && StartsWithSlash(rec.path) && AllBelow(children, rec)
    ensures parent.Some? ==> AllBelow([rec] + children, parent.value)
    ensures Admissible(parent) ==> Admissible(Some(rec))
    ensures Admissible(parent) && AllWellFormed(children) ==> AllWellFormed([rec] + children)
  {
    ChildWellFormed(rec, parent);
    if parent.Some? {
      ChildIsBelow(rec, parent.value);
      AllBelowTransitive(children, rec, parent.value);
      assert forall k :: 1 <= k < |[rec] + children| ==> ([rec] + children)[k] == children[k - 1];
    }
    assert forall k :: 1 <= k < |[rec] + children| ==> ([rec] + children)[k] == children[k - 1];
  }

  /**
   * Every record is either a direct child of `parent` or a direct child of a
   * record registered before it.
   */
  predicate ParentsFirst(rs: seq<RouteRecord>, parent: Option<RouteRecord>) {
    OrderedBy(rs, parent, ChildOf)
  }

  /** Every element is related by `childOf` to `parent` or to an element before it. */
  predicate OrderedBy(rs: seq<RouteRecord>, parent: Option<RouteRecord>, childOf: (RouteRecord, Option<RouteRecord>) -> bool) {
    forall j :: 0 <= j < |rs| ==>
      childOf(rs[j], parent) || exists i :: 0 <= i < j && childOf(rs[j], Some(rs[i]))
  }

  lemma ParentsFirstConcat(a: seq<RouteRecord>, b: seq<RouteRecord>, parent: Option<RouteRecord>)
    requires ParentsFirst(a, parent) && ParentsFirst(b, parent)
    ensures ParentsFirst(a + b, parent)
  {
    OrderedConcat(a, b, parent, ChildOf);
  }

  lemma ParentsFirstCons(rec: RouteRecord, children: seq<RouteRecord>, parent: Option<RouteRecord>)
    requires ChildOf(rec, parent) && ParentsFirst(children, Some(rec))
    ensures ParentsFirst([rec] + children, parent)
  {
    OrderedCons(rec, children, parent, ChildOf);
  }

  lemma OrderedConcat(a: seq<RouteRecord>, b: seq<RouteRecord>, parent: Option<RouteRecord>, childOf: (RouteRecord, Option<RouteRecord>) -> bool)
    requires OrderedBy(a, parent, childOf) && OrderedBy(b, parent, childOf)
    ensures OrderedBy(a + b, parent, childOf)
  {
    var ab := a + b;
    forall j | 0 <= j < |ab| && !childOf(ab[j], parent)
      ensures exists i :: 0 <= i < j && childOf(ab[j], Some(ab[i]))
    {
      if j < |a| {
        assert ab[j] == a[j];
        var i :| 0 <= i < j && childOf(a[j], Some(a[i]));
        assert ab[i] == a[i];
      } else {
        assert ab[j] == b[j - |a|];
        var i :| 0 <= i < j - |a| && childOf(b[j - |a|], Some(b[i]));
        assert ab[i + |a|] == b[i];
      }
    }
  }

  lemma OrderedCons(rec: RouteRecord, children: seq<RouteRecord>, parent: Option<RouteRecord>, childOf: (RouteRecord, Option<RouteRecord>) -> bool)
    requires childOf(rec, parent) && OrderedBy(children, Some(rec), childOf)
    ensures OrderedBy([rec] + children, parent, childOf)
  {
    var rs := [rec] + children;
    forall j | 1 <= j < |rs| && !childOf(rs[j], parent)
      ensures exists i :: 0 <= i < j && childOf(rs[j], Some(rs[i]))
    {
      var c := children[j - 1];
      assert rs[j] == c;
      if childOf(c, Some(rec)) {
        assert rs[0] == rec;
      } else {
        var i :| 0 <= i < j - 1 && childOf(c, Some(children[i]));
        assert rs[i + 1] == children[i];
      }
    }
  }
}
