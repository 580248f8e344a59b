/** PDF documents as object graphs: faults, sizes, reachability, and what it is to have covered them. */
module PdfGraph {
  import opened Prelude
  import Png

  const MAX_DEPTH := 48
  const TOO_DEEP := MAX_DEPTH + 1
  const MAX_OBJECTS := 20000
  const MAX_EXPANDED := 16 * 1024 * 1024
  const MAX_PAGES := 20
  const MAX_MEDIA_SIDE := 14400.0

  const DENIED: set<string> := {
    "/JS", "/JavaScript", "/Launch", "/EmbeddedFiles", "/EmbeddedFile", "/RichMedia", "/XFA", "/AA",
    "/OpenAction", "/SubmitForm", "/ImportData" }

  datatype Id = Id(num: nat, generation: nat)

  datatype Xml = Harmless | Doctype | Malformed

  /** What decoding a stream gives; None when the decoder fails. */
  datatype Stream = Stream(decoded: Option<Decoded>)
  datatype Decoded = Decoded(size: nat, xml: Xml)

  /** A dictionary's values stand in the order of its keys; a stream is a dictionary with data. */
  datatype Obj =
    | Atom(text: string, number: Option<int>)
    | Ref(id: Id)
    | Arr(items: seq<Obj>)
    | Dict(keys: seq<string>, values: seq<Obj>, stream: Option<Stream>)

  datatype Page = Page(width: real, height: real)

  /** A parsed file. `objects` says what each reference resolves to; an absent one fails to resolve. */
  datatype Document = Document(
    endsWithEof: bool, encrypted: bool, pages: seq<Page>, trailer: Obj,
    xref: seq<(nat, seq<nat>)>, objectStreams: seq<nat>, objects: map<Id, Obj>)

  datatype Reason =
    | TrailingOrIncomplete | Encrypted | PageLimit | PageDimensions
    | DepthLimit | ObjectLimit | ExpansionLimit
    | ActiveContent | DimensionLimit | DtdForbidden | ParserError

  // ---------------------------------------------------------------- one object

  function Children(o: Obj): seq<Obj> {
    match o
    case Arr(items) => items
    case Dict(_, values, _) => values
    case _ => []
  }

  /** The direct value under `key`. */
  function Get(keys: seq<string>, values: seq<Obj>, key: string): Option<Obj> {
    if keys == [] || values == [] then None
    else if keys[0] == key then Some(values[0])
    else Get(keys[1..], values[1..], key)
  }

  /** A name or string as text; references and containers never read like a name. */
  function TextAt(o: Obj, key: string): string
    requires o.Dict?
  {
    match Get(o.keys, o.values, key)
    case Some(Atom(text, _)) => text
    case _ => ""
  }

  /** An integer entry, zero when absent, None when it is not a number. */
  function NumberAt(o: Obj, key: string): Option<int>
    requires o.Dict?
  {
    match Get(o.keys, o.values, key)
    case None => Some(0)
    case Some(Atom(_, number)) => number
    case _ => None
  }

  predicate HasDeniedKey(o: Obj)
    requires o.Dict?
  {
    exists key | key in o.keys :: key in DENIED
  }

  predicate IsActive(o: Obj)
    requires o.Dict?
  {
    HasDeniedKey(o) || TextAt(o, "/S") in DENIED || TextAt(o, "/Type") in DENIED
  }

  predicate IsFault(reason: Reason) {
    reason in {ActiveContent, DimensionLimit, DtdForbidden, ParserError}
  }

  function ImageFault(o: Obj): (r: Option<Reason>)
    requires o.Dict?
    ensures r.Some? ==> IsFault(r.value)
  {
    if TextAt(o, "/Subtype") != "/Image" then None
    else match (NumberAt(o, "/Width"), NumberAt(o, "/Height"))
      case (Some(w), Some(h)) => if Png.Dimensions(w, h) then None else Some(DimensionLimit)
      case _ => Some(ParserError)
  }

  function XmlFault(o: Obj): (r: Option<Reason>)
    requires o.Dict? && o.stream.Some? && o.stream.value.decoded.Some?
    ensures r.Some? ==> IsFault(r.value)
  {
    if TextAt(o, "/Subtype") != "/XML" && TextAt(o, "/Type") != "/Metadata" then None
    else match o.stream.value.decoded.value.xml
      case Harmless => None
      case Doctype => Some(DtdForbidden)
      case Malformed => Some(ParserError)
  }

  function StreamFault(o: Obj): Option<Reason>
    requires o.Dict?
  {
    if o.stream == None then None
    else if o.stream.value.decoded == None then Some(ParserError)
    else XmlFault(o)
  }

  /** What is wrong with an object by itself, whatever the budgets. */
  function Fault(o: Obj): Option<Reason> {
    if !o.Dict? then None
    else if IsActive(o) then Some(ActiveContent)
    else if ImageFault(o).Some? then ImageFault(o)
    else StreamFault(o)
  }

  // ---------------------------------------------------------------- sizes

  /** What counts against the budgets: objects and decoded bytes. */
  datatype Load = Load(objects: nat, bytes: nat) {
    function Plus(other: Load): Load {
      Load(objects + other.objects, bytes + other.bytes)
    }

    predicate AtMost(other: Load) {
      objects <= other.objects && bytes <= other.bytes
    }
  }

  const NOTHING := Load(0, 0)
  const BUDGET := Load(MAX_OBJECTS, MAX_EXPANDED)

  function Decompressed(o: Obj): nat {
    if o.Dict? && o.stream.Some? && o.stream.value.decoded.Some? then o.stream.value.decoded.value.size else 0
  }

  function Own(o: Obj): Load {
    Load(1, Decompressed(o))
  }

  /** An object with everything in it up to its references. */
  function Weight(o: Obj): Load {
    if o.Ref? then NOTHING
    else if o.Arr? then Own(o).Plus(WeightAll(o.items))
    else if o.Dict? then Own(o).Plus(WeightAll(o.values))
    else Own(o)
  }

  function WeightAll(s: seq<Obj>): Load {
    if s == [] then NOTHING else WeightAll(s[..|s| - 1]).Plus(Weight(s[|s| - 1]))
  }

  lemma WeightOfChildren(o: Obj)
    requires !o.Ref?
    ensures Weight(o) == Own(o).Plus(WeightAll(Children(o)))
  {}

  lemma WeightOfNext(s: seq<Obj>, k: nat)
    requires k < |s|
    ensures WeightAll(s[..k + 1]) == WeightAll(s[..k]).Plus(Weight(s[k]))
  {
    assert s[..k + 1][..k] == s[..k];
  }

  lemma {:induction false} WeightOfPrefix(s: seq<Obj>, k: nat)
    requires k <= |s|
    ensures WeightAll(s[..k]).AtMost(WeightAll(s))
    decreases |s| - k
  {
    if k < |s| {
      WeightOfNext(s, k);
      WeightOfPrefix(s, k + 1);
    } else {
      assert s[..k] == s;
    }
  }

  function WeightOfId(d: Document, id: Id): Load {
    if id in d.objects then Weight(d.objects[id]) else NOTHING
  }

  /** Indirect objects together. */
  function Total(d: Document, ids: seq<Id>): Load {
    if ids == [] then NOTHING else Total(d, ids[..|ids| - 1]).Plus(WeightOfId(d, ids[|ids| - 1]))
  }

  lemma TotalOfNext(d: Document, ids: seq<Id>, id: Id)
    ensures Total(d, ids + [id]) == Total(d, ids).Plus(WeightOfId(d, id))
  {
    assert (ids + [id])[..|ids|] == ids;
  }

  lemma PlusAssociates(a: Load, b: Load, c: Load)
    ensures a.Plus(b.Plus(c)) == a.Plus(b).Plus(c)
    ensures a.Plus(NOTHING) == a == NOTHING.Plus(a)
  {}

  lemma TotalOfOne(d: Document, id: Id)
    ensures Total(d, [id]) == WeightOfId(d, id)
  {
    TotalOfNext(d, [], id);
    assert [] + [id] == [id];
    PlusAssociates(WeightOfId(d, id), NOTHING, NOTHING);
  }

  lemma {:induction false} TotalOfBoth(d: Document, a: seq<Id>, b: seq<Id>)
    ensures Total(d, a + b) == Total(d, a).Plus(Total(d, b))
    decreases |b|
  {
    if b == [] {
      assert a + b == a;
      PlusAssociates(Total(d, a), NOTHING, NOTHING);
    } else {
      var n := |b| - 1;
      TotalOfBoth(d, a, b[..n]);
      assert b[..n] + [b[n]] == b && (a + b[..n]) + [b[n]] == a + b;
      TotalOfBothNext(d, a, b[..n], b[n]);
    }
  }

  lemma TotalOfBothNext(d: Document, a: seq<Id>, b: seq<Id>, id: Id)
    requires Total(d, a + b) == Total(d, a).Plus(Total(d, b))
    ensures Total(d, (a + b) + [id]) == Total(d, a).Plus(Total(d, b + [id]))
  {
    TotalOfNext(d, a + b, id);
    TotalOfNext(d, b, id);
    PlusAssociates(Total(d, a), Total(d, b), WeightOfId(d, id));
  }

  lemma TotalWithout(d: Document, ids: seq<Id>, k: nat)
    requires k < |ids|
    ensures Total(d, ids) == Total(d, ids[..k] + ids[k + 1..]).Plus(WeightOfId(d, ids[k]))
  {
    var front, back := ids[..k], ids[k + 1..];
    assert ids == (front + [ids[k]]) + back;
    TotalOfBoth(d, front + [ids[k]], back);
    TotalOfNext(d, front, ids[k]);
    TotalOfBoth(d, front, back);
  }

  /** Fewer indirect objects are no heavier, in whatever order they come. */
  lemma {:induction false} TotalOfSome(d: Document, some: seq<Id>, all: seq<Id>)
    requires NoDup(some) && forall id | id in some :: id in all
    ensures Total(d, some).AtMost(Total(d, all))
    decreases |some|
  {
    if some != [] {
      var n := |some| - 1;
      assert some[n] in some;
      var k :| 0 <= k < |all| && all[k] == some[n];
      var rest := all[..k] + all[k + 1..];
      forall id | id in some[..n] ensures id in rest {
        assert id in some;
        var j :| 0 <= j < |all| && all[j] == id;
        assert j != k;
        assert id == if j < k then rest[j] else rest[j - 1];
      }
      TotalOfSome(d, some[..n], rest);
      TotalWithout(d, all, k);
      assert some == some[..n] + [some[n]];
      TotalOfNext(d, some[..n], some[n]);
    }
  }

  // ---------------------------------------------------------------- reachability

  /** Every reference that resolves gives a direct object. */
  ghost predicate Resolved(d: Document) {
    forall id | id in d.objects :: !d.objects[id].Ref?
  }

  predicate IsRoot(d: Document, o: Obj) {
    || o == d.trailer
    || (o.Ref? && ListedInXref(d, o.id))
    || (o.Ref? && o.id.generation == 0 && o.id.num in d.objectStreams)
  }

  /** Listed in the cross-reference table, other than as free or as object zero. */
  predicate ListedInXref(d: Document, id: Id) {
    id.generation != 65535 && id.num != 0
    && exists k | 0 <= k < |d.xref| :: d.xref[k].0 == id.generation && id.num in d.xref[k].1
  }

  predicate Follows(d: Document, a: Obj, b: Obj) {
    a.Ref? && a.id in d.objects && b == d.objects[a.id]
  }

  predicate Contains(a: Obj, b: Obj) {
    b in Children(a)
  }

  /** A path from a root along references and `depth` containment steps. */
  ghost predicate PathTo(d: Document, p: seq<Obj>, o: Obj, depth: nat)
    decreases |p|
  {
    && p != [] && p[|p| - 1] == o
    && if |p| == 1 then IsRoot(d, o) && depth == 0
       else
         var q := p[..|p| - 1];
         var a := q[|q| - 1];
         || (Follows(d, a, o) && PathTo(d, q, a, depth))
         || (Contains(a, o) && depth > 0 && PathTo(d, q, a, depth - 1))
  }

  ghost predicate ReachableAt(d: Document, o: Obj, depth: nat) {
    exists p :: PathTo(d, p, o, depth)
  }

  ghost predicate Reachable(d: Document, o: Obj) {
    exists depth :: ReachableAt(d, o, depth)
  }

  ghost predicate TooDeep(d: Document) {
    exists o :: ReachableAt(d, o, TOO_DEEP)
  }

  lemma RootIsReachable(d: Document, o: Obj)
    requires IsRoot(d, o)
    ensures ReachableAt(d, o, 0)
  {
    assert PathTo(d, [o], o, 0);
  }

  lemma ReachFollows(d: Document, a: Obj, b: Obj, depth: nat)
    requires ReachableAt(d, a, depth) && Follows(d, a, b)
    ensures ReachableAt(d, b, depth)
  {
    var p :| PathTo(d, p, a, depth);
    assert (p + [b])[..|p|] == p;
    assert PathTo(d, p + [b], b, depth);
  }

  lemma ReachContains(d: Document, a: Obj, b: Obj, depth: nat)
    requires ReachableAt(d, a, depth) && Contains(a, b)
    ensures ReachableAt(d, b, depth + 1)
  {
    var p :| PathTo(d, p, a, depth);
    assert (p + [b])[..|p|] == p;
    assert PathTo(d, p + [b], b, depth + 1);
  }

  /**
   What can be reached: the trailer, every object in use in the cross-reference table and every object
   kept in an object stream, and with an object all that it contains and all that it refers to.
   */
  lemma ReachableCloses(d: Document)
    ensures Reachable(d, d.trailer)
    ensures forall k, num | 0 <= k < |d.xref| && num in d.xref[k].1 && num != 0 && d.xref[k].0 != 65535 ::
              Reachable(d, Ref(Id(num, d.xref[k].0)))
    ensures forall num | num in d.objectStreams :: Reachable(d, Ref(Id(num, 0)))
    ensures forall a, b | Reachable(d, a) && Contains(a, b) :: Reachable(d, b)
    ensures forall id | Reachable(d, Ref(id)) && id in d.objects :: Reachable(d, d.objects[id])
  {
    forall o | IsRoot(d, o) ensures Reachable(d, o) { RootIsReachable(d, o); }
    forall a, b | Reachable(d, a) && Contains(a, b) ensures Reachable(d, b) {
      var depth :| ReachableAt(d, a, depth);
      ReachContains(d, a, b, depth);
    }
    forall id | Reachable(d, Ref(id)) && id in d.objects ensures Reachable(d, d.objects[id]) {
      var depth :| ReachableAt(d, Ref(id), depth);
      ReachFollows(d, Ref(id), d.objects[id], depth);
    }
    forall k, num | 0 <= k < |d.xref| && num in d.xref[k].1 && num != 0 && d.xref[k].0 != 65535
      ensures Reachable(d, Ref(Id(num, d.xref[k].0)))
    {
      assert ListedInXref(d, Id(num, d.xref[k].0)) && IsRoot(d, Ref(Id(num, d.xref[k].0)));
    }
    forall num | num in d.objectStreams ensures Reachable(d, Ref(Id(num, 0))) { assert IsRoot(d, Ref(Id(num, 0))); }
  }

  // ---------------------------------------------------------------- what a finished walk has covered

  /** `o` and everything in it is free of faults and mentions only seen references. */
  ghost predicate Covered(o: Obj, seen: set<Id>) {
    && Fault(o) == None
    && (o.Ref? ==> o.id in seen)
    && forall k | 0 <= k < |Children(o)| :: Covered(Children(o)[k], seen)
  }

  ghost predicate Closed(d: Document, ids: seq<Id>, seen: set<Id>) {
    forall id | id in ids :: id in d.objects && Covered(d.objects[id], seen)
  }

  lemma {:induction false} CoveredGrows(o: Obj, seen: set<Id>, more: set<Id>)
    requires Covered(o, seen) && seen <= more
    ensures Covered(o, more)
  {
    forall k | 0 <= k < |Children(o)| ensures Covered(Children(o)[k], more) {
      CoveredGrows(Children(o)[k], seen, more);
    }
  }

  lemma ClosedGrows(d: Document, ids: seq<Id>, seen: set<Id>, more: set<Id>)
    requires Closed(d, ids, seen) && seen <= more
    ensures Closed(d, ids, more)
  {
    forall id | id in ids ensures id in d.objects && Covered(d.objects[id], more) {
      CoveredGrows(d.objects[id], seen, more);
    }
  }

  ghost predicate RootsCovered(d: Document, seen: set<Id>) {
    forall o | IsRoot(d, o) :: Covered(o, seen)
  }

  lemma RootsAreCovered(d: Document, seen: set<Id>)
    requires Covered(d.trailer, seen)
    requires forall id | ListedInXref(d, id) :: id in seen
    requires forall num | num in d.objectStreams :: Id(num, 0) in seen
    ensures RootsCovered(d, seen)
  {
    forall o | IsRoot(d, o) && o != d.trailer ensures Covered(o, seen) {
      assert o == Ref(o.id) && o.id == Id(o.id.num, o.id.generation);
    }
  }

  /** Completeness: when the roots are covered and the seen references closed, so is all that is reachable. */
  lemma {:induction false} CoveredAlongPath(d: Document, seen: set<Id>, ids: seq<Id>, p: seq<Obj>, o: Obj, depth: nat)
    requires RootsCovered(d, seen) && Closed(d, ids, seen) && (forall id | id in seen :: id in ids)
    requires PathTo(d, p, o, depth)
    ensures Covered(o, seen)
    decreases |p|
  {
    if |p| > 1 {
      var q := p[..|p| - 1];
      var a := q[|q| - 1];
      if Follows(d, a, o) && PathTo(d, q, a, depth) {
        CoveredAlongPath(d, seen, ids, q, a, depth);
      } else {
        CoveredAlongPath(d, seen, ids, q, a, depth - 1);
      }
    }
  }

  ghost predicate NoDup(ids: seq<Id>) {
    forall i, j | 0 <= i < j < |ids| :: ids[i] != ids[j]
  }

  /** The trailer and a list of indirect objects together. */
  function Everything(d: Document, ids: seq<Id>): Load {
    Weight(d.trailer).Plus(Total(d, ids))
  }

  ghost predicate ReachableIds(d: Document, ids: seq<Id>) {
    NoDup(ids) && forall id | id in ids :: Reachable(d, Ref(id))
  }
}
