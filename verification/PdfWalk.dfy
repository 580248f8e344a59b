/** The PDF gate: a bounded depth-first walk over a possibly cyclic object graph. */
module PdfWalk {
  import opened Prelude
  import opened PdfGraph
  import opened PdfContent

  // ---------------------------------------------------------------- the walk

  /** A reachable object with this fault, or a reachable reference that does not resolve. */
  ghost predicate FaultIsReachable(d: Document, reason: Reason) {
    || (exists o :: Reachable(d, o) && Fault(o) == Some(reason))
    || (reason == ParserError && exists id :: id !in d.objects && Reachable(d, Ref(id)))
  }

  lemma FaultAt(d: Document, o: Obj, depth: nat)
    requires ReachableAt(d, o, depth) && Fault(o).Some?
    ensures IsFault(Fault(o).value) && FaultIsReachable(d, Fault(o).value)
  {
    assert Reachable(d, o);
  }

  /** Where a walk stands: what it has counted and the references it was first to follow, in order. */
  datatype Stand = Stand(load: Load, order: seq<Id>)

  ghost function Ids(order: seq<Id>): set<Id> {
    set id | id in order
  }

  ghost predicate Extends(a: seq<Id>, b: seq<Id>) {
    |a| <= |b| && b[..|a|] == a
  }

  /** The references followed since. */
  ghost function Since(a: seq<Id>, b: seq<Id>): seq<Id> {
    if |a| <= |b| then b[|a|..] else []
  }

  ghost function Gain(d: Document, a: seq<Id>, b: seq<Id>): Load {
    Total(d, Since(a, b))
  }

  ghost predicate ClosedSince(d: Document, a: seq<Id>, b: seq<Id>) {
    Closed(d, Since(a, b), Ids(b))
  }

  /** From `a` to `b` at most `w` was counted, besides the references followed meanwhile. */
  ghost predicate Moved(d: Document, a: Stand, b: Stand, w: Load) {
    Extends(a.order, b.order) && b.load.AtMost(a.load.Plus(w).Plus(Gain(d, a.order, b.order)))
  }

  /** The same when nothing was refused: the sum is exact, within budget, and those references are closed. */
  ghost predicate Done(d: Document, a: Stand, b: Stand, w: Load) {
    && Extends(a.order, b.order) && ClosedSince(d, a.order, b.order) && b.load.AtMost(BUDGET)
    && b.load == a.load.Plus(w).Plus(Gain(d, a.order, b.order))
  }

  lemma IdsGrow(order: seq<Id>, more: seq<Id>)
    requires Extends(order, more)
    ensures Ids(order) <= Ids(more)
  {
    assert forall id | id in order :: id in more[..|order|];
  }

  lemma ExtendsThen(a: seq<Id>, b: seq<Id>, c: seq<Id>)
    requires Extends(a, b) && Extends(b, c)
    ensures Extends(a, c) && Since(a, c) == Since(a, b) + Since(b, c)
  {
    assert c == b + c[|b|..];
  }

  lemma GainThen(d: Document, a: seq<Id>, b: seq<Id>, c: seq<Id>)
    requires Extends(a, b) && Extends(b, c)
    ensures Gain(d, a, c) == Gain(d, a, b).Plus(Gain(d, b, c))
  {
    ExtendsThen(a, b, c);
    TotalOfBoth(d, Since(a, b), Since(b, c));
  }

  lemma ClosedThen(d: Document, a: seq<Id>, b: seq<Id>, c: seq<Id>)
    requires Extends(a, b) && Extends(b, c) && ClosedSince(d, a, b) && ClosedSince(d, b, c)
    ensures ClosedSince(d, a, c)
  {
    ExtendsThen(a, b, c);
    IdsGrow(b, c);
    ClosedGrows(d, Since(a, b), Ids(b), Ids(c));
  }

  lemma SumThen(a: Load, b: Load, c: Load, v: Load, w: Load, g: Load, h: Load)
    requires b.AtMost(a.Plus(v).Plus(g)) && c.AtMost(b.Plus(w).Plus(h))
    ensures c.AtMost(a.Plus(v.Plus(w)).Plus(g.Plus(h)))
    ensures b == a.Plus(v).Plus(g) && c == b.Plus(w).Plus(h) ==> c == a.Plus(v.Plus(w)).Plus(g.Plus(h))
  {}

  lemma MovedThen(d: Document, a: Stand, b: Stand, c: Stand, v: Load, w: Load)
    requires Moved(d, a, b, v) && Moved(d, b, c, w)
    ensures Moved(d, a, c, v.Plus(w))
  {
    ExtendsThen(a.order, b.order, c.order);
    GainThen(d, a.order, b.order, c.order);
    SumThen(a.load, b.load, c.load, v, w, Gain(d, a.order, b.order), Gain(d, b.order, c.order));
  }

  lemma DoneThen(d: Document, a: Stand, b: Stand, c: Stand, v: Load, w: Load)
    requires Done(d, a, b, v) && Done(d, b, c, w)
    ensures Done(d, a, c, v.Plus(w))
  {
    ExtendsThen(a.order, b.order, c.order);
    ClosedThen(d, a.order, b.order, c.order);
    GainThen(d, a.order, b.order, c.order);
    SumThen(a.load, b.load, c.load, v, w, Gain(d, a.order, b.order), Gain(d, b.order, c.order));
  }

  lemma DoneMoved(d: Document, a: Stand, b: Stand, w: Load)
    requires Done(d, a, b, w)
    ensures Moved(d, a, b, w)
  {}

  lemma MovedWider(d: Document, a: Stand, b: Stand, v: Load, w: Load)
    requires Moved(d, a, b, v) && v.AtMost(w)
    ensures Moved(d, a, b, w)
  {}

  lemma Stays(d: Document, a: Stand)
    ensures Moved(d, a, a, NOTHING)
    ensures a.load.AtMost(BUDGET) ==> Done(d, a, a, NOTHING)
  {
    assert Since(a.order, a.order) == [];
  }

  lemma OneMore(d: Document, order: seq<Id>, id: Id)
    ensures Extends(order, order + [id]) && Since(order, order + [id]) == [id]
    ensures Gain(d, order, order + [id]) == WeightOfId(d, id)
  {
    SinceOneMore(order, id);
    TotalOfOne(d, id);
  }

  lemma SinceOneMore(order: seq<Id>, id: Id)
    ensures Extends(order, order + [id]) && Since(order, order + [id]) == [id]
  {}

  /** The first `k` of `kids` together. */
  function UpTo(kids: seq<Obj>, k: nat): Load {
    if k <= |kids| then WeightAll(kids[..k]) else NOTHING
  }

  lemma UpToGrows(kids: seq<Obj>, k: nat)
    requires k < |kids|
    ensures UpTo(kids, k + 1) == UpTo(kids, k).Plus(Weight(kids[k]))
    ensures UpTo(kids, k).Plus(Weight(kids[k])).AtMost(WeightAll(kids))
  {
    WeightOfNext(kids, k);
    WeightOfPrefix(kids, k + 1);
  }

  lemma UpToEnds(kids: seq<Obj>)
    ensures UpTo(kids, 0) == NOTHING && UpTo(kids, |kids|) == WeightAll(kids)
  {
    assert kids[..0] == [] && kids[..|kids|] == kids;
  }

  /** From the very start the counts are the trailer and all that was followed. */
  lemma FromStart(d: Document, b: Stand)
    ensures Moved(d, Stand(NOTHING, []), b, Weight(d.trailer)) ==> b.load.AtMost(Everything(d, b.order))
    ensures Done(d, Stand(NOTHING, []), b, Weight(d.trailer)) ==>
              b.load == Everything(d, b.order) && b.load.AtMost(BUDGET) && Closed(d, b.order, Ids(b.order))
  {
    assert Since([], b.order) == b.order;
    PlusAssociates(Weight(d.trailer), NOTHING, NOTHING);
  }

  ghost predicate AllCovered(kids: seq<Obj>, k: nat, seen: set<Id>) {
    forall j | 0 <= j < k && j < |kids| :: Covered(kids[j], seen)
  }

  lemma CoveredFromChildren(o: Obj, seen: set<Id>)
    requires !o.Ref? && Fault(o) == None && AllCovered(Children(o), |Children(o)|, seen)
    ensures Covered(o, seen)
  {}

  lemma AllCoveredNext(kids: seq<Obj>, k: nat, seen: set<Id>, more: set<Id>)
    requires k < |kids| && AllCovered(kids, k, seen) && seen <= more && Covered(kids[k], more)
    ensures AllCovered(kids, k + 1, more)
  {
    forall j | 0 <= j < k ensures Covered(kids[j], more) { CoveredGrows(kids[j], seen, more); }
  }

  lemma SumShift(a: Load, b: Load, w: Load, g: Load)
    requires b.AtMost(a.Plus(w).Plus(g))
    ensures b.AtMost(a.Plus(NOTHING).Plus(w.Plus(g)))
    ensures b == a.Plus(w).Plus(g) ==> b == a.Plus(NOTHING).Plus(w.Plus(g))
  {}

  /** Following a new reference moves its object's weight from the call to the order. */
  lemma FollowMoved(d: Document, a: Stand, b: Stand, id: Id)
    requires Moved(d, Stand(a.load, a.order + [id]), b, WeightOfId(d, id))
    ensures Moved(d, a, b, NOTHING)
  {
    var via := a.order + [id];
    OneMore(d, a.order, id);
    ExtendsThen(a.order, via, b.order);
    GainThen(d, a.order, via, b.order);
    SumShift(a.load, b.load, WeightOfId(d, id), Gain(d, via, b.order));
  }

  lemma FollowClosed(d: Document, a: seq<Id>, b: seq<Id>, id: Id)
    requires id in d.objects && Covered(d.objects[id], Ids(b))
    requires Extends(a + [id], b) && ClosedSince(d, a + [id], b)
    ensures ClosedSince(d, a, b)
  {
    OneMore(d, a, id);
    ExtendsThen(a, a + [id], b);
  }

  lemma FollowDone(d: Document, a: Stand, b: Stand, id: Id)
    requires id in d.objects && Covered(d.objects[id], Ids(b.order))
    requires Done(d, Stand(a.load, a.order + [id]), b, WeightOfId(d, id))
    ensures Done(d, a, b, NOTHING)
  {
    var via := a.order + [id];
    OneMore(d, a.order, id);
    ExtendsThen(a.order, via, b.order);
    GainThen(d, a.order, via, b.order);
    FollowClosed(d, a.order, b.order, id);
    SumShift(a.load, b.load, WeightOfId(d, id), Gain(d, via, b.order));
  }

  /** What a refusal in the walk rests on. */
  ghost predicate JustifiedBy(d: Document, b: Stand, reason: Reason) {
    match reason
    case DepthLimit => TooDeep(d)
    case ObjectLimit => b.load.objects > MAX_OBJECTS
    case ExpansionLimit => b.load.bytes > MAX_EXPANDED
    case _ => IsFault(reason) && FaultIsReachable(d, reason)
  }

  /** Where a call that adds `w` may leave the walk, refused or not. */
  ghost predicate Outcome(d: Document, a: Stand, b: Stand, w: Load, refusal: Option<Reason>) {
    && Moved(d, a, b, w)
    && (refusal == None ==> Done(d, a, b, w))
    && (refusal.Some? ==> JustifiedBy(d, b, refusal.value))
  }

  lemma OutcomeThen(d: Document, a: Stand, b: Stand, c: Stand, v: Load, w: Load, refusal: Option<Reason>)
    requires Done(d, a, b, v) && Outcome(d, b, c, w, refusal)
    ensures Outcome(d, a, c, v.Plus(w), refusal)
  {
    DoneMoved(d, a, b, v);
    MovedThen(d, a, b, c, v, w);
    if refusal == None { DoneThen(d, a, b, c, v, w); }
  }

  lemma OutcomeOn(d: Document, a: Stand, b: Stand, c: Stand, w: Load, refusal: Option<Reason>)
    requires Done(d, a, b, w) && Outcome(d, b, c, NOTHING, refusal)
    ensures Outcome(d, a, c, w, refusal)
  {
    OutcomeThen(d, a, b, c, w, NOTHING, refusal);
    PlusAssociates(w, NOTHING, NOTHING);
  }

  /** A refusal part of the way is a refusal of the whole. */
  lemma OutcomeStops(d: Document, a: Stand, b: Stand, v: Load, w: Load, refusal: Option<Reason>)
    requires Outcome(d, a, b, v, refusal) && refusal.Some? && v.AtMost(w)
    ensures Outcome(d, a, b, w, refusal)
  {
    MovedWider(d, a, b, v, w);
  }

  lemma CheckStops(d: Document, a: Stand, b: Stand, o: Obj, refusal: Option<Reason>)
    requires !o.Ref? && refusal.Some? && Outcome(d, a, b, Own(o), refusal)
    ensures Outcome(d, a, b, Weight(o), refusal)
  {
    WeightOfChildren(o);
    OutcomeStops(d, a, b, Own(o), Own(o).Plus(WeightAll(Children(o))), refusal);
  }

  lemma VisitEnds(d: Document, a: Stand, b: Stand, c: Stand, o: Obj, refusal: Option<Reason>)
    requires !o.Ref? && Done(d, a, b, Own(o)) && Outcome(d, b, c, WeightAll(Children(o)), refusal)
    ensures Outcome(d, a, c, Weight(o), refusal)
  {
    WeightOfChildren(o);
    OutcomeThen(d, a, b, c, Own(o), WeightAll(Children(o)), refusal);
  }

  lemma ChildEnds(d: Document, a: Stand, b: Stand, c: Stand, kids: seq<Obj>, k: nat, refusal: Option<Reason>)
    requires k < |kids| && Done(d, a, b, UpTo(kids, k)) && Outcome(d, b, c, Weight(kids[k]), refusal)
    ensures refusal == None ==> Done(d, a, c, UpTo(kids, k + 1))
    ensures refusal.Some? ==> Outcome(d, a, c, WeightAll(kids), refusal)
  {
    var w := UpTo(kids, k).Plus(Weight(kids[k]));
    UpToGrows(kids, k);
    OutcomeThen(d, a, b, c, UpTo(kids, k), Weight(kids[k]), refusal);
    if refusal.Some? { OutcomeStops(d, a, c, w, WeightAll(kids), refusal); }
  }

  lemma OutcomeFollows(d: Document, a: Stand, b: Stand, id: Id, refusal: Option<Reason>)
    requires Outcome(d, Stand(a.load, a.order + [id]), b, WeightOfId(d, id), refusal)
    requires refusal == None ==> id in d.objects && Covered(d.objects[id], Ids(b.order))
    ensures Outcome(d, a, b, NOTHING, refusal)
    ensures id in Ids(b.order)
  {
    FollowMoved(d, a, b, id);
    if refusal == None { FollowDone(d, a, b, id); }
    assert b.order[|a.order|] == (a.order + [id])[|a.order|];
  }

  class Walker {
    const doc: Document
    var seen: set<Id>
    var count: nat
    var expanded: nat

    /** The references in the order in which they were first followed. */
    ghost var order: seq<Id>

    ghost predicate Valid()
      reads this
    {
      Resolved(doc) && ReachableIds(doc, order) && seen == Ids(order)
    }

    ghost function Now(): Stand
      reads this
    {
      Stand(Load(count, expanded), order)
    }

    ghost predicate Within()
      reads this
    {
      count <= MAX_OBJECTS && expanded <= MAX_EXPANDED
    }

    constructor (doc: Document)
      requires Resolved(doc)
      ensures this.doc == doc && Valid() && Now() == Stand(NOTHING, [])
    {
      this.doc := doc;
      seen, count, expanded, order := {}, 0, 0, [];
    }

    /** The checks of one direct object. */
    method Check(o: Obj, ghost depth: nat) returns (refusal: Option<Reason>)
      requires Valid() && Within() && !o.Ref? && ReachableAt(doc, o, depth)
      modifies this
      ensures Valid() && Outcome(doc, old(Now()), Now(), Own(o), refusal)
      ensures refusal == None ==> Fault(o) == None
    {
      Stays(doc, Now());
      count := count + 1;
      if count > MAX_OBJECTS { return Some(ObjectLimit); }
      if !o.Dict? { return None; }
      if Fault(o).Some? { FaultAt(doc, o, depth); }
      if IsActive(o) { return Some(ActiveContent); }
      if ImageFault(o).Some? { return ImageFault(o); }
      if o.stream == None { return None; }
      if o.stream.value.decoded == None { return Some(ParserError); }
      expanded := expanded + o.stream.value.decoded.value.size;
      if expanded > MAX_EXPANDED { return Some(ExpansionLimit); }
      refusal := XmlFault(o);
    }

    /** An object wherever it occurs: a seen reference ends the walk, a new one is followed. */
    method Walk(o: Obj, depth: nat) returns (refusal: Option<Reason>)
      requires Valid() && Within() && depth <= TOO_DEEP && ReachableAt(doc, o, depth)
      modifies this
      ensures Valid() && Outcome(doc, old(Now()), Now(), Weight(o), refusal)
      ensures refusal == None ==> Covered(o, seen)
      decreases TOO_DEEP - depth, 3
    {
      Stays(doc, Now());
      if depth > MAX_DEPTH {
        OutcomeStops(doc, Now(), Now(), NOTHING, Weight(o), Some(DepthLimit));
        return Some(DepthLimit);
      }
      if o.Ref? {
        if o.id in seen { return None; }
        refusal := Follow(o, depth);
      } else {
        refusal := Visit(o, depth);
      }
    }

    method Follow(o: Obj, depth: nat) returns (refusal: Option<Reason>)
      requires Valid() && Within() && depth <= MAX_DEPTH && ReachableAt(doc, o, depth) && o.Ref? && o.id !in seen
      modifies this
      ensures Valid() && Outcome(doc, old(Now()), Now(), NOTHING, refusal)
      ensures o.id in seen
      decreases TOO_DEEP - depth, 2
    {
      seen, order := seen + {o.id}, order + [o.id];
      assert Reachable(doc, Ref(o.id));
      ghost var via := Now();
      Stays(doc, via);
      if o.id in doc.objects {
        ReachFollows(doc, o, doc.objects[o.id], depth);
        refusal := Visit(doc.objects[o.id], depth);
      } else {
        refusal := Some(ParserError);
        assert WeightOfId(doc, o.id) == NOTHING;
      }
      OutcomeFollows(doc, old(Now()), Now(), o.id, refusal);
    }

    /** A direct object and everything in it. */
    method Visit(o: Obj, depth: nat) returns (refusal: Option<Reason>)
      requires Valid() && Within() && depth <= MAX_DEPTH && !o.Ref? && ReachableAt(doc, o, depth)
      modifies this
      ensures Valid() && Outcome(doc, old(Now()), Now(), Weight(o), refusal)
      ensures refusal == None ==> Covered(o, seen)
      decreases TOO_DEEP - depth, 1
    {
      refusal := Check(o, depth);
      ghost var checked := Now();
      if refusal.Some? {
        CheckStops(doc, old(Now()), checked, o, refusal);
        return;
      }
      refusal := VisitAll(o, depth);
      VisitEnds(doc, old(Now()), checked, Now(), o, refusal);
      if refusal == None { CoveredFromChildren(o, seen); }
    }

    method VisitAll(o: Obj, depth: nat) returns (refusal: Option<Reason>)
      requires Valid() && Within() && depth <= MAX_DEPTH && ReachableAt(doc, o, depth)
      modifies this
      ensures Valid() && Outcome(doc, old(Now()), Now(), WeightAll(Children(o)), refusal)
      ensures refusal == None ==> AllCovered(Children(o), |Children(o)|, seen)
      decreases TOO_DEEP - depth, 0, 1
    {
      ghost var start := Now();
      Stays(doc, start);
      UpToEnds(Children(o));
      for k := 0 to |Children(o)|
        invariant Valid() && Within()
        invariant Done(doc, start, Now(), UpTo(Children(o), k)) && AllCovered(Children(o), k, seen)
      {
        refusal := VisitChild(o, k, depth, start);
        if refusal.Some? { return; }
      }
      DoneMoved(doc, start, Now(), WeightAll(Children(o)));
      refusal := None;
    }

    method VisitChild(o: Obj, k: nat, depth: nat, ghost start: Stand) returns (refusal: Option<Reason>)
      requires Valid() && Within() && depth <= MAX_DEPTH && ReachableAt(doc, o, depth) && k < |Children(o)|
      requires Done(doc, start, Now(), UpTo(Children(o), k)) && AllCovered(Children(o), k, seen)
      modifies this
      ensures Valid()
      ensures refusal == None ==>
                Done(doc, start, Now(), UpTo(Children(o), k + 1)) && AllCovered(Children(o), k + 1, seen)
      ensures refusal.Some? ==> Outcome(doc, start, Now(), WeightAll(Children(o)), refusal)
      decreases TOO_DEEP - depth, 0, 0
    {
      ghost var kids, before := Children(o), Now();
      ReachContains(doc, o, kids[k], depth);
      refusal := Walk(Children(o)[k], depth + 1);
      ChildEnds(doc, start, before, Now(), kids, k, refusal);
      if refusal == None {
        IdsGrow(before.order, order);
        AllCoveredNext(kids, k, Ids(before.order), seen);
      }
    }

    /** A root reference adds nothing but what it leads to. */
    method WalkRoot(id: Id, ghost start: Stand) returns (refusal: Option<Reason>)
      requires Valid() && Done(doc, start, Now(), Weight(doc.trailer)) && IsRoot(doc, Ref(id))
      modifies this
      ensures Valid() && Outcome(doc, start, Now(), Weight(doc.trailer), refusal)
      ensures refusal == None ==> id in seen && old(seen) <= seen
    {
      ghost var before := Now();
      RootIsReachable(doc, Ref(id));
      refusal := Walk(Ref(id), 0);
      OutcomeOn(doc, start, before, Now(), Weight(doc.trailer), refusal);
      IdsGrow(before.order, order);
    }

    /** The trailer, then every listed object, then every object held in a stream. */
    method WalkAll() returns (refusal: Option<Reason>)
      requires Valid() && Now() == Stand(NOTHING, [])
      modifies this
      ensures Valid() && Outcome(doc, old(Now()), Now(), Weight(doc.trailer), refusal)
      ensures refusal == None ==> RootsCovered(doc, seen)
    {
      ghost var start := Now();
      RootIsReachable(doc, doc.trailer);
      refusal := Walk(doc.trailer, 0);
      if refusal.Some? { return; }
      ghost var first := seen;
      refusal := WalkXref(start);
      if refusal.Some? { return; }
      ghost var second := seen;
      refusal := WalkStreams(start);
      if refusal == None {
        assert first <= seen && second <= seen;
        CoveredGrows(doc.trailer, first, seen);
        RootsAreCovered(doc, seen);
      }
    }

    method WalkStreams(ghost start: Stand) returns (refusal: Option<Reason>)
      requires Valid() && Done(doc, start, Now(), Weight(doc.trailer))
      modifies this
      ensures Valid() && Outcome(doc, start, Now(), Weight(doc.trailer), refusal)
      ensures refusal == None ==> old(seen) <= seen && forall num | num in doc.objectStreams :: Id(num, 0) in seen
    {
      refusal := None;
      for k := 0 to |doc.objectStreams|
        invariant refusal == None && Valid() && Done(doc, start, Now(), Weight(doc.trailer)) && old(seen) <= seen
        invariant forall i | 0 <= i < k :: Id(doc.objectStreams[i], 0) in seen
      {
        refusal := WalkRoot(Id(doc.objectStreams[k], 0), start);
        if refusal.Some? { return; }
      }
      DoneMoved(doc, start, Now(), Weight(doc.trailer));
    }

    method WalkXref(ghost start: Stand) returns (refusal: Option<Reason>)
      requires Valid() && Done(doc, start, Now(), Weight(doc.trailer))
      modifies this
      ensures Valid() && Outcome(doc, start, Now(), Weight(doc.trailer), refusal)
      ensures refusal == None ==> old(seen) <= seen && forall id | ListedInXref(doc, id) :: id in seen
    {
      refusal := None;
      for i := 0 to |doc.xref|
        invariant refusal == None && Valid() && Done(doc, start, Now(), Weight(doc.trailer)) && old(seen) <= seen
        invariant forall h | 0 <= h < i :: SectionSeen(h, |doc.xref[h].1|, seen)
      {
        var (generation, offsets) := doc.xref[i];
        if generation == 65535 { continue; }
        ghost var before := seen;
        for k := 0 to |offsets|
          invariant refusal == None && Valid() && Done(doc, start, Now(), Weight(doc.trailer)) && before <= seen
          invariant SectionSeen(i, k, seen)
        {
          if offsets[k] != 0 {
            assert offsets[k] in doc.xref[i].1;
            refusal := WalkRoot(Id(offsets[k], generation), start);
            if refusal.Some? { return; }
          }
        }
      }
      DoneMoved(doc, start, Now(), Weight(doc.trailer));
      forall id | ListedInXref(doc, id) ensures id in seen {
        var h :| 0 <= h < |doc.xref| && doc.xref[h].0 == id.generation && id.num in doc.xref[h].1;
        assert SectionSeen(h, |doc.xref[h].1|, seen);
      }
    }

    /** The first `k` entries of a section that are in use are in `ids`. */
    ghost predicate SectionSeen(h: nat, k: nat, ids: set<Id>) {
      h < |doc.xref| && k <= |doc.xref[h].1| &&
      (doc.xref[h].0 != 65535 ==>
         forall j | 0 <= j < k && doc.xref[h].1[j] != 0 :: Id(doc.xref[h].1[j], doc.xref[h].0) in ids)
    }
  }

  // ---------------------------------------------------------------- the gate

  /** Every reachable reference, once. */
  ghost predicate Census(d: Document, ids: seq<Id>) {
    ReachableIds(d, ids) && forall id :: Reachable(d, Ref(id)) ==> id in ids
  }

  predicate PageOk(p: Page) {
    0.0 < p.width <= MAX_MEDIA_SIDE && 0.0 < p.height <= MAX_MEDIA_SIDE
  }

  ghost predicate AllHarmless(d: Document) {
    forall o :: Reachable(d, o) ==> Fault(o) == None && (o.Ref? ==> o.id in d.objects)
  }

  /** What an accepted document is, in terms of all that can be reached in it and of no visiting order. */
  ghost predicate Acceptable(d: Document) {
    && d.endsWithEof && !d.encrypted && 1 <= |d.pages| <= MAX_PAGES && PagesOk(d.pages)
    && AllHarmless(d)
    && FitsBudget(d)
  }

  ghost predicate FitsBudget(d: Document) {
    exists ids :: Census(d, ids) && Everything(d, ids).AtMost(BUDGET)
  }

  predicate PagesOk(pages: seq<Page>) {
    forall k | 0 <= k < |pages| :: PageOk(pages[k])
  }

  ghost predicate TooManyObjects(d: Document) {
    exists ids :: ReachableIds(d, ids) && Everything(d, ids).objects > MAX_OBJECTS
  }

  ghost predicate TooManyBytes(d: Document) {
    exists ids :: ReachableIds(d, ids) && Everything(d, ids).bytes > MAX_EXPANDED
  }

  /** What each refusal says about the document. */
  ghost predicate Explains(d: Document, reason: Reason) {
    match reason
    case TrailingOrIncomplete => !d.endsWithEof
    case Encrypted => d.encrypted
    case PageLimit => !(1 <= |d.pages| <= MAX_PAGES)
    case PageDimensions => !PagesOk(d.pages)
    case DepthLimit => TooDeep(d)
    case ObjectLimit => TooManyObjects(d)
    case ExpansionLimit => TooManyBytes(d)
    case _ => IsFault(reason) && FaultIsReachable(d, reason)
  }

  /** Except for depth, a document that is refused with reason is none that could be accepted. */
  lemma ExplainedIsNotAcceptable(d: Document, reason: Reason)
    requires Explains(d, reason) && reason != DepthLimit
    ensures !Acceptable(d)
  {
    if reason == ObjectLimit || reason == ExpansionLimit { OverrunDoesNotFit(d); }
  }

  lemma EverythingOfSome(d: Document, some: seq<Id>, all: seq<Id>)
    requires ReachableIds(d, some) && Census(d, all)
    ensures Everything(d, some).AtMost(Everything(d, all))
  {
    TotalOfSome(d, some, all);
  }

  lemma OverrunIsKept(a: Load, b: Load)
    requires a.AtMost(b) && !a.AtMost(BUDGET)
    ensures !b.AtMost(BUDGET)
  {}

  lemma OverrunDoesNotFit(d: Document)
    requires TooManyObjects(d) || TooManyBytes(d)
    ensures !FitsBudget(d)
  {
    var some :| ReachableIds(d, some) && !Everything(d, some).AtMost(BUDGET);
    forall all | Census(d, all) ensures !Everything(d, all).AtMost(BUDGET) {
      EverythingOfSome(d, some, all);
      OverrunIsKept(Everything(d, some), Everything(d, all));
    }
  }

  /** A finished walk that refused nothing leaves a harmless document, counted in full. */
  lemma FinishedIsAcceptable(d: Document, seen: set<Id>, order: seq<Id>)
    requires ReachableIds(d, order) && seen == Ids(order) && RootsCovered(d, seen) && Closed(d, order, seen)
    ensures AllHarmless(d) && Census(d, order)
  {
    forall o | Reachable(d, o) ensures Covered(o, seen) {
      var depth :| ReachableAt(d, o, depth);
      var p :| PathTo(d, p, o, depth);
      CoveredAlongPath(d, seen, order, p, o, depth);
    }
    forall id | Reachable(d, Ref(id)) ensures id in order && id in d.objects {
      assert Covered(Ref(id), seen);
    }
  }

  /** Counts that overran a budget came from distinct reachable objects. */
  lemma OverrunIsExplained(d: Document, b: Stand)
    requires ReachableIds(d, b.order) && Moved(d, Stand(NOTHING, []), b, Weight(d.trailer))
    ensures b.load.objects > MAX_OBJECTS ==> TooManyObjects(d)
    ensures b.load.bytes > MAX_EXPANDED ==> TooManyBytes(d)
  {
    FromStart(d, b);
  }

  lemma JustifiedIsExplained(d: Document, b: Stand, reason: Reason)
    requires ReachableIds(d, b.order) && Moved(d, Stand(NOTHING, []), b, Weight(d.trailer))
    requires JustifiedBy(d, b, reason)
    ensures Explains(d, reason)
  {
    if reason == ObjectLimit || reason == ExpansionLimit { OverrunIsExplained(d, b); }
  }

  lemma FinishIsAcceptable(d: Document, b: Stand)
    requires ReachableIds(d, b.order) && Done(d, Stand(NOTHING, []), b, Weight(d.trailer))
               && RootsCovered(d, Ids(b.order))
    ensures AllHarmless(d) && FitsBudget(d)
  {
    FromStart(d, b);
    FinishedIsAcceptable(d, Ids(b.order), b.order);
  }

  method WalkDocument(d: Document) returns (refusal: Option<Reason>)
    requires Resolved(d)
    ensures refusal == None ==> AllHarmless(d) && FitsBudget(d)
    ensures refusal.Some? ==> Explains(d, refusal.value)
  {
    var walker := new Walker(d);
    refusal := walker.WalkAll();
    if refusal == None {
      FinishIsAcceptable(d, walker.Now());
    } else {
      JustifiedIsExplained(d, walker.Now(), refusal.value);
    }
  }

  /**
   An accepted document object by object: everything reachable is inert, sized and readable, every
   reference resolves, and references and streams stay within their limits.
   */
  ghost predicate Plain(d: Document) {
    && (forall o | Reachable(d, o) :: Inert(o) && Sized(o) && Readable(o) && (o.Ref? ==> o.id in d.objects))
    && (forall o | Reachable(d, o) && o.Dict? && o.stream.Some? && o.stream.value.decoded.Some? ::
          o.stream.value.decoded.value.size <= 16 * 1024 * 1024)
    && (forall ids | ReachableIds(d, ids) :: |ids| <= 20000 && StreamBytes(d, ids) <= 16 * 1024 * 1024)
    && 1 <= |d.pages| <= 20
    && (forall k | 0 <= k < |d.pages| :: 0.0 < d.pages[k].width <= 14400.0 && 0.0 < d.pages[k].height <= 14400.0)
  }

  lemma StreamFits(d: Document, ids: seq<Id>, o: Obj)
    requires Census(d, ids) && Everything(d, ids).AtMost(BUDGET) && Reachable(d, o)
    ensures Decompressed(o) <= MAX_EXPANDED
  {
    var depth :| ReachableAt(d, o, depth);
    var p :| PathTo(d, p, o, depth);
    ReachedIsCounted(d, ids, p, o, depth);
    if !o.Ref? { WeightOfChildren(o); }
  }

  lemma SomeFit(d: Document, all: seq<Id>, ids: seq<Id>)
    requires Resolved(d) && AllHarmless(d) && Census(d, all) && Everything(d, all).AtMost(BUDGET)
    requires ReachableIds(d, ids)
    ensures |ids| <= MAX_OBJECTS && StreamBytes(d, ids) <= MAX_EXPANDED
  {
    forall id | id in ids ensures id in d.objects { assert Reachable(d, Ref(id)); }
    TotalIsAtLeast(d, ids);
    EverythingOfSome(d, ids, all);
  }

  lemma AcceptableIsPlain(d: Document)
    requires Resolved(d) && Acceptable(d)
    ensures Plain(d)
  {
    var all :| Census(d, all) && Everything(d, all).AtMost(BUDGET);
    forall o | Reachable(d, o) ensures Inert(o) && Sized(o) && Readable(o) && Decompressed(o) <= MAX_EXPANDED {
      FaultMeans(o);
      StreamFits(d, all, o);
    }
    forall ids | ReachableIds(d, ids) ensures |ids| <= 20000 && StreamBytes(d, ids) <= 16 * 1024 * 1024 {
      SomeFit(d, all, ids);
    }
    assert PagesOk(d.pages);
    forall k | 0 <= k < |d.pages| ensures 0.0 < d.pages[k].width <= 14400.0 && 0.0 < d.pages[k].height <= 14400.0 {
      assert PageOk(d.pages[k]);
    }
  }

  lemma ActiveIsReachable(d: Document)
    requires Explains(d, ActiveContent)
    ensures exists o :: Reachable(d, o) && !Inert(o)
  {
    var o :| Reachable(d, o) && Fault(o) == Some(ActiveContent);
    FaultMeans(o);
  }

  /**
   None when the document is accepted. An accepted document is harmless as a whole and within its
   budgets; every refusal but the one for depth rules that out.
   */
  method PdfGate(d: Document) returns (refusal: Option<Reason>)
    requires Resolved(d)
    ensures refusal == None ==> Acceptable(d)
    ensures refusal.Some? ==> Explains(d, refusal.value)
    ensures refusal.Some? && refusal != Some(DepthLimit) ==> !Acceptable(d)
    ensures refusal == None ==> Plain(d)
    ensures refusal == Some(ActiveContent) ==> exists o :: Reachable(d, o) && !Inert(o)
    ensures refusal == Some(DepthLimit) ==> exists o :: ReachableAt(d, o, 49)
  {
    refusal := GateInOrder(d);
    if refusal.Some? && refusal != Some(DepthLimit) { ExplainedIsNotAcceptable(d, refusal.value); }
    if refusal == None { AcceptableIsPlain(d); }
    if refusal == Some(ActiveContent) { ActiveIsReachable(d); }
  }

  method GateInOrder(d: Document) returns (refusal: Option<Reason>)
    requires Resolved(d)
    ensures refusal == None ==> Acceptable(d)
    ensures refusal.Some? ==> Explains(d, refusal.value)
  {
    if !d.endsWithEof { return Some(TrailingOrIncomplete); }
    if d.encrypted { return Some(Encrypted); }
    if !(1 <= |d.pages| <= MAX_PAGES) { return Some(PageLimit); }
    refusal := WalkDocument(d);
    if refusal == None { refusal := CheckPages(d.pages); }
  }

  method CheckPages(pages: seq<Page>) returns (refusal: Option<Reason>)
    ensures refusal == if PagesOk(pages) then None else Some(PageDimensions)
  {
    for k := 0 to |pages|
      invariant forall j | 0 <= j < k :: PageOk(pages[j])
    {
      if !PageOk(pages[k]) { return Some(PageDimensions); }
    }
    refusal := None;
  }
}
