/** What a PDF object may not be, read off its entries by their places. */
module PdfContent {
  import opened Prelude
  import opened PdfGraph

  /** The `k`-th entry is the one that a look-up of `key` finds: no entry before it has that key. */
  predicate Stands(keys: seq<string>, values: seq<Obj>, key: string, k: nat) {
    k < |keys| && k < |values| && keys[k] == key && forall j | 0 <= j < k :: keys[j] != key
  }

  predicate Entry(o: Obj, key: string, k: nat) {
    o.Dict? && Stands(o.keys, o.values, key, k)
  }

  lemma {:induction false} GetAt(keys: seq<string>, values: seq<Obj>, key: string, k: nat)
    requires Stands(keys, values, key, k)
    ensures Get(keys, values, key) == Some(values[k])
  {
    if k > 0 {
      assert keys[0] != key;
      assert Stands(keys[1..], values[1..], key, k - 1);
      GetAt(keys[1..], values[1..], key, k - 1);
    }
  }

  lemma {:induction false} PlaceOf(keys: seq<string>, values: seq<Obj>, key: string) returns (k: nat)
    requires Get(keys, values, key).Some?
    ensures Stands(keys, values, key, k)
  {
    if keys[0] == key {
      k := 0;
    } else {
      k := PlaceOf(keys[1..], values[1..], key);
      k := k + 1;
      assert forall j | 0 < j < k :: keys[j] == keys[1..][j - 1];
    }
  }

  /** A look-up gives exactly the value that stands at the first place of the key, if there is one. */
  lemma GetFinds(keys: seq<string>, values: seq<Obj>, key: string, v: Obj)
    ensures Get(keys, values, key) == Some(v) <==> exists k: nat :: Stands(keys, values, key, k) && values[k] == v
  {
    if Get(keys, values, key) == Some(v) {
      var k := PlaceOf(keys, values, key);
      GetAt(keys, values, key, k);
    }
    if k: nat :| Stands(keys, values, key, k) && values[k] == v { GetAt(keys, values, key, k); }
  }

  // ---------------------------------------------------------------- the conditions

  predicate Denied(name: string) {
    || name == "/JS" || name == "/JavaScript" || name == "/Launch" || name == "/EmbeddedFiles"
    || name == "/EmbeddedFile" || name == "/RichMedia" || name == "/XFA" || name == "/AA"
    || name == "/OpenAction" || name == "/SubmitForm" || name == "/ImportData"
  }

  /** The entry under `key` is this name or string, written directly. */
  ghost predicate Says(o: Obj, key: string, text: string) {
    exists k: nat :: Entry(o, key, k) && o.values[k].Atom? && o.values[k].text == text
  }

  /** No key is denied, and neither is what the object says it does or is. */
  ghost predicate Inert(o: Obj) {
    o.Dict? ==>
      && (forall k | 0 <= k < |o.keys| :: !Denied(o.keys[k]))
      && (forall text | Says(o, "/S", text) || Says(o, "/Type", text) :: !Denied(text))
  }

  /** The entry under `key` is this integer. */
  ghost predicate Numbered(o: Obj, key: string, n: int) {
    exists k: nat :: Entry(o, key, k) && o.values[k].Atom? && o.values[k].number == Some(n)
  }

  predicate WithinLimits(w: int, h: int) {
    0 < w <= 6000 && 0 < h <= 6000 && w * h <= 16_000_000
  }

  /** An image says its width and height, and they are within limits. */
  ghost predicate Sized(o: Obj) {
    Says(o, "/Subtype", "/Image") ==>
      exists w, h :: Numbered(o, "/Width", w) && Numbered(o, "/Height", h) && WithinLimits(w, h)
  }

  /** A stream can be decoded, and where it is declared to be XML it parses and has no document type. */
  ghost predicate Readable(o: Obj) {
    o.Dict? && o.stream.Some? ==>
      && o.stream.value.decoded.Some?
      && (Says(o, "/Subtype", "/XML") || Says(o, "/Type", "/Metadata") ==> o.stream.value.decoded.value.xml == Harmless)
  }

  // ---------------------------------------------------------------- what the checks find

  lemma TextMeans(o: Obj, key: string, text: string)
    requires o.Dict? && text != ""
    ensures TextAt(o, key) == text <==> Says(o, key, text)
  {
    var v := Get(o.keys, o.values, key);
    if v.Some? {
      var k := PlaceOf(o.keys, o.values, key);
      GetAt(o.keys, o.values, key, k);
      assert Entry(o, key, k);
    }
    if Says(o, key, text) {
      var k: nat :| Entry(o, key, k) && o.values[k].Atom? && o.values[k].text == text;
      GetAt(o.keys, o.values, key, k);
    }
  }

  /** An absent entry reads as zero, which is no size. */
  lemma NumberMeans(o: Obj, key: string, n: int)
    requires o.Dict? && n != 0
    ensures NumberAt(o, key) == Some(n) <==> Numbered(o, key, n)
  {
    var v := Get(o.keys, o.values, key);
    if v.Some? {
      var k := PlaceOf(o.keys, o.values, key);
      GetAt(o.keys, o.values, key, k);
      assert Entry(o, key, k);
    }
    if Numbered(o, key, n) {
      var k: nat :| Entry(o, key, k) && o.values[k].Atom? && o.values[k].number == Some(n);
      GetAt(o.keys, o.values, key, k);
    }
  }

  lemma DeniedMeans(name: string)
    ensures name in DENIED <==> Denied(name)
  {}

  lemma ActiveMeans(o: Obj)
    requires o.Dict?
    ensures IsActive(o) <==> !Inert(o)
  {
    forall k | 0 <= k < |o.keys| ensures o.keys[k] in DENIED <==> Denied(o.keys[k]) { DeniedMeans(o.keys[k]); }
    forall key, text | Denied(text) ensures TextAt(o, key) == text <==> Says(o, key, text) { TextMeans(o, key, text); }
    DeniedMeans(TextAt(o, "/S"));
    DeniedMeans(TextAt(o, "/Type"));
  }

  lemma ImageMeans(o: Obj)
    requires o.Dict?
    ensures ImageFault(o) == None <==> Sized(o)
    ensures ImageFault(o) == Some(DimensionLimit) ==> Says(o, "/Subtype", "/Image")
  {
    TextMeans(o, "/Subtype", "/Image");
    forall key, n | n != 0 ensures NumberAt(o, key) == Some(n) <==> Numbered(o, key, n) { NumberMeans(o, key, n); }
    if Says(o, "/Subtype", "/Image") && Sized(o) {
      var w, h :| Numbered(o, "/Width", w) && Numbered(o, "/Height", h) && WithinLimits(w, h);
      assert NumberAt(o, "/Width") == Some(w) && NumberAt(o, "/Height") == Some(h);
    }
    if Says(o, "/Subtype", "/Image") && ImageFault(o) == None {
      var w, h := NumberAt(o, "/Width").value, NumberAt(o, "/Height").value;
      assert Numbered(o, "/Width", w) && Numbered(o, "/Height", h) && WithinLimits(w, h);
    }
  }

  lemma StreamMeans(o: Obj)
    requires o.Dict?
    ensures StreamFault(o) == None <==> Readable(o)
  {
    TextMeans(o, "/Subtype", "/XML");
    TextMeans(o, "/Type", "/Metadata");
  }

  /** An object passes every check exactly if it is inert, sized and readable; the first failing one is named. */
  lemma FaultMeans(o: Obj)
    ensures Fault(o) == None <==> Inert(o) && Sized(o) && Readable(o)
    ensures Fault(o) == Some(ActiveContent) <==> !Inert(o)
    ensures Fault(o) == Some(DimensionLimit) ==> !Sized(o)
    ensures Fault(o) == Some(DtdForbidden) ==> !Readable(o)
  {
    if o.Dict? {
      ActiveMeans(o);
      ImageMeans(o);
      StreamMeans(o);
    }
  }

  // ---------------------------------------------------------------- how much there may be

  /** The decoded sizes of the streams among these indirect objects, added up. */
  function StreamBytes(d: Document, ids: seq<Id>): nat {
    if ids == [] then 0
    else
      var id := ids[|ids| - 1];
      StreamBytes(d, ids[..|ids| - 1]) +
      if id !in d.objects then 0
      else match d.objects[id]
        case Dict(_, _, Some(Stream(Some(decoded)))) => decoded.size
        case _ => 0
  }

  /** Each indirect object counts as one at least, and with all that its stream decodes to. */
  lemma {:induction false} TotalIsAtLeast(d: Document, ids: seq<Id>)
    requires Resolved(d) && forall id | id in ids :: id in d.objects
    ensures |ids| <= Total(d, ids).objects && StreamBytes(d, ids) <= Total(d, ids).bytes
  {
    if ids != [] {
      var n := |ids| - 1;
      TotalIsAtLeast(d, ids[..n]);
      assert ids[n] in ids;
      WeightOfChildren(d.objects[ids[n]]);
    }
  }

  lemma KidIsNoHeavier(kids: seq<Obj>, k: nat)
    requires k < |kids|
    ensures Weight(kids[k]).AtMost(WeightAll(kids))
  {
    WeightOfNext(kids, k);
    WeightOfPrefix(kids, k + 1);
  }

  lemma OneOfTotal(d: Document, ids: seq<Id>, id: Id)
    requires id in ids
    ensures WeightOfId(d, id).AtMost(Total(d, ids))
  {
    var k :| 0 <= k < |ids| && ids[k] == id;
    TotalWithout(d, ids, k);
  }

  /** Nothing that can be reached is heavier than the trailer and all reachable indirect objects together. */
  lemma {:induction false} ReachedIsCounted(d: Document, ids: seq<Id>, p: seq<Obj>, o: Obj, depth: nat)
    requires PathTo(d, p, o, depth) && forall id :: Reachable(d, Ref(id)) ==> id in ids
    ensures Weight(o).AtMost(Everything(d, ids))
    decreases |p|
  {
    if |p| > 1 {
      var q := p[..|p| - 1];
      var a := q[|q| - 1];
      if Follows(d, a, o) && PathTo(d, q, a, depth) {
        assert ReachableAt(d, a, depth) && a == Ref(a.id);
        OneOfTotal(d, ids, a.id);
      } else {
        ReachedIsCounted(d, ids, q, a, depth - 1);
        var k :| 0 <= k < |Children(a)| && Children(a)[k] == o;
        KidIsNoHeavier(Children(a), k);
        WeightOfChildren(a);
      }
    }
  }
}
