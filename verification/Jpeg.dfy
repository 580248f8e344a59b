/** The JPEG walker against a grammar of marker items with a printer. */
module Jpeg {
  import opened Prelude
  import opened Bytes

  datatype Reason = Marker | TrailingData | UnexpectedMarker | SegmentBounds | Incomplete

  const EOI: byte := 0xd9
  const SOI: byte := 0xd8
  const SOS: byte := 0xda
  const TEM: byte := 0x01

  predicate IsRestart(code: byte) {
    0xd0 <= code <= 0xd7
  }

  // ---------------------------------------------------------------- grammar

  /**
   Entropy-coded bytes before the marker (only in a scan), its fill bytes, its code and the
   contents of the segment it starts, if it starts one.
   */
  datatype Item = Item(entropy: seq<byte>, fill: nat, code: byte, payload: seq<byte>)

  /** In a scan a zero or a restart code belongs to the entropy-coded data. */
  predicate InScan(code: byte, scan: bool) {
    scan && (code == 0 || IsRestart(code))
  }

  predicate HasSegment(code: byte, scan: bool) {
    !InScan(code, scan) && code != EOI && code != TEM
  }

  predicate Allowed(code: byte, scan: bool) {
    code != 255 && (InScan(code, scan) || (code != SOI && code != 0 && !IsRestart(code)))
  }

  predicate WellFormed(item: Item, scan: bool) {
    && (scan || item.entropy == [])
    && 255 !in item.entropy
    && item.fill >= 1
    && Allowed(item.code, scan)
    && (if HasSegment(item.code, scan) then |item.payload| + 2 < 0x1_0000 else item.payload == [])
  }

  /** Whether what follows the item is entropy-coded data. */
  predicate ScanAfter(code: byte, scan: bool) {
    InScan(code, scan) || code == SOS
  }

  /** Items up to and including the end-of-image marker, which comes last and nowhere else. */
  predicate WellFormedList(items: seq<Item>, scan: bool) {
    && items != []
    && WellFormed(items[0], scan)
    && (items[0].code == EOI <==> |items| == 1)
    && (items[0].code != EOI ==> WellFormedList(items[1..], ScanAfter(items[0].code, scan)))
  }

  function Fill(n: nat): seq<byte> {
    if n == 0 then [] else [255] + Fill(n - 1)
  }

  function Body(item: Item, scan: bool): seq<byte> {
    if HasSegment(item.code, scan) && |item.payload| + 2 < 0x1_0000 then Be16(|item.payload| + 2) + item.payload else []
  }

  function PrintItem(item: Item, scan: bool): seq<byte> {
    item.entropy + (Fill(item.fill) + ([item.code] + Body(item, scan)))
  }

  function Print(items: seq<Item>, scan: bool): seq<byte> {
    if items == [] then []
    else PrintItem(items[0], scan) + Print(items[1..], ScanAfter(items[0].code, scan))
  }

  // ---------------------------------------------------------------- the walker, one item at a time

  /** `bytes.find(b'\xff')`, with the length for "not found". */
  function Find(s: seq<byte>): (n: nat)
    ensures n <= |s|
    ensures n < |s| ==> s[n] == 255
    ensures 255 !in s[..n]
  {
    if s == [] || s[0] == 255 then 0
    else
      var n := Find(s[1..]) + 1;
      assert s[..n] == [s[0]] + s[1..][..n - 1];
      n
  }

  /** The number of leading fill bytes. */
  function Leading(s: seq<byte>): (n: nat)
    ensures n <= |s| && s[..n] == Fill(n)
    ensures n < |s| ==> s[n] != 255
  {
    if s == [] || s[0] != 255 then 0
    else
      var n := Leading(s[1..]) + 1;
      assert s[..n] == [255] + s[1..][..n - 1];
      n
  }

  datatype Step = Stop(reason: Reason) | Last(item: Item) | More(item: Item, rest: seq<byte>, scan: bool)

  /** After the code byte: `s` is what follows it. */
  function AfterCode(entropy: seq<byte>, fill: nat, code: byte, s: seq<byte>, scan: bool): Step {
    if InScan(code, scan) then More(Item(entropy, fill, code, []), s, true)
    else if code == EOI then (if s != [] then Stop(TrailingData) else Last(Item(entropy, fill, code, [])))
    else if code == SOI || code == 0 || IsRestart(code) then Stop(UnexpectedMarker)
    else if code == TEM then More(Item(entropy, fill, code, []), s, false)
    else if |s| < 2 then Stop(Incomplete)
    else
      var length := FromBe16(s[..2]);
      if length < 2 || length > |s| then Stop(SegmentBounds)
      else More(Item(entropy, fill, code, s[2..length]), s[length..], code == SOS)
  }

  /** From a marker on: its fill bytes, its code and what the code starts. */
  function AtMarker(entropy: seq<byte>, t: seq<byte>, scan: bool): Step
    requires t != []
  {
    var fill := Leading(t);
    if fill == 0 then Stop(Marker)
    else if fill == |t| then Stop(Incomplete)
    else AfterCode(entropy, fill, t[fill], t[fill + 1..], scan)
  }

  /** One round of the walk over a non-empty rest. */
  function Next(s: seq<byte>, scan: bool): Step
    requires s != []
  {
    var m := if scan then Find(s) else 0;
    if m == |s| then Stop(Incomplete) else AtMarker(s[..m], s[m..], scan)
  }

  lemma NextShrinks(s: seq<byte>, scan: bool)
    requires s != []
    ensures Next(s, scan).More? ==> |Next(s, scan).rest| < |s|
  {}

  function Parse(s: seq<byte>, scan: bool): Result<seq<Item>, Reason>
    decreases |s|
  {
    if s == [] then Err(Incomplete)
    else
      NextShrinks(s, scan);
      match Next(s, scan)
      case Stop(reason) => Err(reason)
      case Last(item) => Ok([item])
      case More(item, rest, after) =>
        match Parse(rest, after)
        case Ok(items) => Ok([item] + items)
        case Err(reason) => Err(reason)
  }

  // ---------------------------------------------------------------- what was read is what prints

  lemma FillFront(n: nat)
    ensures |Fill(n)| == n && (n > 0 ==> Fill(n)[0] == 255)
  {}

  lemma AfterCodePrints(entropy: seq<byte>, fill: nat, code: byte, s: seq<byte>, scan: bool)
    requires (scan || entropy == []) && 255 !in entropy && fill >= 1 && code != 255
    ensures var step := AfterCode(entropy, fill, code, s, scan);
            && (step.Last? ==> WellFormed(step.item, scan) && step.item.code == EOI
                               && step.item == Item(entropy, fill, code, [])
                               && [code] + Body(step.item, scan) == [code] + s)
            && (step.More? ==> WellFormed(step.item, scan) && step.item.code == code != EOI
                               && step.scan == ScanAfter(code, scan)
                               && step.item.entropy == entropy && step.item.fill == fill
                               && Body(step.item, scan) + step.rest == s)
  {
    if HasSegment(code, scan) && |s| >= 2 {
      var length := FromBe16(s[..2]);
      RoundTrip16(s[..2], length);
      if 2 <= length <= |s| {
        assert s == s[..2] + s[2..length] + s[length..];
      }
    }
  }

  lemma PrintThenRest(item: Item, rest: seq<byte>, scan: bool)
    ensures PrintItem(item, scan) + rest == item.entropy + (Fill(item.fill) + ([item.code] + (Body(item, scan) + rest)))
  {
    var body := Body(item, scan);
    assert [item.code] + body + rest == [item.code] + (body + rest);
    assert Fill(item.fill) + ([item.code] + body) + rest == Fill(item.fill) + ([item.code] + (body + rest));
  }

  lemma AtMarkerPrints(entropy: seq<byte>, t: seq<byte>, scan: bool)
    requires t != [] && (scan || entropy == []) && 255 !in entropy
    ensures var step := AtMarker(entropy, t, scan);
            && (step.Last? ==> WellFormed(step.item, scan) && step.item.code == EOI
                               && PrintItem(step.item, scan) == entropy + t)
            && (step.More? ==> WellFormed(step.item, scan) && step.item.code != EOI
                               && step.scan == ScanAfter(step.item.code, scan)
                               && PrintItem(step.item, scan) + step.rest == entropy + t)
  {
    var fill := Leading(t);
    if 0 < fill < |t| {
      AfterCodePrints(entropy, fill, t[fill], t[fill + 1..], scan);
      assert t == Fill(fill) + ([t[fill]] + t[fill + 1..]);
      var step := AtMarker(entropy, t, scan);
      if step.More? { PrintThenRest(step.item, step.rest, scan); }
    }
  }

  lemma NextPrints(s: seq<byte>, scan: bool)
    requires s != []
    ensures var step := Next(s, scan);
            && (step.Last? ==> WellFormed(step.item, scan) && step.item.code == EOI && PrintItem(step.item, scan) == s)
            && (step.More? ==> WellFormed(step.item, scan) && step.item.code != EOI
                               && step.scan == ScanAfter(step.item.code, scan)
                               && PrintItem(step.item, scan) + step.rest == s)
  {
    var m := if scan then Find(s) else 0;
    if m < |s| {
      AtMarkerPrints(s[..m], s[m..], scan);
      assert s == s[..m] + s[m..];
    }
  }

  /** Soundness: accepted data is the print of the items that were read. */
  lemma {:induction false} ParsePrints(s: seq<byte>, scan: bool)
    requires Parse(s, scan).Ok?
    ensures WellFormedList(Parse(s, scan).value, scan) && Print(Parse(s, scan).value, scan) == s
    decreases |s|
  {
    NextShrinks(s, scan);
    NextPrints(s, scan);
    var step := Next(s, scan);
    if step.Last? {
      assert Print([step.item][1..], ScanAfter(step.item.code, scan)) == [];
    } else {
      ParsePrints(step.rest, step.scan);
      var items := Parse(step.rest, step.scan).value;
      assert ([step.item] + items)[1..] == items;
    }
  }

  // ---------------------------------------------------------------- what prints is read back

  lemma {:induction false} FindSkips(entropy: seq<byte>, rest: seq<byte>)
    requires 255 !in entropy && rest != [] && rest[0] == 255
    ensures Find(entropy + rest) == |entropy|
  {
    if entropy == [] {
      assert entropy + rest == rest;
    } else {
      assert (entropy + rest)[1..] == entropy[1..] + rest;
      assert entropy[0] in entropy && forall b | b in entropy[1..] :: b in entropy;
      FindSkips(entropy[1..], rest);
    }
  }

  lemma {:induction false} LeadingSkips(n: nat, code: byte, rest: seq<byte>)
    requires code != 255
    ensures Leading(Fill(n) + ([code] + rest)) == n
  {
    if n == 0 {
      assert Fill(0) + ([code] + rest) == [code] + rest;
    } else {
      LeadingSkips(n - 1, code, rest);
      LeadingOneMore(n, [code] + rest);
    }
  }

  lemma LeadingOneMore(n: nat, s: seq<byte>)
    requires 0 < n
    ensures Leading(Fill(n) + s) == Leading(Fill(n - 1) + s) + 1
  {
    assert (Fill(n) + s)[0] == 255 && (Fill(n) + s)[1..] == Fill(n - 1) + s;
  }

  lemma AfterCodeReads(item: Item, rest: seq<byte>, scan: bool)
    requires WellFormed(item, scan) && (item.code == EOI ==> rest == [])
    ensures AfterCode(item.entropy, item.fill, item.code, Body(item, scan) + rest, scan) ==
            if item.code == EOI then Last(item) else More(item, rest, ScanAfter(item.code, scan))
  {
    var s := Body(item, scan) + rest;
    if HasSegment(item.code, scan) {
      var length := |item.payload| + 2;
      RoundTrip16(Be16(length), length);
      assert s[..2] == Be16(length);
      assert s[2..length] == item.payload && s[length..] == rest;
    } else {
      assert s == rest;
    }
  }

  lemma AtMarkerReads(item: Item, rest: seq<byte>, scan: bool)
    requires WellFormed(item, scan) && (item.code == EOI ==> rest == [])
    ensures var t := Fill(item.fill) + ([item.code] + (Body(item, scan) + rest));
            && t != [] && t[0] == 255
            && AtMarker(item.entropy, t, scan) == if item.code == EOI then
                Last(item) else More(item, rest, ScanAfter(item.code, scan))
  {
    var tail := Body(item, scan) + rest;
    var t := Fill(item.fill) + ([item.code] + tail);
    FillFront(item.fill);
    LeadingSkips(item.fill, item.code, tail);
    assert t[item.fill] == item.code && t[item.fill + 1..] == tail;
    AfterCodeReads(item, rest, scan);
  }

  lemma NextReads(item: Item, rest: seq<byte>, scan: bool)
    requires WellFormed(item, scan) && (item.code == EOI ==> rest == [])
    ensures PrintItem(item, scan) != []
    ensures Next(PrintItem(item, scan) + rest, scan) ==
            if item.code == EOI then Last(item) else More(item, rest, ScanAfter(item.code, scan))
  {
    var t := Fill(item.fill) + ([item.code] + (Body(item, scan) + rest));
    var s := PrintItem(item, scan) + rest;
    PrintThenRest(item, rest, scan);
    AtMarkerReads(item, rest, scan);
    FindSkips(item.entropy, t);
    assert s[..|item.entropy|] == item.entropy && s[|item.entropy|..] == t;
  }

  /** Completeness: every print of a well-formed list is accepted, and the very list is read back. */
  lemma {:induction false} PrintParses(items: seq<Item>, scan: bool)
    requires WellFormedList(items, scan)
    ensures Parse(Print(items, scan), scan) == Ok(items)
    decreases |items|
  {
    var after := ScanAfter(items[0].code, scan);
    var rest := Print(items[1..], after);
    if items[0].code == EOI { assert items[1..] == [] && rest == []; }
    NextReads(items[0], rest, scan);
    NextShrinks(Print(items, scan), scan);
    if items[0].code == EOI {
      assert items == [items[0]];
    } else {
      PrintParses(items[1..], after);
      assert items == [items[0]] + items[1..];
    }
  }

  /** The walk accepts exactly the prints of marker lists, and the list is unique. */
  lemma AcceptsExactlyPrints(s: seq<byte>, items: seq<Item>)
    ensures Parse(s, false) == Ok(items) <==> WellFormedList(items, false) && Print(items, false) == s
  {
    if Parse(s, false) == Ok(items) { ParsePrints(s, false); }
    if WellFormedList(items, false) && Print(items, false) == s { PrintParses(items, false); }
  }

  // ---------------------------------------------------------------- what an accepted list looks like

  /** Zero and the eight restart codes, which only entropy-coded data may contain. */
  predicate IsEntropyCode(code: byte) {
    code == 0 || (0xd0 <= code && code <= 0xd7)
  }

  /** Item `k` is in a scan: the last item before it that is not entropy-coded starts one. */
  ghost predicate ScanAt(items: seq<Item>, scan: bool, k: nat)
    requires k <= |items|
  {
    || (scan && forall i | 0 <= i < k :: IsEntropyCode(items[i].code))
    || exists j :: 0 <= j < k && items[j].code == 0xda && forall i | j < i < k :: IsEntropyCode(items[i].code)
  }

  ghost predicate ItemFits(items: seq<Item>, scan: bool, k: nat)
    requires k < |items|
  {
    var item := items[k];
    && item.fill > 0 && item.code != 0xff && item.code != 0xd8
    && (item.code == 0xd9 <==> k == |items| - 1)
    && (IsEntropyCode(item.code) || item.entropy != [] ==> ScanAt(items, scan, k))
    && 255 !in item.entropy
    && if IsEntropyCode(item.code) || item.code == 0xd9 || item.code == 0x01 then item.payload == []
       else |item.payload| <= 65533
  }

  lemma {:induction false} ScanBegins(items: seq<Item>, scan: bool, k: nat)
    requires items != [] && k < |items| && WellFormed(items[0], scan)
    requires ScanAt(items[1..], ScanAfter(items[0].code, scan), k)
    ensures ScanAt(items, scan, k + 1)
  {
    var rest := items[1..];
    assert forall i | 0 <= i < k :: rest[i] == items[i + 1];
    if j :| 0 <= j < k && rest[j].code == 0xda && forall i | j < i < k :: IsEntropyCode(rest[i].code) {
      assert items[j + 1].code == 0xda;
      forall i | j + 1 < i < k + 1 ensures IsEntropyCode(items[i].code) { assert items[i] == rest[i - 1]; }
    } else {
      forall i | 0 < i < k + 1 ensures IsEntropyCode(items[i].code) { assert items[i] == rest[i - 1]; }
    }
  }

  lemma FirstFits(items: seq<Item>, scan: bool)
    requires WellFormedList(items, scan)
    ensures ItemFits(items, scan, 0)
  {}

  lemma LaterFits(items: seq<Item>, scan: bool, k: nat)
    requires WellFormedList(items, scan) && 0 < k < |items|
    requires ItemFits(items[1..], ScanAfter(items[0].code, scan), k - 1)
    ensures ItemFits(items, scan, k)
  {
    if ScanAt(items[1..], ScanAfter(items[0].code, scan), k - 1) { ScanBegins(items, scan, k - 1); }
  }

  /**
   What the recursive grammar says about a whole file: the end marker last and nowhere else, no second
   start marker, entropy-coded data and its codes only in scans, segments of at most 65533 bytes.
   */
  lemma {:induction false} ShapeOfItems(items: seq<Item>, scan: bool, k: nat)
    requires WellFormedList(items, scan) && k < |items|
    ensures ItemFits(items, scan, k)
    decreases k
  {
    if k == 0 {
      FirstFits(items, scan);
    } else {
      ShapeOfItems(items[1..], ScanAfter(items[0].code, scan), k - 1);
      LaterFits(items, scan, k);
    }
  }

  // ---------------------------------------------------------------- the loop

  function AfterSoi(data: seq<byte>): seq<byte> {
    if |data| < 2 then [] else data[2..]
  }

  function Verdict(r: Result<seq<Item>, Reason>): Option<Reason> {
    match r case Ok(_) => None case Err(reason) => Some(reason)
  }

  /**
   None when the data is accepted, else the reason of the refusal. Termination of the loop is
   the strict progress of the position.
   */
  method JpegStructure(data: seq<byte>) returns (refusal: Option<Reason>)
    ensures refusal == Verdict(Parse(AfterSoi(data), false))
    ensures refusal == None <==> exists items :: WellFormedList(items, false) && Print(items, false) == AfterSoi(data)
  {
    refusal := Walk(data);
    var s := AfterSoi(data);
    if refusal == None {
      AcceptsExactlyPrints(s, Parse(s, false).value);
    } else {
      forall items ensures !(WellFormedList(items, false) && Print(items, false) == s) {
        AcceptsExactlyPrints(s, items);
      }
    }
  }

  /** What the walk still has to say from a position on. */
  function From(data: seq<byte>, pos: nat, scan: bool): Option<Reason> {
    if pos < |data| then Verdict(Parse(data[pos..], scan)) else Some(Incomplete)
  }

  lemma RoundFrom(data: seq<byte>, pos: nat, scan: bool, marker: nat, fill: nat)
    requires pos < |data| && marker == if scan then pos + Find(data[pos..]) else pos
    requires marker < |data| && fill == Leading(data[marker..])
    ensures fill == 0 ==> From(data, pos, scan) == Some(Marker)
    ensures fill > 0 && marker + fill == |data| ==> From(data, pos, scan) == Some(Incomplete)
    ensures fill > 0 && marker + fill < |data| ==>
              var code, rest := data[marker + fill], data[marker + fill + 1..];
              Next(data[pos..], scan) == AfterCode(data[pos..marker], fill, code, rest, scan)
  {
    var s := data[pos..];
    assert s[..marker - pos] == data[pos..marker] && s[marker - pos..] == data[marker..];
    assert marker + fill < |data| ==>
        data[marker..][fill] == data[marker + fill] && data[marker..][fill + 1..] == data[marker + fill + 1..];
  }

  lemma StepFrom(data: seq<byte>, pos: nat, scan: bool, next: nat, after: bool)
    requires pos < |data| && next <= |data|
    requires Next(data[pos..], scan).More? && Next(data[pos..], scan).rest == data[next..]
               && Next(data[pos..], scan).scan == after
    ensures From(data, pos, scan) == From(data, next, after)
  {
    var s := data[pos..];
    NextShrinks(s, scan);
    assert Verdict(Parse(s, scan)) == Verdict(Parse(data[next..], after));
    if next == |data| { assert data[next..] == []; }
  }

  lemma StopFrom(data: seq<byte>, pos: nat, scan: bool)
    requires pos < |data|
    ensures Next(data[pos..], scan).Stop? ==> From(data, pos, scan) == Some(Next(data[pos..], scan).reason)
    ensures Next(data[pos..], scan).Last? ==> From(data, pos, scan) == None
  {
    NextShrinks(data[pos..], scan);
  }

  /** How one round ends: the walk is over, or it goes on at a later position. */
  datatype Turn = Halt(refusal: Option<Reason>) | Go(pos: nat, scan: bool)

  ghost predicate Turns(data: seq<byte>, pos: nat, step: Step, turn: Turn)
  {
    match step
    case Stop(reason) => turn == Halt(Some(reason))
    case Last(_) => turn == Halt(None)
    case More(_, rest, scan) => turn.Go? && pos <= turn.pos <= |data| && rest == data[turn.pos..] && scan == turn.scan
  }

  lemma TurnFrom(data: seq<byte>, pos: nat, scan: bool, at: nat, step: Step, turn: Turn)
    requires pos < at && pos < |data| && Next(data[pos..], scan) == step && Turns(data, at, step, turn)
    ensures Continues(data, pos, scan, turn)
  {
    StopFrom(data, pos, scan);
    if step.More? { StepFrom(data, pos, scan, turn.pos, turn.scan); }
  }

  /** What the code byte before `pos` leads to. */
  method AtCode(data: seq<byte>, pos: nat, code: byte, scan: bool, ghost entropy: seq<byte>, ghost fill: nat)
    returns (turn: Turn)
    requires pos <= |data|
    ensures Turns(data, pos, AfterCode(entropy, fill, code, data[pos..], scan), turn)
  {
    if scan && (code == 0 || IsRestart(code)) { return Go(pos, true); }
    if code == EOI { return Halt(if pos != |data| then Some(TrailingData) else None); }
    if code == SOI || code == 0 || IsRestart(code) { return Halt(Some(UnexpectedMarker)); }
    if code == TEM { return Go(pos, false); }
    if pos + 2 > |data| { return Halt(Some(Incomplete)); }
    assert data[pos..][..2] == data[pos..pos + 2];
    var length := FromBe16(data[pos..pos + 2]);
    if length < 2 || pos + length > |data| { return Halt(Some(SegmentBounds)); }
    assert data[pos..][length..] == data[pos + length..];
    turn := Go(pos + length, code == SOS);
  }

  /** The position of the next marker: right here, or in a scan wherever the next 0xff is. */
  method Seek(data: seq<byte>, pos: nat, scan: bool) returns (marker: nat)
    requires pos < |data|
    ensures pos <= marker <= |data| && marker == if scan then pos + Find(data[pos..]) else pos
    ensures marker == |data| ==> From(data, pos, scan) == Some(Incomplete)
  {
    marker := pos;
    if scan { marker := pos + Find(data[pos..]); }
    StopFrom(data, pos, scan);
  }

  /** One round of the loop; going on means strict progress. */
  method Round(data: seq<byte>, pos: nat, scan: bool) returns (turn: Turn)
    requires pos < |data|
    ensures turn.Halt? ==> From(data, pos, scan) == turn.refusal
    ensures turn.Go? ==> pos < turn.pos <= |data| && From(data, pos, scan) == From(data, turn.pos, turn.scan)
  {
    var marker := Seek(data, pos, scan);
    if marker == |data| { return Halt(Some(Incomplete)); }
    LeadingMeans(data, marker);
    RoundFrom(data, pos, scan, marker, Leading(data[marker..]));
    if data[marker] != 255 { return Halt(Some(Marker)); }
    var at := SkipFill(data, marker);
    if at >= |data| { return Halt(Some(Incomplete)); }
    turn := RoundAt(data, pos, scan, marker, at);
  }

  lemma LeadingMeans(data: seq<byte>, marker: nat)
    requires marker < |data|
    ensures Leading(data[marker..]) == 0 <==> data[marker] != 255
  {}

  /** The rest of a round, from the code byte behind the fill bytes. */
  method RoundAt(data: seq<byte>, pos: nat, scan: bool, ghost marker: nat, at: nat) returns (turn: Turn)
    requires CodeIsAt(data, pos, scan, marker, at)
    ensures Continues(data, pos, scan, turn)
  {
    turn := AtCode(data, at + 1, data[at], scan, data[pos..marker], at - marker);
    CodeFrom(data, pos, scan, marker, at, turn);
  }

  /** The marker starts at `marker` and its code byte, behind the fill bytes, is at `at`. */
  predicate CodeIsAt(data: seq<byte>, pos: nat, scan: bool, marker: nat, at: nat) {
    && pos <= marker < at < |data| && marker == (if scan then pos + Find(data[pos..]) else pos)
    && at == marker + Leading(data[marker..])
  }

  predicate Continues(data: seq<byte>, pos: nat, scan: bool, turn: Turn)
    requires pos < |data|
  {
    && (turn.Halt? ==> From(data, pos, scan) == turn.refusal)
    && (turn.Go? ==> pos < turn.pos <= |data| && From(data, pos, scan) == From(data, turn.pos, turn.scan))
  }

  lemma CodeFrom(data: seq<byte>, pos: nat, scan: bool, marker: nat, at: nat, turn: Turn)
    requires CodeIsAt(data, pos, scan, marker, at)
    requires Turns(data, at + 1, AfterCode(data[pos..marker], at - marker, data[at], data[at + 1..], scan), turn)
    ensures Continues(data, pos, scan, turn)
  {
    NextAtCode(data, pos, scan, marker, at);
    TurnFrom(data, pos, scan, at + 1, Next(data[pos..], scan), turn);
  }

  lemma NextAtCode(data: seq<byte>, pos: nat, scan: bool, marker: nat, at: nat)
    requires CodeIsAt(data, pos, scan, marker, at)
    ensures Next(data[pos..], scan) == AfterCode(data[pos..marker], at - marker, data[at], data[at + 1..], scan)
  {
    var s := data[pos..];
    assert s[..marker - pos] == data[pos..marker] && s[marker - pos..] == data[marker..];
    AtCodeByte(data, marker, at, data[pos..marker], scan);
  }

  lemma AtCodeByte(data: seq<byte>, marker: nat, at: nat, entropy: seq<byte>, scan: bool)
    requires marker < at < |data| && at == marker + Leading(data[marker..])
    ensures AtMarker(entropy, data[marker..], scan) == AfterCode(entropy, at - marker, data[at], data[at + 1..], scan)
  {
    assert data[marker..][at - marker] == data[at] && data[marker..][at - marker + 1..] == data[at + 1..];
  }

  method Walk(data: seq<byte>) returns (refusal: Option<Reason>)
    ensures refusal == Verdict(Parse(AfterSoi(data), false))
  {
    var pos, scan := 2, false;
    while pos < |data|
      invariant From(data, 2, false) == From(data, pos, scan)
      decreases |data| - pos
    {
      var turn := Round(data, pos, scan);
      if turn.Halt? { return turn.refusal; }
      pos, scan := turn.pos, turn.scan;
    }
    refusal := Some(Incomplete);
  }

  /** The inner loop over fill bytes. */
  method SkipFill(data: seq<byte>, start: nat) returns (pos: nat)
    requires start < |data|
    ensures start <= pos <= |data| && pos == start + Leading(data[start..])
  {
    pos := start;
    while pos < |data| && data[pos] == 255
      invariant start <= pos <= |data|
      invariant Leading(data[start..]) == (pos - start) + Leading(data[pos..])
    {
      assert data[pos..][1..] == data[pos + 1..];
      pos := pos + 1;
    }
  }
}
