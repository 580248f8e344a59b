/** The journal as bytes: one encoded row a line, appended; and what a reader splits it into. */
module Journal {
  import opened Prelude
  import opened Bytes
  import opened Json

  const NEWLINE: byte := 10
  const RETURN: byte := 13

  /** The JSON library: how a row is written, and what bytes are read as. */
  datatype Codec = Codec(enc: Json -> seq<byte>, dec: seq<byte> -> Option<Json>)

  predicate Breaks(b: byte) {
    b == NEWLINE || b == RETURN
  }

  predicate Blank(line: seq<byte>) {
    forall k | 0 <= k < |line| :: line[k] in {9, 10, 11, 12, 13, 32}
  }

  predicate OneLine(s: seq<byte>) {
    forall k | 0 <= k < |s| :: !Breaks(s[k])
  }

  /**
   What the library promises of one row: it is written on one line starting with a brace, it is
   read back with or without its line end, and no strict part from its start is a document.
   */
  ghost predicate Encodes(c: Codec, row: Json) {
    var s := c.enc(row);
    && OneLine(s) && s != [] && s[0] == 123
    && c.dec(s) == Some(row) && c.dec(s + [NEWLINE]) == Some(row)
    && forall n | 0 < n < |s| :: c.dec(s[..n]) == None
  }

  ghost predicate AllEncode(c: Codec, rows: seq<Json>) {
    forall k | 0 <= k < |rows| :: Encodes(c, rows[k])
  }

  function Line(c: Codec, row: Json): seq<byte> {
    c.enc(row) + [NEWLINE]
  }

  /** A whole journal. */
  function Text(c: Codec, rows: seq<Json>): seq<byte> {
    if rows == [] then [] else Text(c, rows[..|rows| - 1]) + Line(c, rows[|rows| - 1])
  }

  lemma TextNext(c: Codec, rows: seq<Json>, row: Json)
    ensures Text(c, rows + [row]) == Text(c, rows) + Line(c, row)
  {
    assert (rows + [row])[..|rows|] == rows;
  }

  /** Where the first line ends, its line end included. */
  function LineEnd(s: seq<byte>, k: nat): (n: nat)
    requires k <= |s|
    ensures k <= n <= |s| && (k < |s| ==> k < n)
    decreases |s| - k
  {
    if k == |s| then k
    else if s[k] == RETURN && k + 1 < |s| && s[k + 1] == NEWLINE then k + 2
    else if Breaks(s[k]) then k + 1
    else LineEnd(s, k + 1)
  }

  /** The lines with their ends, as the reader splits them. */
  function Lines(s: seq<byte>): seq<seq<byte>> {
    if s == [] then [] else [s[..LineEnd(s, 0)]] + Lines(s[LineEnd(s, 0)..])
  }

  lemma {:induction false} LineEndsAt(s: seq<byte>, k: nat, n: nat)
    requires k <= n < |s| && s[n] == NEWLINE && forall i | k <= i < n :: !Breaks(s[i])
    ensures LineEnd(s, k) == n + 1
    decreases n - k
  {
    if k < n { LineEndsAt(s, k + 1, n); }
  }

  lemma {:induction false} NoLineEnd(s: seq<byte>, k: nat)
    requires k <= |s| && forall i | k <= i < |s| :: !Breaks(s[i])
    ensures LineEnd(s, k) == |s|
    decreases |s| - k
  {
    if k < |s| { NoLineEnd(s, k + 1); }
  }

  lemma LinesOfLine(line: seq<byte>, rest: seq<byte>)
    requires OneLine(line)
    ensures Lines(line + [NEWLINE] + rest) == [line + [NEWLINE]] + Lines(rest)
  {
    var s := line + [NEWLINE] + rest;
    LineEndsAt(s, 0, |line|);
    assert s[..|line| + 1] == line + [NEWLINE] && s[|line| + 1..] == rest;
  }

  lemma LinesOfRest(rest: seq<byte>)
    requires OneLine(rest)
    ensures Lines(rest) == if rest == [] then [] else [rest]
  {
    NoLineEnd(rest, 0);
    assert rest[..|rest|] == rest && rest[|rest|..] == [];
  }

  /** The lines of `rows` and what follows them. */
  function RowLines(c: Codec, rows: seq<Json>): (lines: seq<seq<byte>>)
    ensures |lines| == |rows| && forall k | 0 <= k < |rows| :: lines[k] == Line(c, rows[k])
  {
    seq(|rows|, k requires 0 <= k < |rows| => Line(c, rows[k]))
  }

  lemma {:induction false} LinesOfText(c: Codec, rows: seq<Json>, rest: seq<byte>)
    requires AllEncode(c, rows)
    ensures Lines(Text(c, rows) + rest) == RowLines(c, rows) + Lines(rest)
    decreases |rows|
  {
    if rows == [] {
      assert Text(c, rows) + rest == rest && RowLines(c, rows) == [];
    } else {
      var front, row := rows[..|rows| - 1], rows[|rows| - 1];
      assert Encodes(c, row) && AllEncode(c, front);
      LinesOfText(c, front, Line(c, row) + rest);
      LinesOfLine(c.enc(row), rest);
      assert Text(c, rows) + rest == Text(c, front) + (Line(c, row) + rest);
      assert RowLines(c, rows) == RowLines(c, front) + [Line(c, row)];
    }
  }

  /** Cutting a journal at any byte leaves whole lines and at most one cut row. */
  lemma {:induction false} CutText(c: Codec, rows: seq<Json>, n: nat) returns (m: nat, rest: seq<byte>)
    requires n <= |Text(c, rows)|
    ensures m <= |rows| && Text(c, rows)[..n] == Text(c, rows[..m]) + rest
    ensures rest == [] || (m < |rows| && |rest| <= |c.enc(rows[m])| && rest == c.enc(rows[m])[..|rest|])
    decreases |rows|
  {
    if rows == [] {
      return 0, [];
    }
    var front, row := rows[..|rows| - 1], rows[|rows| - 1];
    var before := Text(c, front);
    if n <= |before| {
      m, rest := CutText(c, front, n);
      assert Text(c, rows)[..n] == before[..n];
      assert front[..m] == rows[..m];
    } else if n == |Text(c, rows)| {
      m, rest := |rows|, [];
      assert rows[..m] == rows && Text(c, rows)[..n] == Text(c, rows);
    } else {
      m, rest := |front|, c.enc(row)[..n - |before|];
      assert Text(c, rows)[..n] == before + rest;
    }
  }
}
