/**
 * The line-by-line comparators that check a GATT listing against a table
 * kept in program memory: one compares Fletcher-16 checksums, the other
 * compares the text itself. Both advance a shared state one line at a time.
 */
module Comparator {
  import opened CTypes
  import opened Fletcher
  import opened GattReference

  /** The table a comparator reads from: checksums or reference strings. */
  datatype ReferenceTable = Checksums(sums: seq<u16>) | TextLines(lines: seq<Line>)
  {
    function Length(): (n: nat)
    {
      match this
      case Checksums(sums) => |sums|
      case TextLines(lines) => |lines|
    }
  }

  /** A line as handed to a callback: its length travels as a `uint16_t`. */
  predicate Fits(line: Line)
  {
    |line| <= 0xFFFF
  }

  predicate AllFit(lines: seq<Line>)
  {
    forall k :: 0 <= k < |lines| ==> Fits(lines[k])
  }

  /** The byte at index `i` of a NUL-terminated string holding `s`. */
  function CharAt(s: Line, i: nat): (c: Char)
  {
    if i < |s| then s[i] else '\0'
  }

  /** `strnlen(s, maxlen)`: the length of `s` up to its first NUL, at most `maxlen`. */
  function StrnLen(s: Line, maxlen: nat): (n: nat)
    ensures n <= maxlen
    ensures n <= |s|
    ensures forall i :: 0 <= i < n ==> s[i] != '\0'
    ensures n < maxlen && n < |s| ==> s[n] == '\0'
    decreases maxlen
  {
    if maxlen == 0 || s == [] || s[0] == '\0' then 0 else 1 + StrnLen(s[1..], maxlen - 1)
  }

  /** `strncmp(a, b, n) == 0`: the strings agree on their first `n` bytes or up to a shared NUL. */
  predicate StrnEqual(a: Line, b: Line, n: nat)
    decreases n
  {
    n == 0 ||
    (CharAt(a, 0) == CharAt(b, 0) &&
     (CharAt(a, 0) == '\0' || StrnEqual(if a == [] then [] else a[1..], if b == [] then [] else b[1..], n - 1)))
  }

  /**
   * The string comparator's test for one line: the reference is exactly as
   * long as the line (measured with a limit of `line_len + 1`, which wraps
   * to 0 in 16-bit arithmetic), and the two agree on `line_len` bytes.
   */
  predicate TextLineMatches(line: Line, reference: Line)
    requires Fits(line)
  {
    |line| == StrnLen(reference, (|line| + 1) % 0x1_0000) && StrnEqual(line, reference, |line|)
  }

  /** Whether `line` matches entry `k` of the table. */
  predicate LineMatches(table: ReferenceTable, k: nat, line: Line)
    requires k < table.Length()
    requires Fits(line)
  {
    match table
    case Checksums(sums) => sums[k] == Checksum(line)
    case TextLines(references) => TextLineMatches(line, references[k])
  }

  /** The comparator state as a value. */
  datatype ComparatorState = ComparatorState(isEqual: bool, lineNumber: u8, totalLines: u8, table: ReferenceTable)
  {
    /** Every line the comparator may look up is in the table. */
    predicate Valid()
    {
      totalLines as int <= table.Length()
    }
  }

  /** The state in which a listing comparison starts. */
  function Start(totalLines: u8, table: ReferenceTable): (st: ComparatorState)
  {
    ComparatorState(true, 0, totalLines, table)
  }

  /** One callback: lines past `totalLines` are ignored; otherwise the line is compared and counted. */
  function Visit(st: ComparatorState, line: Line): (r: ComparatorState)
    requires st.Valid() && Fits(line)
    ensures r.Valid() && r.table == st.table && r.totalLines == st.totalLines
  {
    if st.lineNumber >= st.totalLines then st
    else st.(isEqual := st.isEqual && LineMatches(st.table, st.lineNumber as int, line),
             lineNumber := st.lineNumber + 1)
  }

  /** The state after a callback for each line of a reply, in order. */
  function VisitAll(st: ComparatorState, lines: seq<Line>): (r: ComparatorState)
    requires st.Valid() && AllFit(lines)
    ensures r.Valid() && r.table == st.table && r.totalLines == st.totalLines
    decreases |lines|
  {
    if lines == [] then st else VisitAll(Visit(st, lines[0]), lines[1..])
  }

  /** How many of `n` further lines are compared rather than ignored. */
  function Compared(st: ComparatorState, n: nat): (counted: nat)
  {
    if st.lineNumber >= st.totalLines then 0
    else if n <= st.totalLines - st.lineNumber then n
    else st.totalLines - st.lineNumber
  }

  /** Once the line counter has reached `totalLines`, further lines change nothing. */
  lemma {:induction false} VisitAllIgnoresSurplus(st: ComparatorState, lines: seq<Line>)
    requires st.Valid() && AllFit(lines)
    requires st.lineNumber >= st.totalLines
    ensures VisitAll(st, lines) == st
    decreases |lines|
  {
    if lines != [] {
      VisitAllIgnoresSurplus(Visit(st, lines[0]), lines[1..]);
    }
  }

  /** The line counter counts the compared lines and never passes `totalLines`. */
  lemma {:induction false} VisitAllCounts(st: ComparatorState, lines: seq<Line>)
    requires st.Valid() && AllFit(lines)
    requires st.lineNumber <= st.totalLines
    ensures VisitAll(st, lines).lineNumber as int == st.lineNumber as int + Compared(st, |lines|)
    ensures VisitAll(st, lines).lineNumber <= st.totalLines
    decreases |lines|
  {
    if lines != [] {
      VisitAllCounts(Visit(st, lines[0]), lines[1..]);
    }
  }

  /**
   * The verdict: the listing is reported equal exactly when it was equal on
   * entry and every compared line matched its table entry.
   */
  lemma {:induction false} VisitAllVerdict(st: ComparatorState, lines: seq<Line>)
    requires st.Valid() && AllFit(lines)
    ensures VisitAll(st, lines).isEqual <==>
      st.isEqual &&
      forall k :: 0 <= k < Compared(st, |lines|) ==> LineMatches(st.table, st.lineNumber as int + k, lines[k])
    decreases |lines|
  {
    if lines != [] && st.lineNumber < st.totalLines {
      var next := Visit(st, lines[0]);
      VisitAllVerdict(next, lines[1..]);
      assert Compared(st, |lines|) == 1 + Compared(next, |lines| - 1);
      forall k | 0 <= k < Compared(next, |lines| - 1)
        ensures LineMatches(next.table, next.lineNumber as int + k, lines[1..][k])
             == LineMatches(st.table, st.lineNumber as int + (k + 1), lines[k + 1])
      {
      }
    } else if lines != [] {
      VisitAllIgnoresSurplus(st, lines);
    }
  }

  /** A mismatch is never forgotten. */
  lemma VisitAllKeepsMismatch(st: ComparatorState, lines: seq<Line>)
    requires st.Valid() && AllFit(lines)
    requires !st.isEqual
    ensures !VisitAll(st, lines).isEqual
  {
    VisitAllVerdict(st, lines);
  }

  lemma {:induction false} StrnLenOfNulFree(s: Line, maxlen: nat)
    requires '\0' !in s
    ensures StrnLen(s, maxlen) == if maxlen <= |s| then maxlen else |s|
    decreases maxlen
  {
    if maxlen > 0 && s != [] {
      assert s[0] in s;
      assert forall c :: c in s[1..] ==> c in s;
      StrnLenOfNulFree(s[1..], maxlen - 1);
    }
  }

  lemma {:induction false} StrnEqualSameLength(a: Line, b: Line)
    requires '\0' !in b && |a| == |b|
    ensures StrnEqual(a, b, |a|) <==> a == b
    decreases |a|
  {
    if a != [] {
      assert b[0] in b;
      assert forall c :: c in b[1..] ==> c in b;
      StrnEqualSameLength(a[1..], b[1..]);
      if a[0] == b[0] && a[1..] == b[1..] {
        assert a == [a[0]] + a[1..] && b == [b[0]] + b[1..];
      }
    }
  }

  /**
   * For a reference without NUL bytes, the string comparator accepts a line
   * exactly when it equals the reference; a line of 65535 bytes is never
   * accepted, because the length limit `line_len + 1` wraps to 0.
   */
  lemma TextLineMatchesIffEqual(line: Line, reference: Line)
    requires Fits(line)
    requires '\0' !in reference
    ensures |line| < 0xFFFF ==> (TextLineMatches(line, reference) <==> line == reference)
    ensures |line| == 0xFFFF ==> !TextLineMatches(line, reference)
  {
    var limit := (|line| + 1) % 0x1_0000;
    StrnLenOfNulFree(reference, limit);
    if |line| == 0xFFFF {
      assert limit == 0;
    } else {
      assert limit == |line| + 1;
      if |line| == |reference| {
        StrnEqualSameLength(line, reference);
      }
    }
  }

  /** The checksum table of a list of reference strings. */
  function ChecksumsOf(references: seq<Line>): (sums: seq<u16>)
    ensures |sums| == |references|
    ensures forall k :: 0 <= k < |references| ==> sums[k] == Checksum(references[k])
  {
    if references == [] then [] else [Checksum(references[0])] + ChecksumsOf(references[1..])
  }

  /**
   * Whenever the string comparator reports a listing equal, the checksum
   * comparator with the checksums of the same references does too.
   */
  lemma TextVerdictImpliesChecksumVerdict(totalLines: u8, references: seq<Line>, lines: seq<Line>)
    requires totalLines as int <= |references| && AllFit(lines)
    requires forall k :: 0 <= k < |references| ==> '\0' !in references[k]
    requires VisitAll(Start(totalLines, TextLines(references)), lines).isEqual
    ensures VisitAll(Start(totalLines, Checksums(ChecksumsOf(references))), lines).isEqual
  {
    var text := Start(totalLines, TextLines(references));
    var sums := Start(totalLines, Checksums(ChecksumsOf(references)));
    VisitAllVerdict(text, lines);
    VisitAllVerdict(sums, lines);
    assert Compared(text, |lines|) == Compared(sums, |lines|);
    forall k | 0 <= k < Compared(sums, |lines|)
      ensures LineMatches(sums.table, k, lines[k])
    {
      assert LineMatches(text.table, k, lines[k]);
      TextLineMatchesIffEqual(lines[k], references[k]);
    }
  }

  /**
   * The converse does not hold: a one-line reply that differs from "OK"
   * passes the checksum comparator and fails the string comparator.
   */
  lemma ChecksumVerdictWeakerThanText()
    ensures VisitAll(Start(1, Checksums(ChecksumsOf(["OK"]))), [['\U{1}', 'M', 'L']]).isEqual
    ensures !VisitAll(Start(1, TextLines(["OK"])), [['\U{1}', 'M', 'L']]).isEqual
  {
    var reply: seq<Line> := [['\U{1}', 'M', 'L']];
    Collision();
    VisitAllVerdict(Start(1, Checksums(ChecksumsOf(["OK"]))), reply);
    VisitAllVerdict(Start(1, TextLines(["OK"])), reply);
    TextLineMatchesIffEqual(reply[0], "OK");
  }

  /** The reference listing itself passes both comparators. */
  lemma ReferenceListingAccepted()
    ensures AllFit(ExpectedGattDefinitions)
    ensures VisitAll(Start(ExpectedGattLineCount, Checksums(ExpectedGattChecksums)), ExpectedGattDefinitions).isEqual
    ensures VisitAll(Start(ExpectedGattLineCount, TextLines(ExpectedGattDefinitions)), ExpectedGattDefinitions).isEqual
  {
    ListingPassesChecksums();
    ListingPassesText();
  }

  lemma ListingPassesChecksums()
    ensures AllFit(ExpectedGattDefinitions)
    ensures VisitAll(Start(ExpectedGattLineCount, Checksums(ExpectedGattChecksums)), ExpectedGattDefinitions).isEqual
  {
    ChecksumTableMatchesListing();
    var lines := ExpectedGattDefinitions;
    assert AllFit(lines);
    VisitAllVerdict(Start(ExpectedGattLineCount, Checksums(ExpectedGattChecksums)), lines);
  }

  lemma ListingPassesText()
    ensures AllFit(ExpectedGattDefinitions)
    ensures VisitAll(Start(ExpectedGattLineCount, TextLines(ExpectedGattDefinitions)), ExpectedGattDefinitions).isEqual
  {
    var lines := ExpectedGattDefinitions;
    assert AllFit(lines);
    VisitAllVerdict(Start(ExpectedGattLineCount, TextLines(lines)), lines);
    ListingIsNulFree();
    forall k | 0 <= k < |lines|
      ensures TextLineMatches(lines[k], lines[k])
    {
      TextLineMatchesIffEqual(lines[k], lines[k]);
    }
  }

  /** The firmware's comparator state, updated in place by the line callbacks. */
  class ProgmemComparatorState {
    var isEqual: bool
    var lineNumber: u8
    var totalLines: u8
    var pgmEntryTable: ReferenceTable

    function State(): (st: ComparatorState)
      reads this
    {
      ComparatorState(isEqual, lineNumber, totalLines, pgmEntryTable)
    }

    /** A comparison about to start: nothing compared yet, and equal so far. */
    constructor (totalLines: u8, table: ReferenceTable)
      requires totalLines as int <= table.Length()
      ensures State() == Start(totalLines, table)
    {
      isEqual := true;
      lineNumber := 0;
      this.totalLines := totalLines;
      pgmEntryTable := table;
    }

    /** The callback for a checksum table: one line of the reply, `linebuf[..lineLen]`. */
    method Fletcher16ComparatorCallback(linebuf: Line, lineLen: u16)
      requires State().Valid() && pgmEntryTable.Checksums?
      requires lineLen as int <= |linebuf|
      modifies this
      ensures State() == Visit(old(State()), linebuf[..lineLen])
    {
      if lineNumber >= totalLines {
        return;
      }
      var nextPgmHash := pgmEntryTable.sums[lineNumber];
      var computed := Fletcher16(linebuf, lineLen);
      var hashesMatched := nextPgmHash == computed;
      isEqual := isEqual && hashesMatched;
      lineNumber := lineNumber + 1;
    }

    /** The callback for a table of reference strings. */
    method StringComparatorCallback(linebuf: Line, lineLen: u16)
      requires State().Valid() && pgmEntryTable.TextLines?
      requires lineLen as int <= |linebuf|
      modifies this
      ensures State() == Visit(old(State()), linebuf[..lineLen])
    {
      if lineNumber >= totalLines {
        return;
      }
      var nextPgmLine := pgmEntryTable.lines[lineNumber];
      var nextPgmLineLen := StrnLen(nextPgmLine, (lineLen as int + 1) % 0x1_0000);
      var linesMatched := StrnEqual(linebuf[..lineLen], nextPgmLine, lineLen as int);
      isEqual := isEqual && lineLen as int == nextPgmLineLen && linesMatched;
      lineNumber := lineNumber + 1;
    }
  }
}
