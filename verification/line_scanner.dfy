/** The end-of-line search of `SMTPConnection.ProcessArrow`: bytes are read one at a
    time into a buffer, a three-state scanner watches for CR and LF, and once the
    scanner reports the end of a line the whole buffer, terminator included, is
    handed on and the buffer and scanner are reset. */
module LineScanner {
  import opened Wrappers
  import opened Ascii

  /** `EOLSearch`: no terminator yet, a CR was just read, the line is complete. */
  datatype EOLSearch = NotYet | R_Read | EoL_Found

  /** The scanner's transition on one byte. The source has no branch for
      `EoL_Found`, which therefore stays as it is. */
  function NextState(st: EOLSearch, b: byte): (r: EOLSearch)
    ensures st != EoL_Found ==> (r == EoL_Found <==> b == LF)
    ensures st == NotYet && b == CR ==> r == R_Read
    ensures st == R_Read && b != LF ==> r == NotYet
  {
    match st
    case NotYet => if b == LF then EoL_Found else if b == CR then R_Read else NotYet
    case R_Read => if b == LF then EoL_Found else NotYet
    case EoL_Found => EoL_Found
  }

  /** The `MemoryStream` holding the bytes of the current line and the scan state. */
  datatype Scanner = Scanner(buffer: seq<byte>, state: EOLSearch)

  const Initial := Scanner([], NotYet)

  /** What holds of the scanner at the start of every byte: the scanner is never
      found in `EoL_Found`, the buffer holds no LF, and `R_Read` means the buffer
      ends in a CR. */
  predicate Valid(sc: Scanner) {
    && sc.state != EoL_Found
    && LF !in sc.buffer
    && (sc.state == R_Read ==> sc.buffer != [] && sc.buffer[|sc.buffer| - 1] == CR)
  }

  /** One `DataAvailable` byte: the new scanner, and the completed line if the byte
      ended one. */
  function Feed(sc: Scanner, b: byte): (r: (Scanner, Option<seq<byte>>))
    requires Valid(sc)
    ensures Valid(r.0)
    ensures r.1.Some? <==> b == LF
    ensures r.1.Some? ==> r.1.value == sc.buffer + [b] && r.0 == Initial
    ensures r.1.None? ==> r.0.buffer == sc.buffer + [b]
    ensures r.1.None? && sc.state == NotYet && b == CR ==> r.0.state == R_Read
    ensures r.1.None? && sc.state == R_Read ==> r.0.state == NotYet
  {
    var st := NextState(sc.state, b);
    var buf := sc.buffer + [b];
    if st == EoL_Found then (Initial, Some(buf)) else (Scanner(buf, st), None)
  }

  /** Feeding a whole byte sequence: the completed lines in order, and the scanner
      left over. */
  function FeedAll(sc: Scanner, bs: seq<byte>): (r: (Scanner, seq<seq<byte>>))
    requires Valid(sc)
    ensures Valid(r.0)
    decreases |bs|
  {
    if bs == [] then (sc, [])
    else
      var next := Feed(sc, bs[0]);
      var rest := FeedAll(next.0, bs[1..]);
      (rest.0, (if next.1.Some? then [next.1.value] else []) + rest.1)
  }

  function Flatten(lines: seq<seq<byte>>): seq<byte> {
    if lines == [] then [] else lines[0] + Flatten(lines[1..])
  }

  /** A line as the read loop delivers it: one LF, at its very end. */
  predicate IsLine(line: seq<byte>) {
    line != [] && line[|line| - 1] == LF && LF !in line[..|line| - 1]
  }

  /** Every line the scanner completes ends at its first LF. */
  lemma {:induction false} FeedAllLines(sc: Scanner, bs: seq<byte>)
    requires Valid(sc)
    ensures forall k :: 0 <= k < |FeedAll(sc, bs).1| ==> IsLine(FeedAll(sc, bs).1[k])
    decreases |bs|
  {
    if bs != [] {
      var next := Feed(sc, bs[0]);
      FeedAllLines(next.0, bs[1..]);
      if next.1.Some? {
        var line := next.1.value;
        assert line[..|line| - 1] == sc.buffer;
      }
    }
  }

  /** The completed lines followed by the left-over buffer spell out exactly the
      bytes fed, after what was already buffered. */
  lemma {:induction false} FeedAllConcat(sc: Scanner, bs: seq<byte>)
    requires Valid(sc)
    ensures Flatten(FeedAll(sc, bs).1) + FeedAll(sc, bs).0.buffer == sc.buffer + bs
    decreases |bs|
  {
    if bs != [] {
      var next := Feed(sc, bs[0]);
      var rest := FeedAll(next.0, bs[1..]);
      FeedAllConcat(next.0, bs[1..]);
      var pre: seq<seq<byte>> := if next.1.Some? then [next.1.value] else [];
      assert FeedAll(sc, bs) == (rest.0, pre + rest.1);
      assert Flatten(pre) + next.0.buffer == sc.buffer + [bs[0]];
      FlattenAppend(pre, rest.1);
      Regroup(Flatten(pre), Flatten(rest.1), next.0.buffer, rest.0.buffer, sc.buffer, bs[0], bs[1..]);
      assert [bs[0]] + bs[1..] == bs;
    }
  }

  lemma Regroup<T>(p: seq<T>, f: seq<T>, nb: seq<T>, rb: seq<T>, buf: seq<T>, b: T, tail: seq<T>)
    requires p + nb == buf + [b]
    requires f + rb == nb + tail
    ensures (p + f) + rb == buf + ([b] + tail)
  {
    calc {
      (p + f) + rb;
      p + (f + rb);
      p + (nb + tail);
      (p + nb) + tail;
      buf + [b] + tail;
    }
  }

  lemma {:induction false} FlattenAppend(a: seq<seq<byte>>, b: seq<seq<byte>>)
    ensures Flatten(a + b) == Flatten(a) + Flatten(b)
  {
    if a == [] {
      assert a + b == b;
    } else {
      assert (a + b)[1..] == a[1..] + b;
      FlattenAppend(a[1..], b);
    }
  }

  /** The independent description of the line framing: whatever the bytes, the
      completed lines followed by the left-over buffer spell out exactly the bytes
      fed (after what was already buffered), every completed line ends at its
      first LF, and what stays buffered holds no LF. So the lines are precisely
      the LF-terminated segments of the input, CRs included. */
  lemma FeedAllFrames(sc: Scanner, bs: seq<byte>)
    requires Valid(sc)
    ensures Flatten(FeedAll(sc, bs).1) + FeedAll(sc, bs).0.buffer == sc.buffer + bs
    ensures forall k :: 0 <= k < |FeedAll(sc, bs).1| ==> IsLine(FeedAll(sc, bs).1[k])
    ensures LF !in FeedAll(sc, bs).0.buffer
  {
    FeedAllLines(sc, bs);
    FeedAllConcat(sc, bs);
  }

  /** Bytes with no LF never complete a line: they all wait in the buffer. */
  lemma {:induction false} FeedAllWithoutLF(sc: Scanner, bs: seq<byte>)
    requires Valid(sc)
    requires LF !in bs
    ensures FeedAll(sc, bs).1 == []
    ensures FeedAll(sc, bs).0.buffer == sc.buffer + bs
    decreases |bs|
  {
    if bs != [] {
      var next := Feed(sc, bs[0]);
      assert bs[0] != LF;
      assert LF !in bs[1..];
      FeedAllWithoutLF(next.0, bs[1..]);
      assert sc.buffer + [bs[0]] + bs[1..] == sc.buffer + bs;
    }
  }
}
