/** The line-scanner layer: a source of already-split lines (standing in for
    bufio.Scanner), the filtering wrapper that skips lines failing a
    predicate, and the buffered wrapper that adds one line of pushback.

    Each wrapper holds the scanner it wraps, so a scanner stack is one
    recursive value. Scan and Text return the successor state: Text is not a
    pure accessor, because the buffered wrapper's Text clears its pushback
    flag and records the line it returns. */
module BufScan {
  import opened Base

  datatype Scanner =
      /** The underlying line source: `pos` lines have been scanned so far;
          a failed Scan moves `pos` past the end, after which Err reports
          `err`, the read error (if any) that ended the input. */
    | Source(lines: seq<string>, pos: nat, err: Option<Error>)
      /** filteredScanner: never yields a line for which `keep` is false. */
    | Filtered(inner: Scanner, keep: string -> bool)
      /** bufferedScanner: `last` is the line Text last returned; while
          `buffered` is set, Scan and Text replay it. */
    | Buffered(inner: Scanner, last: string, buffered: bool)

  /** Lines the stack can still deliver: unread source lines plus a pending
      pushback. Every successful Scan/Text pair lowers it. */
  function Pending(s: Scanner): nat {
    match s
    case Source(lines, pos, _) => if pos < |lines| then |lines| - pos else 0
    case Filtered(inner, _) => Pending(inner)
    case Buffered(inner, _, buffered) => Pending(inner) + (if buffered then 1 else 0)
  }

  /** The current line, and the state after reading it. */
  function Text(s: Scanner): (r: (string, Scanner))
    ensures Pending(r.1) <= Pending(s)
  {
    match s
    case Source(lines, pos, _) =>
      (if 0 < pos <= |lines| then lines[pos - 1] else "", s)
    case Filtered(inner, keep) =>
      var (line, inner') := Text(inner);
      (line, Filtered(inner', keep))
    case Buffered(inner, last, buffered) =>
      if buffered then (last, Buffered(inner, last, false))
      else
        var (line, inner') := Text(inner);
        (line, Buffered(inner', line, false))
  }

  /** Advances to the next line; false once the input is exhausted. A
      successful Scan followed by Text always consumes something. */
  function Scan(s: Scanner): (r: (bool, Scanner))
    ensures Pending(r.1) <= Pending(s)
    ensures r.0 ==> Pending(Text(r.1).1) < Pending(s)
    decreases Pending(s), s
  {
    match s
    case Source(lines, pos, err) =>
      if pos < |lines| then (true, Source(lines, pos + 1, err))
      else (false, Source(lines, |lines| + 1, err))
    case Buffered(inner, last, buffered) =>
      if buffered then (true, s)
      else
        var (ok, inner') := Scan(inner);
        (ok, Buffered(inner', last, false))
    case Filtered(inner, keep) =>
      var (ok, inner1) := Scan(inner);
      if !ok then (false, Filtered(inner1, keep))
      else
        var (line, inner2) := Text(inner1);
        if keep(line) then (true, Filtered(inner2, keep))
        else Scan(Filtered(inner2, keep))
  }

  /** The line source at the bottom of a scanner stack. */
  function Bottom(s: Scanner): (b: Scanner)
    ensures b.Source?
  {
    match s
    case Source(_, _, _) => s
    case Filtered(inner, _) => Bottom(inner)
    case Buffered(inner, _, _) => Bottom(inner)
  }

  /** The read error. Every wrapper delegates to the scanner it wraps, so a
      whole stack reports the error of the line source at its bottom: None
      until the source is exhausted, then the error that ended it. */
  function Err(s: Scanner): (e: Option<Error>)
    ensures var b := Bottom(s); e == (if b.pos > |b.lines| then b.err else None)
  {
    match s
    case Source(lines, pos, err) => if pos > |lines| then err else None
    case Filtered(inner, _) => Err(inner)
    case Buffered(inner, _, _) => Err(inner)
  }

  /** Marks the last line returned by Text as not yet consumed: the next
      Scan succeeds and the next Text replays that line. */
  function Unscan(s: Scanner): (u: Scanner)
    requires s.Buffered?
    ensures Scan(u) == (true, u)
    ensures Text(u) == (s.last, s.(buffered := false))
  {
    s.(buffered := true)
  }

  /** The lines a scanner yields through repeated Scan/Text, and the error
      Err reports once Scan has returned false. */
  function Drain(s: Scanner): (r: (seq<string>, Option<Error>))
    ensures |r.0| <= Pending(s)
    decreases Pending(s)
  {
    var (ok, s1) := Scan(s);
    if !ok then ([], Err(s1))
    else
      var (line, s2) := Text(s1);
      var rest := Drain(s2);
      ([line] + rest.0, rest.1)
  }

  /** A stack without a buffered layer: Text reads without changing it. */
  predicate Unbuffered(s: Scanner) {
    match s
    case Source(_, _, _) => true
    case Filtered(inner, _) => Unbuffered(inner)
    case Buffered(_, _, _) => false
  }

  // ----- properties of the buffered wrapper -----

  /** With a pushback pending, Scan succeeds without touching the wrapped
      scanner, and Text replays the recorded line and clears the flag. */
  lemma PendingPushbackReplays(s: Scanner)
    requires s.Buffered? && s.buffered
    ensures Scan(s) == (true, s)
    ensures Text(s) == (s.last, s.(buffered := false))
  {
  }

  /** Pushing back the line Text just returned and reading again gives the
      same line and leads back to the same state. */
  lemma {:induction false} UnscanThenRescan(s: Scanner)
    requires s.Buffered?
    ensures var (line, s1) := Text(s);
      var u := Unscan(s1);
      Scan(u) == (true, u) && Text(u) == (line, s1)
  {
    var (line, s1) := Text(s);
    assert s1.last == line && !s1.buffered;
  }

  /** Unscan only sets a flag: a second Unscan changes nothing, so pushback
      is one line deep. */
  lemma UnscanIdempotent(s: Scanner)
    requires s.Buffered?
    ensures Unscan(Unscan(s)) == Unscan(s)
  {
  }

  /** With no pushback pending, the buffered wrapper is transparent: it
      yields exactly the lines and the error of the scanner it wraps. */
  lemma {:induction false} BufferedTransparent(inner: Scanner, last: string)
    ensures Drain(Buffered(inner, last, false)) == Drain(inner)
    decreases Pending(inner)
  {
    var (ok, i1) := Scan(inner);
    if ok {
      var (line, i2) := Text(i1);
      BufferedTransparent(i2, line);
    }
  }

  // ----- properties of the filtering wrapper -----

  lemma {:induction false} UnbufferedTextIsPure(s: Scanner)
    requires Unbuffered(s)
    ensures Text(s).1 == s
  {
    if s.Filtered? {
      UnbufferedTextIsPure(s.inner);
    }
  }

  lemma {:induction false} ScanKeepsUnbuffered(s: Scanner)
    requires Unbuffered(s)
    ensures Unbuffered(Scan(s).1)
    decreases Pending(s), s
  {
    if s.Filtered? {
      ScanKeepsUnbuffered(s.inner);
      var (ok, i1) := Scan(s.inner);
      if ok {
        UnbufferedTextIsPure(i1);
        ScanKeepsUnbuffered(Filtered(i1, s.keep));
      }
    }
  }

  /** A successful Scan of the filtering wrapper stops only on a line that
      satisfies the predicate, so every line it shows satisfies it. */
  lemma {:induction false} FilteredShowsOnlyKept(inner: Scanner, keep: string -> bool)
    requires Unbuffered(inner)
    ensures var (ok, f) := Scan(Filtered(inner, keep)); ok ==> keep(Text(f).0)
    decreases Pending(inner)
  {
    var (ok, i1) := Scan(inner);
    if ok {
      ScanKeepsUnbuffered(inner);
      UnbufferedTextIsPure(i1);
      if !keep(Text(i1).0) {
        FilteredShowsOnlyKept(i1, keep);
      }
    }
  }

  /** Over a finite input the filtering wrapper yields exactly the wrapped
      scanner's lines that satisfy the predicate, in order, and then the
      wrapped scanner's error. */
  lemma {:induction false} FilteredYieldsKeptLines(inner: Scanner, keep: string -> bool)
    requires Unbuffered(inner)
    ensures Drain(Filtered(inner, keep)) == (Filter(keep, Drain(inner).0), Drain(inner).1)
    decreases Pending(inner)
  {
    var (ok, i1) := Scan(inner);
    if ok {
      ScanKeepsUnbuffered(inner);
      UnbufferedTextIsPure(i1);
      var line := Text(i1).0;
      FilteredYieldsKeptLines(i1, keep);
      if !keep(line) {
        assert Scan(Filtered(inner, keep)) == Scan(Filtered(i1, keep));
        assert Drain(Filtered(inner, keep)) == Drain(Filtered(i1, keep));
      } else {
        UnbufferedTextIsPure(Filtered(i1, keep));
      }
    }
  }

  /** The source yields its remaining lines in order, then its error. */
  lemma {:induction false} SourceYieldsLines(lines: seq<string>, pos: nat, err: Option<Error>)
    requires pos <= |lines|
    ensures Drain(Source(lines, pos, err)) == (lines[pos..], err)
    decreases |lines| - pos
  {
    var s := Source(lines, pos, err);
    if pos < |lines| {
      var s1 := Source(lines, pos + 1, err);
      assert Scan(s) == (true, s1);
      assert Text(s1) == (lines[pos], s1);
      SourceYieldsLines(lines, pos + 1, err);
      assert lines[pos..] == [lines[pos]] + lines[pos + 1..];
    } else {
      assert Scan(s) == (false, Source(lines, |lines| + 1, err));
      assert Err(Source(lines, |lines| + 1, err)) == err;
      assert lines[pos..] == [];
    }
  }
}
