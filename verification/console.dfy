/**
 The console of a server: cutting its output into lines (internal/mc/instance.go:275-309)
 and keeping the last of them in a circular buffer (internal/mc/ring.go).
 */
module Console {
  import opened Prelude
  import opened Properties

  // --- cutting output into lines -------------------------------------------------------

  function TrimReturns(s: string): string {
    if s != "" && s[|s| - 1] == '\r' then TrimReturns(s[..|s| - 1]) else s
  }

  /** The finished lines, then what follows the last newline, if anything does. */
  function LinesOf(pieces: seq<string>): seq<string> {
    if pieces == [] then []
    else if |pieces| == 1 then (if pieces[0] == "" then [] else [pieces[0]])
    else [TrimReturns(pieces[0])] + LinesOf(pieces[1..])
  }

  function Concat(chunks: seq<string>): string {
    if chunks == [] then "" else chunks[0] + Concat(chunks[1..])
  }

  /** Position of the first newline, or the length. */
  function IndexNewline(s: string): (i: nat)
    ensures i <= |s| && SingleLine(s[..i])
    ensures i < |s| ==> s[i] == '\n'
  {
    if s == "" || s[0] == '\n' then 0
    else
      var i := 1 + IndexNewline(s[1..]);
      assert s[..i] == [s[0]] + s[1..][..i - 1];
      i
  }

  lemma SplitAtNewline(line: string, rest: string)
    requires SingleLine(line)
    ensures Split(line + ("\n" + rest)) == [line] + Split(rest)
  {
    SplitPrefix(line, "\n" + rest);
    assert ("\n" + rest)[1..] == rest;
    assert Split("\n" + rest) == [""] + Split(rest);
    HeadAndTail("", Split(rest));
    assert line + "" == line;
  }

  lemma OneLineMore(line: string, pieces: seq<string>)
    requires pieces != []
    ensures LinesOf([line] + pieces) == [TrimReturns(line)] + LinesOf(pieces)
  {
    HeadAndTail(line, pieces);
  }

  lemma TakeLine(s: string, i: nat)
    requires i < |s| && s[i] == '\n' && SingleLine(s[..i])
    ensures LinesOf(Split(s)) == [TrimReturns(s[..i])] + LinesOf(Split(s[i + 1..]))
  {
    CutAtNewline(s, i);
    SplitAtNewline(s[..i], s[i + 1..]);
    OneLineMore(s[..i], Split(s[i + 1..]));
  }

  lemma CutAtNewline(s: string, i: nat)
    requires i < |s| && s[i] == '\n'
    ensures s == s[..i] + ("\n" + s[i + 1..])
  {
  }

  lemma LastPiece(s: string)
    requires SingleLine(s)
    ensures LinesOf(Split(s)) == if s == "" then [] else [s]
  {
    SplitPrefix(s, "");
    assert s + "" == s;
  }

  function Returns(n: nat): string { if n == 0 then "" else Returns(n - 1) + "\r" }

  /** Lines as a program prints them: each with some carriage returns and a newline behind it. */
  function Printed(lines: seq<string>, crs: nat): string {
    if lines == [] then "" else lines[0] + Returns(crs) + "\n" + Printed(lines[1..], crs)
  }

  predicate IsLine(s: string) { SingleLine(s) && (s == "" || s[|s| - 1] != '\r') }

  lemma {:induction false} ReturnsAreTrimmed(line: string, n: nat)
    requires IsLine(line)
    ensures TrimReturns(line + Returns(n)) == line && SingleLine(line + Returns(n))
  {
    if n == 0 {
      assert line + Returns(0) == line;
    } else {
      ReturnsAreTrimmed(line, n - 1);
      assert (line + Returns(n))[..|line + Returns(n)| - 1] == line + Returns(n - 1);
    }
  }

  lemma FirstLineOf(line: string, rest: string)
    requires SingleLine(line)
    ensures LinesOf(Split(line + "\n" + rest)) == [TrimReturns(line)] + LinesOf(Split(rest))
  {
    var whole := line + "\n" + rest;
    assert whole[..|line|] == line && whole[|line|] == '\n' && whole[|line| + 1..] == rest;
    TakeLine(whole, |line|);
  }

  lemma PrintedSplits(lines: seq<string>, crs: nat, last: string)
    requires lines != []
    ensures Printed(lines, crs) + last == lines[0] + Returns(crs) + "\n" + (Printed(lines[1..], crs) + last)
  {
    Reassociate(lines[0] + Returns(crs) + "\n", Printed(lines[1..], crs), last);
  }

  lemma FirstAndRest(lines: seq<string>, tail: seq<string>)
    requires lines != []
    ensures [lines[0]] + (lines[1..] + tail) == lines + tail
  {
  }

  /** Lines that were printed come back as they are, and so does a last piece without a newline. */
  lemma {:induction false} PrintedLinesComeBack(lines: seq<string>, crs: nat, last: string)
    requires (forall i :: 0 <= i < |lines| ==> IsLine(lines[i])) && SingleLine(last)
    ensures LinesOf(Split(Printed(lines, crs) + last)) == lines + (if last == "" then [] else [last])
  {
    if lines == [] {
      assert Printed(lines, crs) + last == last;
      LastPiece(last);
    } else {
      PrintedSplits(lines, crs, last);
      ReturnsAreTrimmed(lines[0], crs);
      FirstLineOf(lines[0] + Returns(crs), Printed(lines[1..], crs) + last);
      PrintedLinesComeBack(lines[1..], crs, last);
      FirstAndRest(lines, if last == "" then [] else [last]);
    }
  }

  /**
   However the output arrives in chunks, the lines handled are those of the
   whole text: cut at newlines and stripped of carriage returns, and a last
   piece without a newline as it is.
   */
  method PumpOutput(chunks: seq<string>) returns (handled: seq<string>)
    ensures handled == LinesOf(Split(Concat(chunks)))
  {
    handled := [];
    var buf := "";
    assert buf + Concat(chunks) == Concat(chunks);
    for n := 0 to |chunks|
      invariant SingleLine(buf)
      invariant handled + LinesOf(Split(buf + Concat(chunks[n..]))) == LinesOf(Split(Concat(chunks)))
    {
      ghost var ahead := Concat(chunks[n + 1..]);
      assert chunks[n..][1..] == chunks[n + 1..];
      assert buf + (chunks[n] + ahead) == (buf + chunks[n]) + ahead;
      buf := buf + chunks[n];
      handled, buf := HandleBuffered(handled, buf, ahead);
    }
    assert buf + Concat(chunks[|chunks|..]) == buf;
    LastPiece(buf);
    if |buf| > 0 {
      handled := handled + [buf];
    }
  }

  /** The inner loop: every finished line in the buffer. */
  method HandleBuffered(before: seq<string>, full: string, ghost ahead: string)
    returns (handled: seq<string>, buf: string)
    ensures SingleLine(buf)
    ensures handled + LinesOf(Split(buf + ahead)) == before + LinesOf(Split(full + ahead))
  {
    handled, buf := before, full;
    while true
      invariant handled + LinesOf(Split(buf + ahead)) == before + LinesOf(Split(full + ahead))
      decreases |buf|
    {
      var nl := IndexNewline(buf);
      if nl == |buf| {
        assert buf[..nl] == buf;
        return;
      }
      var line := TrimReturns(buf[..nl]);
      TakeLine(buf + ahead, nl) by {
        assert (buf + ahead)[..nl] == buf[..nl];
      }
      assert (buf + ahead)[..nl] == buf[..nl] && (buf + ahead)[nl + 1..] == buf[nl + 1..] + ahead;
      assert handled + ([line] + LinesOf(Split(buf[nl + 1..] + ahead)))
          == handled + [line] + LinesOf(Split(buf[nl + 1..] + ahead));
      buf := buf[nl + 1..];
      handled := handled + [line];
    }
  }

  // --- the circular buffer --------------------------------------------------------------

  /** Where the i-th kept line is. */
  function Slot(start: nat, i: nat, n: nat): nat
    requires start < n && i <= n
  {
    if start + i < n then start + i else start + i - n
  }

  lemma SlotIs(start: nat, i: nat, n: nat)
    requires start < n && i <= n
    ensures (start + i) % n == Slot(start, i, n) < n
  {
    if start + i >= n {
      WrapsOnce(start + i, n);
    }
  }

  lemma WrapsOnce(x: nat, n: nat)
    requires 0 < n <= x < n + n
    ensures x % n == x - n
  {
    var q, r := x / n, x % n;
    assert x == q * n + r;
    if q >= 2 {
      Multiples(2, q, n);
      assert false;
    }
  }

  lemma Multiples(a: nat, b: nat, n: nat)
    requires a <= b
    ensures a * n <= b * n
  {
  }

  /** The kept lines, oldest first. */
  function Kept<T>(b: seq<T>, start: nat, count: nat): seq<T>
    requires start < |b| && count <= |b|
  {
    seq(count, i requires 0 <= i < count => b[Slot(start, i, |b|)])
  }

  lemma RoomForLine<T>(b: seq<T>, start: nat, count: nat, line: T)
    requires start < |b| && count < |b|
    ensures Kept(b[Slot(start, count, |b|) := line], start, count + 1) == Kept(b, start, count) + [line]
  {
  }

  lemma OldestMakesRoom<T>(b: seq<T>, start: nat, line: T)
    requires start < |b|
    ensures Slot(start, |b|, |b|) == start
    ensures Kept(b[start := line], Slot(start, 1, |b|), |b|) == Kept(b, start, |b|)[1..] + [line]
  {
  }

  lemma KeptAfterAppend<T>(b: seq<T>, start: nat, count: nat, history: seq<T>, line: T)
    requires start < |b| && count <= |b| && Kept(b, start, count) == LastOf(history, |b|)
    ensures var after := b[Slot(start, count, |b|) := line];
            LastOf(history + [line], |b|)
            == if count < |b| then Kept(after, start, count + 1) else Kept(after, Slot(start, 1, |b|), count)
  {
    LastOfLonger(history, line, |b|);
    if count < |b| {
      RoomForLine(b, start, count, line);
    } else {
      OldestMakesRoom(b, start, line);
    }
  }

  lemma LastOfLonger<T>(history: seq<T>, line: T, n: nat)
    requires n > 0
    ensures var last := LastOf(history, n);
            LastOf(history + [line], n) == (if |last| < n then last else last[1..]) + [line]
  {
  }

  lemma KeptIsTail<T>(b: seq<T>, start: nat, count: nat, history: seq<T>, m: nat)
    requires start < |b| && m <= count <= |b| && Kept(b, start, count) == LastOf(history, |b|)
    ensures LastOf(history, m) == Kept(b, start, count)[count - m..]
  {
  }

  class LogRing<T(0)> {
    const buf: array<T>
    var start: nat
    var count: nat
    /** Every line ever appended. */
    ghost var history: seq<T>

    ghost predicate Valid()
      reads this, buf
    {
      start < buf.Length && count <= buf.Length && Kept(buf[..], start, count) == LastOf(history, buf.Length)
    }

    constructor (capacity: nat)
      requires capacity > 0
      ensures Valid() && fresh(buf) && buf.Length == capacity && history == []
    {
      buf := new T[capacity];
      start, count, history := 0, 0, [];
    }

    /** The index arithmetic of the ring. */
    method SlotOf(i: nat) returns (slot: nat)
      requires start < buf.Length && i <= buf.Length
      ensures slot == Slot(start, i, buf.Length) < buf.Length
    {
      SlotIs(start, i, buf.Length);
      return (start + i) % buf.Length;
    }

    method Append(line: T)
      requires Valid()
      modifies this`start, this`count, this`history, buf
      ensures Valid() && history == old(history) + [line]
    {
      ghost var before := buf[..];
      var idx := SlotOf(count);
      buf[idx] := line;
      assert buf[..] == before[idx := line];
      history := history + [line];
      KeptAfterAppend(before, start, count, old(history), line);
      if count < buf.Length {
        count := count + 1;
      } else {
        start := SlotOf(1);
      }
    }

    /** The last `n` lines still kept, oldest first; all that are kept if `n` is not positive or larger. */
    method Tail(n: int) returns (out: seq<T>)
      requires Valid()
      ensures out == LastOf(history, if n <= 0 || n > buf.Length then buf.Length else n)
    {
      var m := if n <= 0 || n > count then count else n;
      var a := new T[m];
      ghost var kept := Kept(buf[..], start, count);
      for i := 0 to m
        invariant forall k :: 0 <= k < i ==> a[k] == kept[count - m + k]
      {
        var j := count - m + i;
        var slot := SlotOf(j);
        a[i] := buf[slot];
      }
      KeptIsTail(buf[..], start, count, history, m);
      out := a[..];
    }
  }
}
