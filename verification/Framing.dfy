/** Lines out of a byte stream that arrives in arbitrary pieces
    (services/visualizer/src/scrap_monitoring_visualizer/receiver/framing.py). */
module Framing {
  newtype Byte = b: int | 0 <= b < 256

  const LINE_FEED: Byte := 10

  /** The position of the first line feed, or the length when there is none. */
  function LineEnd(s: seq<Byte>): (n: nat)
    ensures n <= |s| && Plain(s, 0, n)
    ensures n < |s| ==> s[n] == LINE_FEED
  {
    if s == [] || s[0] == LINE_FEED then 0
    else
      var rest := LineEnd(s[1..]);
      assert forall k | 0 < k < 1 + rest :: s[k] == s[1..][k - 1];
      1 + rest
  }

  /** No line feed from i up to j. */
  predicate Plain(s: seq<Byte>, i: nat, j: nat)
    requires i <= j <= |s|
  {
    forall k | i <= k < j :: s[k] != LINE_FEED
  }

  /** Complete records, the bytes still held, and whether a line was too long (then nothing is held). */
  datatype Framed = Framed(records: seq<seq<Byte>>, rest: seq<Byte>, tooLong: bool)

  function Split(s: seq<Byte>, limit: nat): Framed
    requires limit >= 2
    decreases |s|
  {
    var end := LineEnd(s);
    if end == |s| then if |s| >= limit then Framed([], [], true) else Framed([], s, false)
    else if end + 1 > limit then Framed([], [], true)
    else
      var more := Split(s[end + 1..], limit);
      Framed([s[..end + 1]] + more.records, more.rest, more.tooLong)
  }

  function Concat(parts: seq<seq<Byte>>): seq<Byte>
    decreases |parts|
  {
    if parts == [] then [] else parts[0] + Concat(parts[1..])
  }

  /** Some stretch of limit bytes has no line feed. */
  ghost predicate HasLongLine(s: seq<Byte>, limit: nat) {
    exists i: nat, j: nat :: i + limit == j <= |s| && Plain(s, i, j)
  }

  // ---------------------------------------------------------------- meaning of the split

  predicate IsRecord(record: seq<Byte>, limit: nat) {
    0 < |record| <= limit && record[|record| - 1] == LINE_FEED && Plain(record, 0, |record| - 1)
  }

  /** The records are complete lines in order, what is held has no line feed, and together they are the input. */
  lemma {:induction false} SplitParts(s: seq<Byte>, limit: nat)
    requires limit >= 2
    ensures var r := Split(s, limit);
            && (forall k | 0 <= k < |r.records| :: IsRecord(r.records[k], limit))
            && (r.tooLong ==> r.rest == [])
            && (!r.tooLong ==> Concat(r.records) + r.rest == s && Plain(r.rest, 0, |r.rest|) && |r.rest| < limit)
    decreases |s|
  {
    hide IsRecord, Split, Concat, LineEnd;
    SplitUnfolds(s, limit);
    var end := LineEnd(s);
    if end < |s| && end + 1 <= limit {
      var tail, more := s[end + 1..], Split(s[end + 1..], limit);
      SplitParts(tail, limit);
      RecordAt(s, end, limit);
      ConcatCons(s[..end + 1], more.records, more.rest, tail);
    } else {
      ConcatNone(Split(s, limit).records, s);
    }
  }

  /** A line is too long exactly when some stretch of limit bytes has no line feed. */
  lemma {:induction false} TooLongMeans(s: seq<Byte>, limit: nat)
    requires limit >= 2
    ensures Split(s, limit).tooLong <==> HasLongLine(s, limit)
    decreases |s|
  {
    var end := LineEnd(s);
    if end < |s| && end + 1 <= limit {
      TooLongMeans(s[end + 1..], limit);
      LongLineAfter(s, end, limit);
    } else if |s| >= limit {
      assert Plain(s, 0, limit);
    }
  }

  /** When a line is too long, the records are the complete lines before it, and what follows them starts with a whole
      limit's worth of bytes without a line feed. */
  lemma {:induction false} RecordsBeforeLongLine(s: seq<Byte>, limit: nat) returns (tail: seq<Byte>)
    requires limit >= 2 && Split(s, limit).tooLong
    ensures Concat(Split(s, limit).records) + tail == s
    ensures |tail| >= limit && forall k | 0 <= k < limit :: tail[k] != 10
    decreases |s|
  {
    hide Split, LineEnd;
    SplitUnfolds(s, limit);
    var end := LineEnd(s);
    tail := s;
    if end < |s| && end + 1 <= limit {
      var more := Split(s[end + 1..], limit);
      tail := RecordsBeforeLongLine(s[end + 1..], limit);
      ConcatCons(s[..end + 1], more.records, tail, s[end + 1..]);
      assert s == s[..end + 1] + s[end + 1..];
    } else {
      ConcatNone(Split(s, limit).records, s);
    }
  }

  lemma SplitUnfolds(s: seq<Byte>, limit: nat)
    requires limit >= 2
    ensures var end := LineEnd(s);
            Split(s, limit)
            == if end == |s| then if |s| >= limit then Framed([], [], true) else Framed([], s, false)
               else if end + 1 > limit then Framed([], [], true)
               else Preceded(s[..end + 1], Split(s[end + 1..], limit))
  {
  }

  function Preceded(record: seq<Byte>, more: Framed): Framed {
    Framed([record] + more.records, more.rest, more.tooLong)
  }

  lemma ConcatCons(first: seq<Byte>, records: seq<seq<Byte>>, rest: seq<Byte>, tail: seq<Byte>)
    ensures Concat(records) + rest == tail ==> Concat([first] + records) + rest == first + tail
  {
    assert ([first] + records)[1..] == records;
    assert first + (Concat(records) + rest) == (first + Concat(records)) + rest;
  }

  lemma ConcatNone(records: seq<seq<Byte>>, s: seq<Byte>)
    requires records == []
    ensures Concat(records) + s == s
  {
    assert Concat(records) == [];
  }

  lemma RecordAt(s: seq<Byte>, end: nat, limit: nat)
    requires end < |s| && end + 1 <= limit && s[end] == LINE_FEED && Plain(s, 0, end)
    ensures IsRecord(s[..end + 1], limit)
  {
  }

  /** A short first line cannot be part of a stretch without line feeds. */
  lemma LongLineAfter(s: seq<Byte>, end: nat, limit: nat)
    requires end < |s| && s[end] == LINE_FEED && Plain(s, 0, end) && end < limit
    ensures HasLongLine(s, limit) <==> HasLongLine(s[end + 1..], limit)
  {
    var tail := s[end + 1..];
    if HasLongLine(s, limit) {
      var i: nat, j: nat :| i + limit == j <= |s| && Plain(s, i, j);
      assert i > end;
      assert Plain(tail, i - end - 1, j - end - 1);
    }
    if HasLongLine(tail, limit) {
      var i: nat, j: nat :| i + limit == j <= |tail| && Plain(tail, i, j);
      assert forall k | end + 1 + i <= k < end + 1 + j :: s[k] == tail[k - end - 1];
      assert Plain(s, end + 1 + i, end + 1 + j);
    }
  }

  // ---------------------------------------------------------------- independence of the pieces

  lemma {:induction false} LineEndOfPrefix(a: seq<Byte>, b: seq<Byte>)
    ensures LineEnd(a) < |a| ==> LineEnd(a + b) == LineEnd(a)
    ensures LineEnd(a) == |a| ==> LineEnd(a + b) >= |a|
  {
    if a == [] {
      assert a + b == b;
    } else if a[0] != LINE_FEED {
      LineEndOfPrefix(a[1..], b);
      assert (a + b)[1..] == a[1..] + b;
    }
  }

  /** Splitting what is held together with the next piece continues the split of everything before. */
  lemma {:induction false} SplitContinues(a: seq<Byte>, b: seq<Byte>, limit: nat)
    requires limit >= 2
    ensures var first, whole := Split(a, limit), Split(a + b, limit);
            if first.tooLong then whole == first
            else
              var second := Split(first.rest + b, limit);
              whole == Framed(first.records + second.records, second.rest, second.tooLong)
    decreases |a|
  {
    LineEndOfPrefix(a, b);
    var end := LineEnd(a);
    if end < |a| && end + 1 <= limit {
      assert (a + b)[..end + 1] == a[..end + 1] && (a + b)[end + 1..] == a[end + 1..] + b;
      SplitContinues(a[end + 1..], b, limit);
      var first, second := Split(a[end + 1..], limit), Split(Split(a[end + 1..], limit).rest + b, limit);
      assert [a[..end + 1]] + (first.records + second.records) == ([a[..end + 1]] + first.records) + second.records;
    } else if end == |a| && |a| < limit {
      var second := Split(a + b, limit);
      assert [] + second.records == second.records;
    }
  }

  /** Feeding the pieces one by one, up to the first error. */
  function FeedAll(held: seq<Byte>, pieces: seq<seq<Byte>>, limit: nat): Framed
    requires limit >= 2
    decreases |pieces|
  {
    if pieces == [] then Framed([], held, false)
    else
      var fed := Split(held + pieces[0], limit);
      if fed.tooLong then fed
      else
        var more := FeedAll(fed.rest, pieces[1..], limit);
        Framed(fed.records + more.records, more.rest, more.tooLong)
  }

  lemma SplitOfRest(held: seq<Byte>, limit: nat)
    requires limit >= 2 && |held| < limit && Plain(held, 0, |held|)
    ensures Split(held, limit) == Framed([], held, false)
  {
    assert LineEnd(held) == |held|;
  }

  /** However a stream is cut into pieces, the records, what is held and the error are those of the whole stream. */
  lemma {:induction false} PiecesDoNotMatter(held: seq<Byte>, pieces: seq<seq<Byte>>, limit: nat)
    requires limit >= 2 && |held| < limit && Plain(held, 0, |held|)
    ensures FeedAll(held, pieces, limit) == Split(held + Concat(pieces), limit)
    decreases |pieces|
  {
    if pieces == [] {
      assert held + Concat(pieces) == held;
      SplitOfRest(held, limit);
    } else {
      var fed := Split(held + pieces[0], limit);
      assert held + Concat(pieces) == (held + pieces[0]) + Concat(pieces[1..]);
      SplitContinues(held + pieces[0], Concat(pieces[1..]), limit);
      SplitParts(held + pieces[0], limit);
      if !fed.tooLong {
        PiecesDoNotMatter(fed.rest, pieces[1..], limit);
      }
    }
  }

  // ---------------------------------------------------------------- the framer as it runs

  function Continued(records: seq<seq<Byte>>, more: Framed): Framed {
    Framed(records + more.records, more.rest, more.tooLong)
  }

  lemma ContinuedByNothing(records: seq<seq<Byte>>, rest: seq<Byte>)
    ensures Continued(records, Framed([], rest, false)) == Framed(records, rest, false)
    ensures Continued(records, Framed([], [], true)) == Framed(records, [], true)
    ensures forall more: Framed :: Continued([], more) == more
  {
    assert records + [] == records;
    forall more: Framed ensures Continued([], more) == more {
      assert [] + more.records == more.records;
    }
  }

  lemma ContinuedByOne(records: seq<seq<Byte>>, record: seq<Byte>, more: Framed)
    ensures Continued(records, Preceded(record, more)) == Continued(records + [record], more)
  {
    assert records + ([record] + more.records) == (records + [record]) + more.records;
  }

  class LineFramer {
    const limit: nat
    var buffer: seq<Byte>

    ghost predicate Valid()
      reads this
    {
      limit >= 2 && |buffer| < limit && Plain(buffer, 0, |buffer|)
    }

    constructor (limit: nat)
      requires limit >= 2
      ensures Valid() && buffer == [] && this.limit == limit
    {
      this.limit := limit;
      buffer := [];
    }

    /** The records completed by a piece; an error reports them too, and clears the buffer. */
    method Feed(piece: seq<Byte>) returns (records: seq<seq<Byte>>, tooLong: bool)
      requires Valid()
      modifies this
      ensures Valid()
      ensures Framed(records, buffer, tooLong) == Split(old(buffer) + piece, limit)
    {
      hide Split, IsRecord;
      ghost var whole := Split(buffer + piece, limit);
      SplitParts(buffer + piece, limit);
      buffer := buffer + piece;
      records, tooLong := [], false;
      ContinuedByNothing(records, []);
      while true
        invariant whole == Continued(records, Split(buffer, limit))
        decreases |buffer|
      {
        SplitUnfolds(buffer, limit);
        ContinuedByNothing(records, buffer);
        var end := LineEnd(buffer);
        if end == |buffer| {
          if |buffer| >= limit {
            buffer := [];
            tooLong := true;
          }
          return;
        }
        if end + 1 > limit {
          buffer := [];
          return records, true;
        }
        ContinuedByOne(records, buffer[..end + 1], Split(buffer[end + 1..], limit));
        records := records + [buffer[..end + 1]];
        buffer := buffer[end + 1..];
      }
    }

    method DiscardPartial() returns (hadPartial: bool)
      requires Valid()
      modifies this
      ensures Valid() && buffer == [] && hadPartial == (old(buffer) != [])
    {
      hadPartial := buffer != [];
      buffer := [];
    }
  }
}
