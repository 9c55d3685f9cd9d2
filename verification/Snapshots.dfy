/** Surface history for scans that cross surface updates
    (services/simulation-server/src/measurement/snapshots.rs). */
module Snapshots {
  import opened Wrappers

  /** A frozen surface; the grid it belongs to is known by a number. */
  datatype Surface = Surface(grid: nat, heights: seq<real>)

  datatype Entry = Entry(startedAt: real, surface: Surface)

  datatype HistoryError = EventTime | OtherGrid | SampleTime | NotCovered | RetentionTime

  /** Entries rise in time and share one grid. */
  ghost predicate Valid(entries: seq<Entry>) {
    && entries != []
    && (forall k | 0 < k < |entries| :: entries[k - 1].startedAt < entries[k].startedAt)
    && (forall k | 0 <= k < |entries| :: entries[k].surface.grid == entries[0].surface.grid)
  }

  function Latest(entries: seq<Entry>): real
    requires entries != []
  {
    entries[|entries| - 1].startedAt
  }

  function Push(entries: seq<Entry>, elapsed: real, surface: Surface): Result<seq<Entry>, HistoryError>
    requires entries != []
  {
    if elapsed <= Latest(entries) then Failure(EventTime)
    else if surface.grid != entries[0].surface.grid then Failure(OtherGrid)
    else Success(entries + [Entry(elapsed, surface)])
  }

  /** The last of the first n entries that had started. */
  function LastStarted(entries: seq<Entry>, elapsed: real, n: nat): Option<Surface>
    requires n <= |entries|
    decreases n
  {
    if n == 0 then None
    else if entries[n - 1].startedAt <= elapsed then Some(entries[n - 1].surface)
    else LastStarted(entries, elapsed, n - 1)
  }

  function SnapshotAt(entries: seq<Entry>, elapsed: real): Result<Surface, HistoryError> {
    if elapsed < 0.0 then Failure(SampleTime)
    else
      var found := LastStarted(entries, elapsed, |entries|);
      if found.Some? then Success(found.value) else Failure(NotCovered)
  }

  /** Drops the first entry as long as the second one has started. */
  function Trim(entries: seq<Entry>, elapsed: real): (r: seq<Entry>)
    requires entries != []
    ensures r != []
    decreases |entries|
  {
    if |entries| > 1 && entries[1].startedAt <= elapsed then Trim(entries[1..], elapsed) else entries
  }

  function Discard(entries: seq<Entry>, elapsed: real): Result<seq<Entry>, HistoryError>
    requires entries != []
  {
    if elapsed < 0.0 then Failure(RetentionTime) else Success(Trim(entries, elapsed))
  }

  // ---------------------------------------------------------------- the pruned history answers like the full one

  /** From a time on both histories give the same answers, and they end in the same entry. */
  ghost predicate SameFrom(pruned: seq<Entry>, full: seq<Entry>, time: real) {
    && Valid(pruned) && Valid(full)
    && pruned[|pruned| - 1] == full[|full| - 1]
    && pruned[0].surface.grid == full[0].surface.grid
    && forall elapsed: real | elapsed >= time :: SnapshotAt(pruned, elapsed) == SnapshotAt(full, elapsed)
  }

  lemma {:induction false} WithoutFirst(entries: seq<Entry>, elapsed: real, n: nat)
    requires |entries| > 1 && entries[1].startedAt <= elapsed && 2 <= n <= |entries|
    ensures LastStarted(entries[1..], elapsed, n - 1) == LastStarted(entries, elapsed, n)
    decreases n
  {
    if n > 2 && entries[n - 1].startedAt > elapsed {
      WithoutFirst(entries, elapsed, n - 1);
    }
  }

  lemma {:induction false} TrimKeepsAnswers(entries: seq<Entry>, time: real, elapsed: real)
    requires Valid(entries) && time <= elapsed
    ensures var trimmed := Trim(entries, time);
            && Valid(trimmed) && SnapshotAt(trimmed, elapsed) == SnapshotAt(entries, elapsed)
            && trimmed[|trimmed| - 1] == entries[|entries| - 1]
            && trimmed[0].surface.grid == entries[0].surface.grid
    decreases |entries|
  {
    if |entries| > 1 && entries[1].startedAt <= time {
      var rest := entries[1..];
      assert forall k | 0 < k < |rest| :: rest[k] == entries[k + 1] && rest[k - 1] == entries[k];
      assert rest[0] == entries[1] && rest[0].surface.grid == entries[0].surface.grid;
      TrimKeepsAnswers(rest, time, elapsed);
      WithoutFirst(entries, elapsed, |entries|);
    }
  }

  /** Discarding keeps every answer from the retention time on. */
  lemma DiscardKeepsAnswers(pruned: seq<Entry>, full: seq<Entry>, before: real, time: real)
    requires SameFrom(pruned, full, before)
    ensures SameFrom(Trim(pruned, time), full, if before <= time then time else before)
  {
    hide SnapshotAt;
    var from := if before <= time then time else before;
    TrimKeepsAnswers(pruned, time, from);
    forall elapsed: real | elapsed >= from
      ensures SnapshotAt(Trim(pruned, time), elapsed) == SnapshotAt(full, elapsed)
    {
      TrimKeepsAnswers(pruned, time, elapsed);
    }
  }

  lemma {:induction false} LastStartedOfPrefix(entries: seq<Entry>, more: seq<Entry>, elapsed: real, n: nat)
    requires n <= |entries|
    ensures LastStarted(entries + more, elapsed, n) == LastStarted(entries, elapsed, n)
    decreases n
  {
    if n > 0 && entries[n - 1].startedAt > elapsed {
      LastStartedOfPrefix(entries, more, elapsed, n - 1);
    }
  }

  lemma AnswersAfterPush(entries: seq<Entry>, entry: Entry, elapsed: real)
    ensures SnapshotAt(entries + [entry], elapsed)
         == if elapsed >= 0.0 && entry.startedAt <= elapsed then Success(entry.surface)
             else SnapshotAt(entries, elapsed)
  {
    LastStartedOfPrefix(entries, [entry], elapsed, |entries|);
  }

  /** A new event is accepted by both histories or by neither, and the answers stay the same. */
  lemma PushKeepsAnswers(pruned: seq<Entry>, full: seq<Entry>, time: real, at: real, surface: Surface)
    requires SameFrom(pruned, full, time)
    ensures Push(pruned, at, surface).Success? <==> Push(full, at, surface).Success?
    ensures Push(pruned, at, surface).Failure? ==> Push(pruned, at, surface) == Push(full, at, surface)
    ensures Push(pruned, at, surface).Success? ==>
              SameFrom(Push(pruned, at, surface).value, Push(full, at, surface).value, time)
  {
    hide SnapshotAt;
    if Push(pruned, at, surface).Success? {
      forall elapsed: real | elapsed >= time
        ensures SnapshotAt(pruned + [Entry(at, surface)], elapsed) == SnapshotAt(full + [Entry(at, surface)], elapsed)
      {
        AnswersAfterPush(pruned, Entry(at, surface), elapsed);
        AnswersAfterPush(full, Entry(at, surface), elapsed);
      }
    }
  }

  /** A history that starts at 0 answers every time that is not negative. */
  lemma FullHistoryAnswers(entries: seq<Entry>, elapsed: real)
    requires Valid(entries) && entries[0].startedAt == 0.0 && elapsed >= 0.0
    ensures SnapshotAt(entries, elapsed).Success?
  {
    FoundFrom(entries, elapsed, |entries|);
  }

  lemma {:induction false} FoundFrom(entries: seq<Entry>, elapsed: real, n: nat)
    requires 0 < n <= |entries| && entries[0].startedAt <= elapsed
    ensures LastStarted(entries, elapsed, n).Some?
    decreases n
  {
    if n > 1 && entries[n - 1].startedAt > elapsed {
      FoundFrom(entries, elapsed, n - 1);
    }
  }

  // ---------------------------------------------------------------- what an answer is

  /** The entry in force at a time: it has started and the next one has not. */
  predicate InForce(entries: seq<Entry>, elapsed: real, j: nat) {
    j < |entries| && entries[j].startedAt <= elapsed && (j + 1 < |entries| ==> elapsed < entries[j + 1].startedAt)
  }

  ghost predicate Reaches(entries: seq<Entry>, elapsed: real) {
    exists j: nat :: InForce(entries, elapsed, j)
  }

  lemma {:induction false} LastIsInForce(entries: seq<Entry>, elapsed: real, n: nat, j: nat)
    requires Valid(entries) && InForce(entries, elapsed, j) && j < n <= |entries|
    ensures LastStarted(entries, elapsed, n) == Some(entries[j].surface)
    decreases n
  {
    if n - 1 > j {
      LaterStarts(entries, j + 1, n - 1);
      LastIsInForce(entries, elapsed, n - 1, j);
    }
  }

  lemma {:induction false} LaterStarts(entries: seq<Entry>, j: nat, k: nat)
    requires Valid(entries) && j <= k < |entries|
    ensures entries[j].startedAt <= entries[k].startedAt
    decreases k
  {
    if j < k {
      LaterStarts(entries, j, k - 1);
    }
  }

  lemma {:induction false} SomeInForce(entries: seq<Entry>, elapsed: real, n: nat) returns (j: nat)
    requires n <= |entries| && LastStarted(entries, elapsed, n).Some?
    requires n < |entries| ==> elapsed < entries[n].startedAt
    ensures InForce(entries, elapsed, j)
    decreases n
  {
    j := n - 1;
    if entries[n - 1].startedAt > elapsed {
      j := SomeInForce(entries, elapsed, n - 1);
    }
  }

  /** A history answers with the surface in force, and it has an answer for exactly the times from its first entry on
      that are not negative. */
  lemma AnswerIsInForce(entries: seq<Entry>, elapsed: real)
    requires Valid(entries)
    ensures SnapshotAt(entries, elapsed).Success? <==> elapsed >= 0.0 && entries[0].startedAt <= elapsed
    ensures forall j: nat ::
              elapsed >= 0.0 && InForce(entries, elapsed, j)
              ==> SnapshotAt(entries, elapsed) == Success(entries[j].surface)
    ensures elapsed >= 0.0 && entries[0].startedAt <= elapsed ==> Reaches(entries, elapsed)
  {
    hide Valid;
    NotEmpty(entries);
    forall j: nat | InForce(entries, elapsed, j)
      ensures LastStarted(entries, elapsed, |entries|) == Some(entries[j].surface)
    {
      LastIsInForce(entries, elapsed, |entries|, j);
    }
    if entries[0].startedAt <= elapsed {
      FoundFrom(entries, elapsed, |entries|);
    }
    if LastStarted(entries, elapsed, |entries|).Some? {
      var j := SomeInForce(entries, elapsed, |entries|);
      LaterStarts(entries, 0, j);
    }
  }

  lemma NotEmpty(entries: seq<Entry>)
    requires Valid(entries)
    ensures entries != []
  {
  }

  /** Discarding keeps the entry in force and all later ones, and nothing before. */
  lemma {:induction false} TrimDropsEnded(entries: seq<Entry>, elapsed: real) returns (n: nat)
    requires entries != []
    ensures n < |entries| && Trim(entries, elapsed) == entries[n..]
    ensures forall k | 0 < k <= n :: entries[k].startedAt <= elapsed
    ensures n + 1 < |entries| ==> entries[n + 1].startedAt > elapsed
    decreases |entries|
  {
    n := 0;
    if |entries| > 1 && entries[1].startedAt <= elapsed {
      var later := TrimDropsEnded(entries[1..], elapsed);
      n := later + 1;
      assert entries[1..][later..] == entries[n..];
      assert forall k | 0 < k <= later :: entries[1..][k] == entries[k + 1];
    }
  }

  // ---------------------------------------------------------------- the coordinator as it runs

  class SnapshotEventCoordinator {
    var entries: seq<Entry>
    /** Every entry ever pushed, and the latest retention time. */
    ghost var full: seq<Entry>
    ghost var retainedFrom: real

    ghost predicate Usable()
      reads this
    {
      SameFrom(entries, full, retainedFrom) && full[0].startedAt == 0.0 && retainedFrom >= 0.0
    }

    constructor (initial: Surface)
      ensures Usable() && entries == full == [Entry(0.0, initial)] && retainedFrom == 0.0
    {
      entries, full, retainedFrom := [Entry(0.0, initial)], [Entry(0.0, initial)], 0.0;
    }

    method PushEvent(elapsed: real, surface: Surface) returns (r: Result<(), HistoryError>)
      requires Usable()
      modifies this
      ensures Usable() && retainedFrom == old(retainedFrom)
      ensures var spec := Push(old(entries), elapsed, surface);
              if spec.Success? then r.Success? && entries == spec.value && full == old(full) + [Entry(elapsed, surface)]
              else r == Failure(spec.error) && entries == old(entries) && full == old(full)
    {
      hide SnapshotAt;
      PushKeepsAnswers(entries, full, retainedFrom, elapsed, surface);
      if elapsed <= entries[|entries| - 1].startedAt {
        return Failure(EventTime);
      }
      if surface.grid != entries[0].surface.grid {
        return Failure(OtherGrid);
      }
      entries := entries + [Entry(elapsed, surface)];
      full := full + [Entry(elapsed, surface)];
      return Success(());
    }

    /** What is kept answers every retained time as the complete history would. */
    method Snapshot(elapsed: real) returns (r: Result<Surface, HistoryError>)
      requires Usable()
      ensures r == SnapshotAt(entries, elapsed)
      ensures elapsed >= retainedFrom ==> r == SnapshotAt(full, elapsed) && r.Success?
    {
      if elapsed >= retainedFrom {
        FullHistoryAnswers(full, elapsed);
      }
      if elapsed < 0.0 {
        return Failure(SampleTime);
      }
      for n := |entries| downto 0
        invariant LastStarted(entries, elapsed, |entries|) == LastStarted(entries, elapsed, n)
      {
        if entries[n].startedAt <= elapsed {
          return Success(entries[n].surface);
        }
      }
      return Failure(NotCovered);
    }

    method DiscardBefore(elapsed: real) returns (r: Result<(), HistoryError>)
      requires Usable()
      modifies this
      ensures Usable() && full == old(full)
      ensures elapsed < 0.0 ==> r == Failure(RetentionTime) && entries == old(entries)
      ensures elapsed >= 0.0 ==>
                && r.Success? && entries == Trim(old(entries), elapsed)
                && retainedFrom == if old(retainedFrom) <= elapsed then elapsed else old(retainedFrom)
    {
      hide SnapshotAt;
      if elapsed < 0.0 {
        return Failure(RetentionTime);
      }
      DiscardKeepsAnswers(entries, full, retainedFrom, elapsed);
      ghost var goal := Trim(entries, elapsed);
      while |entries| > 1 && entries[1].startedAt <= elapsed
        invariant entries != [] && Trim(entries, elapsed) == goal
        invariant full == old(full) && retainedFrom == old(retainedFrom)
        decreases |entries|
      {
        entries := entries[1..];
      }
      retainedFrom := if retainedFrom <= elapsed then elapsed else retainedFrom;
      return Success(());
    }
  }
}
