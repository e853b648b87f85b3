/** Live-log paging: tail pages walked backwards, and batches fetched after the last one seen. */
module LogPaging {
  import opened Basics
  import opened LogStream

  datatype Batch = Batch(seqNo: nat, bytes: Bytes)

  /** What `retain` keeps. */
  datatype Bound = Under(limit: nat) | Over(limit: nat) {
    predicate Admits(x: Batch) { if Under? then x.seqNo < limit else x.seqNo > limit }
  }

  datatype Marker = Marker(exitStatus: int, reason: Option<string>)

  /** What the store reads of one stream. */
  datatype TaskLog = TaskLog(batches: seq<Batch>, marker: Option<Marker>)

  datatype Page = Page(batches: seq<Batch>, marker: Option<Marker>, hasEarlier: bool)

  ghost predicate Increasing(s: seq<Batch>) { forall i, j :: 0 <= i < j < |s| ==> s[i].seqNo < s[j].seqNo }

  // ------------------------------------------------------------ reading a stream

  /** Only a controlled end of stream has a marker. */
  function MarkerOf(terminal: Option<Terminal>): Option<Marker> {
    match terminal
    case Some(EndOfStream(Status(code))) => Some(Marker(code, None))
    case Some(EndOfStream(NoStatus)) => Some(Marker(-1, None))
    case Some(EndOfStream(Error(reason))) => Some(Marker(-1, Some(reason)))
    case _ => None
  }

  function BatchOf(r: Record): Batch { Batch(r.sequence, r.bytes) }

  /** The batches of the replayed records, in order. */
  function BatchesOf(items: seq<Item>): seq<Batch> {
    if items == [] then []
    else
      BatchesOf(items[..|items| - 1]) +
      (match items[|items| - 1] case Accepted(r) => [BatchOf(r)] case Missing(_) => [])
  }

  /** Items in order cover ever higher sequence numbers, below `end`. */
  ghost predicate Climbs(items: seq<Item>, end: int) {
    && (forall i :: 0 <= i < |items| ==> ItemFirst(items[i]) <= ItemLast(items[i]) < end)
    && (forall i, j :: 0 <= i < j < |items| ==> ItemLast(items[i]) < ItemFirst(items[j]))
  }

  /** `b` is the batch of a replayed record. */
  ghost predicate Shows(items: seq<Item>, b: Batch) {
    exists i :: 0 <= i < |items| && items[i].Accepted? && b == BatchOf(items[i].record)
  }

  lemma {:induction false} BatchesShown(items: seq<Item>, b: Batch)
    ensures b in BatchesOf(items) <==> Shows(items, b)
    decreases |items|
  {
    if items != [] {
      var n := |items| - 1;
      BatchesShown(items[..n], b);
      assert Shows(items, b) <==>
               Shows(items[..n], b) || (items[n].Accepted? && b == BatchOf(items[n].record)) by {
        assert forall i :: 0 <= i < n ==> items[i] == items[..n][i];
      }
    }
  }

  lemma {:induction false} ClimbingBatches(items: seq<Item>, end: int)
    requires Climbs(items, end)
    ensures Increasing(BatchesOf(items))
    ensures forall b :: b in BatchesOf(items) ==> b.seqNo < end && Shows(items, b)
    ensures forall i :: 0 <= i < |items| && items[i].Accepted? ==> BatchOf(items[i].record) in BatchesOf(items)
    decreases |items|
  {
    forall b
      ensures b in BatchesOf(items) <==> Shows(items, b)
    {
      BatchesShown(items, b);
    }
    if items != [] {
      var n := |items| - 1;
      ClimbingBatches(items[..n], ItemFirst(items[n]));
      hide Shows, Climbs;
      var init, all := BatchesOf(items[..n]), BatchesOf(items);
      assert forall i :: 0 <= i < |init| ==> all[i] == init[i] && init[i] in init;
    }
  }

  /** Tiles whose items are well formed climb. */
  lemma {:induction false} TilesClimb(items: seq<Item>, n: nat, end: nat)
    requires Tiles(items, n, end) && forall i :: 0 <= i < |items| ==> ItemFirst(items[i]) <= ItemLast(items[i])
    ensures Climbs(items, end) && n <= end
    ensures forall i :: 0 <= i < |items| ==> n <= ItemFirst(items[i])
    decreases |items|
  {
    if items != [] {
      var rest := items[1..];
      assert forall i :: 0 < i < |items| ==> items[i] == rest[i - 1];
      TilesClimb(rest, ItemLast(items[0]) + 1, end);
    }
  }

  lemma {:induction false} ReplayIsWellFormed(c: Coverage, frontier: U64, n: nat)
    requires Disjoint(c)
    ensures forall i :: 0 <= i < |ReplayFrom(c, frontier, n)| ==>
              ItemFirst(ReplayFrom(c, frontier, n)[i]) <= ItemLast(ReplayFrom(c, frontier, n)[i])
    decreases U64_LIMIT - n
  {
    if n <= frontier && n < U64_LIMIT {
      if n in c.accepted {
        ReplayIsWellFormed(c, frontier, n + 1);
      } else if n in c.gaps && n <= c.gaps[n].last {
        ReplayIsWellFormed(c, frontier, c.gaps[n].last as nat + 1);
      }
    }
  }

  /** A staged stream: one batch per replayed record, with ever higher sequence numbers. */
  method ReadStaged(s: State) returns (log: TaskLog)
    requires Inv(s)
    ensures log == TaskLog(BatchesOf(Replay(s)), MarkerOf(s.terminal)) && Increasing(log.batches)
  {
    var items := ReplayRecords(s);
    var batches := [];
    var i := 0;
    while i < |items|
      invariant i <= |items| && batches == BatchesOf(items[..i])
    {
      assert items[..i + 1][..i] == items[..i];
      if items[i].Accepted? {
        batches := batches + [BatchOf(items[i].record)];
      }
      i := i + 1;
    }
    assert items[..i] == items;
    log := TaskLog(batches, MarkerOf(s.terminal));
    if s.frontier.Some? {
      ReplayFromTiles(s.cover, s.frontier.value, 0, 0);
      ReplayIsWellFormed(s.cover, s.frontier.value, 0);
      TilesClimb(items, 0, After(s.frontier));
    }
    ClimbingBatches(items, After(s.frontier));
  }

  lemma {:induction false} Occurs(items: seq<Item>, r: Record)
    ensures Occurrences(items, r) > 0 <==> Accepted(r) in items
    decreases |items|
  {
    if items != [] {
      Occurs(items[1..], r);
      assert items == [items[0]] + items[1..];
    }
  }

  lemma {:induction false} ReplayedIsAccepted(c: Coverage, frontier: U64, n: nat, r: Record)
    requires Disjoint(c) && Accepted(r) in ReplayFrom(c, frontier, n)
    ensures r.sequence in c.accepted && c.accepted[r.sequence] == r
    decreases U64_LIMIT - n
  {
    var all := ReplayFrom(c, frontier, n);
    assert all == [all[0]] + all[1..];
    if all[0] != Accepted(r) {
      if n in c.accepted {
        ReplayedIsAccepted(c, frontier, n + 1, r);
      } else {
        ReplayedIsAccepted(c, frontier, c.gaps[n].last as nat + 1, r);
      }
    }
  }

  /** A staged stream shows exactly the accepted records below which nothing is missing. */
  lemma StagedBatch(s: State, n: nat, bytes: Bytes)
    requires Inv(s)
    ensures Batch(n, bytes) in BatchesOf(Replay(s)) <==>
              CoveredBelow(s.cover, n) && n < U64_LIMIT && n in s.cover.accepted && s.cover.accepted[n].bytes == bytes
  {
    var items := Replay(s);
    if s.frontier.Some? {
      ReplayFromTiles(s.cover, s.frontier.value, 0, 0);
      ReplayIsWellFormed(s.cover, s.frontier.value, 0);
      TilesClimb(items, 0, After(s.frontier));
    }
    ClimbingBatches(items, After(s.frontier));
    if Batch(n, bytes) in BatchesOf(items) {
      var i :| 0 <= i < |items| && items[i].Accepted? && Batch(n, bytes) == BatchOf(items[i].record);
      assert items[i] in items;
      ReplayedIsAccepted(s.cover, s.frontier.value, 0, items[i].record);
      Occurs(items, items[i].record);
      ReplayedExactlyOnceIffContiguous(s, n);
    }
    if n < U64_LIMIT && n in s.cover.accepted {
      ReplayedExactlyOnceIffContiguous(s, n);
      Occurs(items, s.cover.accepted[n]);
      if Accepted(s.cover.accepted[n]) in items {
        var i :| 0 <= i < |items| && items[i] == Accepted(s.cover.accepted[n]);
        assert BatchOf(items[i].record) in BatchesOf(items);
      }
    }
  }

  /** An installed final log lists its records by sequence number; otherwise the staged stream is replayed. */
  datatype Stored = Final(records: seq<Record>, terminal: Terminal) | Staged(state: State)

  ghost predicate Sorted(records: seq<Record>) {
    forall i, j :: 0 <= i < j < |records| ==> records[i].sequence < records[j].sequence
  }

  ghost predicate Readable(stored: Stored) {
    match stored
    case Final(records, _) => Sorted(records)
    case Staged(state) => Inv(state)
  }

  /** What the store holds of the stream, in order. */
  ghost function Content(stored: Stored): TaskLog {
    match stored
    case Final(records, terminal) =>
      TaskLog(seq(|records|, i requires 0 <= i < |records| => BatchOf(records[i])), MarkerOf(Some(terminal)))
    case Staged(state) => TaskLog(BatchesOf(Replay(state)), MarkerOf(state.terminal))
  }

  /** Reads a stream: one batch per stored record, with ever higher sequence numbers. */
  method Read(stored: Stored) returns (log: TaskLog)
    requires Readable(stored)
    ensures log == Content(stored) && Increasing(log.batches)
    ensures stored.Final? ==>
              && |log.batches| == |stored.records|
              && forall i :: 0 <= i < |log.batches| ==>
                   log.batches[i].seqNo == stored.records[i].sequence && log.batches[i].bytes == stored.records[i].bytes
    ensures stored.Staged? ==>
              forall n: nat, bytes :: Batch(n, bytes) in log.batches <==>
                && CoveredBelow(stored.state.cover, n) && n < U64_LIMIT && n in stored.state.cover.accepted
                && stored.state.cover.accepted[n].bytes == bytes
    ensures var t := if stored.Final? then Some(stored.terminal) else stored.state.terminal;
            && (t == None || t.value.AbnormalClosure? ==> log.marker == None)
            && (forall code :: t == Some(EndOfStream(Status(code))) ==> log.marker == Some(Marker(code, None)))
            && (t == Some(EndOfStream(NoStatus)) ==> log.marker == Some(Marker(-1, None)))
            && (forall why :: t == Some(EndOfStream(Error(why))) ==> log.marker == Some(Marker(-1, Some(why))))
  {
    match stored {
      case Staged(state) =>
        log := ReadStaged(state);
        forall n: nat, bytes
          ensures Batch(n, bytes) in log.batches <==>
                    && CoveredBelow(state.cover, n) && n < U64_LIMIT && n in state.cover.accepted
                    && state.cover.accepted[n].bytes == bytes
        {
          StagedBatch(state, n, bytes);
        }
      case Final(records, terminal) =>
        var batches := [];
        var i := 0;
        while i < |records|
          invariant i <= |records| && |batches| == i
          invariant forall j :: 0 <= j < i ==> batches[j] == BatchOf(records[j])
        {
          batches := batches + [BatchOf(records[i])];
          i := i + 1;
        }
        log := TaskLog(batches, MarkerOf(Some(terminal)));
        assert batches == Content(stored).batches;
    }
  }

  // ------------------------------------------------------------ pages

  function Keep(s: seq<Batch>, p: Bound): (kept: seq<Batch>)
    ensures |kept| <= |s|
  {
    if s == [] then [] else Keep(s[..|s| - 1], p) + (if p.Admits(s[|s| - 1]) then [s[|s| - 1]] else [])
  }

  /** `Vec::retain`, one element at a time. */
  method Retain(s: seq<Batch>, p: Bound) returns (kept: seq<Batch>)
    ensures kept == Keep(s, p)
  {
    kept := [];
    var i := 0;
    while i < |s|
      invariant i <= |s| && kept == Keep(s[..i], p)
    {
      assert s[..i + 1][..i] == s[..i];
      if p.Admits(s[i]) {
        kept := kept + [s[i]];
      }
      i := i + 1;
    }
    assert s[..i] == s;
  }

  /** How many batches lie below `before`; all of them without a bound. */
  function Below(s: seq<Batch>, before: Option<nat>): (n: nat)
    ensures n <= |s|
  {
    match before
    case None => |s|
    case Some(b) => |Keep(s, Under(b))|
  }

  /** In an increasing log, the batches under a bound are a prefix. */
  lemma {:induction false} KeepCuts(s: seq<Batch>, b: nat)
    requires Increasing(s)
    ensures Below(s, Some(b)) <= |s| && Keep(s, Under(b)) == s[..Below(s, Some(b))]
    ensures forall i :: 0 <= i < |s| ==> (s[i].seqNo < b <==> i < Below(s, Some(b)))
    decreases |s|
  {
    if s != [] { KeepCuts(s[..|s| - 1], b); }
  }

  /** And those over a bound are the rest. */
  lemma {:induction false} KeepRest(s: seq<Batch>, b: nat)
    requires Increasing(s)
    ensures Below(s, Some(b + 1)) <= |s| && Keep(s, Over(b)) == s[Below(s, Some(b + 1))..]
    decreases |s|
  {
    KeepCuts(s, b + 1);
    if s != [] {
      KeepCuts(s[..|s| - 1], b + 1);
      KeepRest(s[..|s| - 1], b);
    }
  }

  /** The last `tail` batches below the bound. */
  method FetchTail(log: TaskLog, tail: nat, before: Option<nat>) returns (page: Page)
    requires Increasing(log.batches)
    ensures page == TailPage(log, tail, before)
  {
    var s := log.batches;
    var batches := s;
    if before.Some? {
      var b := before.value;
      KeepCuts(s, b);
      batches := Retain(s, Under(b));
    }
    var hasEarlier := |batches| > tail;
    if hasEarlier {
      batches := batches[|batches| - tail..];
    }
    assert batches == TailPage(log, tail, before).batches;
    page := Page(batches, log.marker, hasEarlier);
  }

  /** As a slice of the log. */
  function TailPage(log: TaskLog, tail: nat, before: Option<nat>): Page {
    var end := Below(log.batches, before);
    Page(log.batches[if end > tail then end - tail else 0..end], log.marker, end > tail)
  }

  /** The batches below the sequence of batch `i` are the first `i`. */
  lemma BelowOf(s: seq<Batch>, i: nat)
    requires Increasing(s) && i < |s|
    ensures Below(s, Some(s[i].seqNo)) == i
  {
    KeepCuts(s, s[i].seqNo);
    if i > 0 { assert s[i - 1].seqNo < s[i].seqNo; }
  }

  /** Walks backwards by the first sequence of each page, and visits every batch exactly once. */
  method WalkBack(log: TaskLog, tail: nat) returns (visited: seq<Batch>)
    requires Increasing(log.batches) && tail >= 1
    ensures visited == log.batches
  {
    ghost var s := log.batches;
    var before: Option<nat> := None;
    visited := [];
    ghost var end := |s|;
    while true
      invariant 0 <= end <= |s| && visited == s[end..] && Below(s, before) == end
      decreases end
    {
      var page := FetchTail(log, tail, before);
      visited := page.batches + visited;
      if !page.hasEarlier {
        return;
      }
      end := end - tail;
      before := Some(page.batches[0].seqNo);
      BelowOf(s, end);
    }
  }

  method FetchAfter(log: TaskLog, after: nat) returns (page: Page)
    ensures page == Page(Keep(log.batches, Over(after)), log.marker, false)
  {
    var batches := Retain(log.batches, Over(after));
    page := Page(batches, log.marker, false);
  }

  /** Following a growing log: what is fetched after the last batch seen is exactly what is new. */
  lemma FollowingMissesNothing(seen: seq<Batch>, log: seq<Batch>)
    requires Increasing(log) && seen <= log && seen != []
    ensures seen + Keep(log, Over(seen[|seen| - 1].seqNo)) == log
  {
    var last := |seen| - 1;
    var b := log[last].seqNo;
    KeepCuts(log, b + 1);
    KeepRest(log, b);
    var n := Below(log, Some(b + 1));
    assert log[last].seqNo < b + 1;
    if |seen| < |log| { assert b < log[|seen|].seqNo; }
  }
}
