/**
 Forwarding the local task-event outbox. Any number of forwarders each select the oldest pending
 row, send its event to the relay, and only then mark it; a crash may fall between any two steps.
 Selecting and marking are single SQL statements. Cancellation acknowledgements follow the same steps.
 */
module OutboxForwarding {
  import opened Basics

  type Forwarder = nat

  /** The primary key, with the rank that the selection gives to the event kind. */
  datatype Key = Key(dispatch: nat, generation: nat, kind: nat)

  datatype Row = Row(stagedAt: nat, event: Bytes, forwarded: bool)

  type Rows = map<Key, Row>

  datatype Phase =
    | Selected(key: Key, event: Bytes, known: set<Key>)
    | Sent(key: Key, event: Bytes)

  /** One message on the relay; `known` are the rows that existed when its row was selected. */
  datatype Message = Message(key: Key, event: Bytes, known: set<Key>)

  datatype State = State(rows: Rows, forwarders: map<Forwarder, Phase>, relay: seq<Message>)

  datatype Event =
    | Stage(key: Key, stagedAt: nat, event: Bytes)
    | Select(f: Forwarder)
    | Send(f: Forwarder)
    | Mark(f: Forwarder)
    | Crash(f: Forwarder)

  /** The order of the selection: staging time, then dispatch, generation and kind. */
  predicate Before(rows: Rows, a: Key, b: Key)
    requires a in rows && b in rows
  {
    var x, y := rows[a].stagedAt, rows[b].stagedAt;
    x < y || (x == y && (a.dispatch < b.dispatch || (a.dispatch == b.dispatch &&
      (a.generation < b.generation || (a.generation == b.generation && a.kind < b.kind)))))
  }

  predicate Precedes(rows: Rows, a: Key, b: Key) { a in rows && b in rows && Before(rows, a, b) }

  predicate Pending(rows: Rows, k: Key) { k in rows && !rows[k].forwarded }

  predicate Oldest(rows: Rows, k: Key) {
    Pending(rows, k) && forall other | other in rows :: Pending(rows, other) && other != k ==> Before(rows, k, other)
  }

  lemma Ordered(rows: Rows, a: Key, b: Key)
    requires a in rows && b in rows && a != b
    ensures Before(rows, a, b) != Before(rows, b, a)
  {
  }

  /** Some pending row comes first, whenever one is pending. */
  lemma {:induction false} OldestExists(rows: Rows, pending: set<Key>) returns (k: Key)
    requires pending != {} && forall p :: p in pending ==> p in rows
    ensures k in pending && forall other :: other in pending && other != k ==> Before(rows, k, other)
    decreases |pending|
  {
    var p :| p in pending;
    var rest := pending - {p};
    if rest == {} {
      k := p;
      assert forall other :: other in pending ==> other == p || other in rest;
    } else {
      k := OldestExists(rows, rest);
      if Before(rows, p, k) {
        k := p;
      } else {
        Ordered(rows, p, k);
      }
      assert forall other :: other in pending ==> other == p || other in rest;
    }
  }

  ghost function OldestPending(rows: Rows): Option<Key> {
    if k :| Oldest(rows, k) then Some(k) else None
  }

  lemma SelectionFindsPending(rows: Rows)
    ensures OldestPending(rows).None? <==> forall k :: !Pending(rows, k)
  {
    var pending := set k | k in rows && Pending(rows, k);
    if pending != {} {
      var k := OldestExists(rows, pending);
      assert Oldest(rows, k);
    } else {
      forall k ensures !Pending(rows, k) { assert k !in pending; }
    }
  }

  ghost function Step(s: State, e: Event): State {
    match e
    case Stage(key, stagedAt, event) =>
      if key in s.rows then s else s.(rows := s.rows[key := Row(stagedAt, event, false)])
    case Select(f) =>
      var k := OldestPending(s.rows);
      if f in s.forwarders || k.None? then s
      else s.(forwarders := s.forwarders[f := Selected(k.value, s.rows[k.value].event, s.rows.Keys)])
    case Send(f) =>
      if f !in s.forwarders || !s.forwarders[f].Selected? then s
      else
        var p := s.forwarders[f];
        s.(relay := s.relay + [Message(p.key, p.event, p.known)], forwarders := s.forwarders[f := Sent(p.key, p.event)])
    case Mark(f) =>
      if f !in s.forwarders || !s.forwarders[f].Sent? then s
      else
        var p := s.forwarders[f];
        var idle := s.(forwarders := s.forwarders - {f});
        if Pending(s.rows, p.key) && s.rows[p.key].event == p.event
        then idle.(rows := s.rows[p.key := s.rows[p.key].(forwarded := true)])
        else idle
    case Crash(f) => s.(forwarders := s.forwarders - {f})
  }

  ghost function Run(s: State, events: seq<Event>): State
    decreases |events|
  {
    if events == [] then s else Run(Step(s, events[0]), events[1..])
  }

  const EMPTY := State(map[], map[], [])

  // ------------------------------------------------------------ what every step keeps

  /** `k` is on the relay before position `n`. */
  ghost predicate SentBefore(relay: seq<Message>, n: int, k: Key) {
    exists i :: 0 <= i < n && i < |relay| && relay[i].key == k
  }

  /** Message `i` carries its row unchanged, and every earlier row known at its selection went out before it. */
  ghost predicate MessageGood(rows: Rows, relay: seq<Message>, i: int)
    requires 0 <= i < |relay|
  {
    var m := relay[i];
    && m.key in rows && m.event == rows[m.key].event && m.key in m.known && m.known <= rows.Keys
    && forall k :: k in m.known && Before(rows, k, m.key) ==> SentBefore(relay, i, k)
  }

  ghost predicate PhaseGood(rows: Rows, relay: seq<Message>, p: Phase) {
    && p.key in rows && p.event == rows[p.key].event
    && match p
       case Selected(key, _, known) =>
         && key in known && known <= rows.Keys
         && (forall k :: k in known && Before(rows, k, key) ==> SentBefore(relay, |relay|, k))
       case Sent(key, _) => SentBefore(relay, |relay|, key)
  }

  ghost predicate Inv(s: State) {
    && (forall k :: k in s.rows && s.rows[k].forwarded ==> SentBefore(s.relay, |s.relay|, k))
    && (forall i :: 0 <= i < |s.relay| ==> MessageGood(s.rows, s.relay, i))
    && (forall f :: f in s.forwarders ==> PhaseGood(s.rows, s.relay, s.forwarders[f]))
  }

  /** Rows only gain company and lose their pending flag. */
  ghost predicate Extends(rows: Rows, more: Rows) {
    forall k :: k in rows ==> k in more && more[k].event == rows[k].event && more[k].stagedAt == rows[k].stagedAt
  }

  lemma RowsExtend(s: State, rows: Rows)
    requires Inv(s) && Extends(s.rows, rows)
    requires forall k :: k in rows && rows[k].forwarded ==> SentBefore(s.relay, |s.relay|, k)
    ensures Inv(s.(rows := rows))
  {
    forall i | 0 <= i < |s.relay|
      ensures MessageGood(rows, s.relay, i)
    {
      assert MessageGood(s.rows, s.relay, i);
    }
    forall f | f in s.forwarders
      ensures PhaseGood(rows, s.relay, s.forwarders[f])
    {
      assert PhaseGood(s.rows, s.relay, s.forwarders[f]);
    }
  }

  lemma SentLater(relay: seq<Message>, n: int, k: Key, m: Message)
    requires SentBefore(relay, n, k)
    ensures SentBefore(relay + [m], n, k) && SentBefore(relay + [m], |relay| + 1, k)
  {
    var i :| 0 <= i < n && i < |relay| && relay[i].key == k;
    assert (relay + [m])[i].key == k;
  }

  lemma SendKeepsInv(s: State, f: Forwarder)
    requires Inv(s) && f in s.forwarders && s.forwarders[f].Selected?
    ensures Inv(Step(s, Send(f)))
  {
    var p := s.forwarders[f];
    assert PhaseGood(s.rows, s.relay, p);
    var m := Message(p.key, p.event, p.known);
    var relay := s.relay + [m];
    forall k, n | SentBefore(s.relay, n, k)
      ensures SentBefore(relay, n, k) && SentBefore(relay, |relay|, k)
    {
      SentLater(s.relay, n, k, m);
    }
    forall i | 0 <= i < |relay|
      ensures MessageGood(s.rows, relay, i)
    {
      if i < |s.relay| {
        assert MessageGood(s.rows, s.relay, i);
      } else {
        forall k | k in m.known && Before(s.rows, k, m.key)
          ensures SentBefore(relay, i, k)
        {
          assert SentBefore(s.relay, |s.relay|, k);
        }
      }
    }
    assert relay[|s.relay|].key == p.key;
    assert SentBefore(relay, |relay|, p.key);
    forall g | g in s.forwarders && g != f
      ensures PhaseGood(s.rows, relay, s.forwarders[g])
    {
      assert PhaseGood(s.rows, s.relay, s.forwarders[g]);
    }
  }

  lemma StepKeepsInv(s: State, e: Event)
    requires Inv(s)
    ensures Inv(Step(s, e))
  {
    match e {
      case Stage(key, stagedAt, event) =>
        if key !in s.rows { RowsExtend(s, Step(s, e).rows); }
      case Select(f) =>
        var k := OldestPending(s.rows);
        if f !in s.forwarders && k.Some? {
          forall other | other in s.rows && Before(s.rows, other, k.value)
            ensures SentBefore(s.relay, |s.relay|, other)
          {
            Ordered(s.rows, other, k.value);
            assert !Pending(s.rows, other);
          }
        }
      case Send(f) =>
        if f in s.forwarders && s.forwarders[f].Selected? { SendKeepsInv(s, f); }
      case Mark(f) =>
        if f in s.forwarders && s.forwarders[f].Sent? {
          assert PhaseGood(s.rows, s.relay, s.forwarders[f]);
          RowsExtend(s, Step(s, e).rows);
        }
      case Crash(f) =>
    }
  }

  lemma {:induction false} RunKeepsInv(s: State, events: seq<Event>)
    requires Inv(s)
    ensures Inv(Run(s, events))
    decreases |events|
  {
    if events != [] {
      StepKeepsInv(s, events[0]);
      RunKeepsInv(Step(s, events[0]), events[1..]);
    }
  }

  /**
   With any forwarders and crashes: a marked row was sent, every message is a staged row unchanged,
   and a row that was already staged when a later one was selected went out before it.
   */
  lemma ForwardingIsFaithful(events: seq<Event>)
    ensures var s := Run(EMPTY, events);
            && (forall k :: k in s.rows && s.rows[k].forwarded ==>
                  exists i :: 0 <= i < |s.relay| && s.relay[i].key == k && s.relay[i].event == s.rows[k].event)
            && (forall i :: 0 <= i < |s.relay| ==>
                  s.relay[i].key in s.rows && s.relay[i].event == s.rows[s.relay[i].key].event)
            && (forall i, k :: 0 <= i < |s.relay| && k in s.relay[i].known && Precedes(s.rows, k, s.relay[i].key) ==>
                  SentBefore(s.relay, i, k))
  {
    RunKeepsInv(EMPTY, events);
    var s := Run(EMPTY, events);
    forall k | k in s.rows && s.rows[k].forwarded
      ensures exists i :: 0 <= i < |s.relay| && s.relay[i].key == k && s.relay[i].event == s.rows[k].event
    {
      var i :| 0 <= i < |s.relay| && s.relay[i].key == k;
      assert MessageGood(s.rows, s.relay, i);
    }
    forall i | 0 <= i < |s.relay|
      ensures s.relay[i].key in s.rows && s.relay[i].event == s.rows[s.relay[i].key].event
      ensures forall k :: k in s.relay[i].known && Precedes(s.rows, k, s.relay[i].key) ==> SentBefore(s.relay, i, k)
    {
      assert MessageGood(s.rows, s.relay, i);
    }
  }

  /**
   In plain terms: of two rows known at a selection, the one staged earlier is sent before the other;
   of two staged at once, the one with the smaller dispatch, then generation, then kind.
   */
  lemma EarlierRowsGoFirst(events: seq<Event>, i: int, k: Key)
    requires var s := Run(EMPTY, events);
             0 <= i < |s.relay| && k in s.relay[i].known && k in s.rows && s.relay[i].key in s.rows
    requires var s := Run(EMPTY, events);
             var key := s.relay[i].key;
             var x, y := s.rows[k].stagedAt, s.rows[key].stagedAt;
             || x < y
             || (x == y && k.dispatch < key.dispatch)
             || (x == y && k.dispatch == key.dispatch && k.generation < key.generation)
             || (x == y && k.dispatch == key.dispatch && k.generation == key.generation && k.kind < key.kind)
    ensures SentBefore(Run(EMPTY, events).relay, i, k)
  {
    RunKeepsInv(EMPTY, events);
    var s := Run(EMPTY, events);
    assert MessageGood(s.rows, s.relay, i);
  }

  // ------------------------------------------------------------ rows staged in order

  /** Every new row comes after all rows already staged. */
  ghost predicate InOrder(s: State, events: seq<Event>)
    decreases |events|
  {
    events == [] ||
    (&& (events[0].Stage? && events[0].key !in s.rows ==>
           var rows := Step(s, events[0]).rows;
           forall k :: k in s.rows ==> Before(rows, k, events[0].key))
     && InOrder(Step(s, events[0]), events[1..]))
  }

  /** Nothing before `key` was missing from `known`. */
  ghost predicate KnowsEarlier(rows: Rows, key: Key, known: set<Key>) {
    forall k :: Precedes(rows, k, key) ==> k in known
  }

  ghost predicate Complete(s: State) {
    && (forall i :: 0 <= i < |s.relay| ==> KnowsEarlier(s.rows, s.relay[i].key, s.relay[i].known))
    && (forall f :: f in s.forwarders && s.forwarders[f].Selected? ==>
          KnowsEarlier(s.rows, s.forwarders[f].key, s.forwarders[f].known))
  }

  lemma StageKeepsComplete(s: State, rows: Rows, key: Key)
    requires Inv(s) && Complete(s) && key !in s.rows && Extends(s.rows, rows) && rows.Keys == s.rows.Keys + {key}
    requires forall k :: k in s.rows ==> Before(rows, k, key)
    ensures Complete(s.(rows := rows))
  {
    forall k, known | k in s.rows && KnowsEarlier(s.rows, k, known)
      ensures KnowsEarlier(rows, k, known)
    {
      Ordered(rows, key, k);
      assert forall other :: Precedes(rows, other, k) ==> Precedes(s.rows, other, k);
    }
    forall i | 0 <= i < |s.relay|
      ensures KnowsEarlier(rows, s.relay[i].key, s.relay[i].known)
    {
      assert MessageGood(s.rows, s.relay, i) && KnowsEarlier(s.rows, s.relay[i].key, s.relay[i].known);
    }
    assert forall f :: f in s.forwarders ==> PhaseGood(s.rows, s.relay, s.forwarders[f]);
  }

  lemma StepKeepsComplete(s: State, e: Event)
    requires Inv(s) && Complete(s) && InOrder(s, [e])
    ensures Complete(Step(s, e))
  {
    var t := Step(s, e);
    if e.Stage? && e.key !in s.rows {
      StageKeepsComplete(s, t.rows, e.key);
    } else {
      assert forall a, b :: Precedes(t.rows, a, b) <==> Precedes(s.rows, a, b);
      assert forall k, known :: KnowsEarlier(s.rows, k, known) ==> KnowsEarlier(t.rows, k, known);
    }
  }

  lemma {:induction false} InOrderStaysComplete(s: State, events: seq<Event>)
    requires Inv(s) && Complete(s) && InOrder(s, events)
    ensures Complete(Run(s, events))
    decreases |events|
  {
    if events != [] {
      StepKeepsInv(s, events[0]);
      StepKeepsComplete(s, events[0]);
      InOrderStaysComplete(Step(s, events[0]), events[1..]);
    }
  }

  /** Every row of the relay was preceded by the first send of each earlier row. */
  ghost predicate Orderly(s: State) {
    forall i, k :: 0 <= i < |s.relay| && Precedes(s.rows, k, s.relay[i].key) ==> SentBefore(s.relay, i, k)
  }

  /** First sends happen in staged order when rows are staged in order. */
  lemma FirstSendsInStagedOrder(events: seq<Event>)
    requires InOrder(EMPTY, events)
    ensures Orderly(Run(EMPTY, events))
  {
    RunKeepsInv(EMPTY, events);
    InOrderStaysComplete(EMPTY, events);
    var s := Run(EMPTY, events);
    forall i, k | 0 <= i < |s.relay| && Precedes(s.rows, k, s.relay[i].key)
      ensures SentBefore(s.relay, i, k)
    {
      assert KnowsEarlier(s.rows, s.relay[i].key, s.relay[i].known);
      assert MessageGood(s.rows, s.relay, i);
    }
  }

  // ------------------------------------------------------------ and only then

  ghost function Stagings(events: seq<Event>): seq<Event>
    decreases |events|
  {
    if events == [] then []
    else (if events[0].Stage? then [events[0]] else []) + Stagings(events[1..])
  }

  /** The same rows, up to which of them are forwarded. */
  ghost predicate SameRows(a: Rows, b: Rows) { Extends(a, b) && Extends(b, a) }

  lemma StepSameRows(s: State, t: State, e: Event)
    requires SameRows(s.rows, t.rows)
    ensures if e.Stage? then SameRows(Step(s, e).rows, Step(t, e).rows) else SameRows(Step(s, e).rows, t.rows)
    ensures InOrder(s, [e]) <==> InOrder(t, [e])
  {
    if e.Stage? && e.key !in s.rows {
      var a, b := Step(s, e).rows, Step(t, e).rows;
      assert forall k :: k in s.rows ==> (Before(a, k, e.key) <==> Before(b, k, e.key));
    }
  }

  lemma InOrderFirst(s: State, events: seq<Event>)
    requires events != []
    ensures InOrder(s, events) <==> InOrder(s, [events[0]]) && InOrder(Step(s, events[0]), events[1..])
  {
    hide Step;
  }

  /** The order of staging does not depend on what the forwarders do in between. */
  lemma {:induction false} OnlyStagingsMatter(s: State, t: State, events: seq<Event>)
    requires SameRows(s.rows, t.rows)
    ensures InOrder(s, events) <==> InOrder(t, Stagings(events))
    decreases |events|
  {
    if events != [] {
      var e, rest := events[0], Stagings(events[1..]);
      StepSameRows(s, t, e);
      InOrderFirst(s, events);
      hide Step, SameRows, InOrder;
      if e.Stage? {
        assert Stagings(events) == [e] + rest && ([e] + rest)[1..] == rest;
        InOrderFirst(t, [e] + rest);
        OnlyStagingsMatter(Step(s, e), Step(t, e), events[1..]);
      } else {
        assert Stagings(events) == rest;
        NotStaging(s, e);
        OnlyStagingsMatter(Step(s, e), t, events[1..]);
      }
    }
  }

  lemma NotStaging(s: State, e: Event)
    requires !e.Stage?
    ensures InOrder(s, [e])
  {
  }

  lemma {:induction false} RunAppend(s: State, first: seq<Event>, rest: seq<Event>)
    ensures Run(s, first + rest) == Run(Run(s, first), rest)
    ensures Stagings(first + rest) == Stagings(first) + Stagings(rest)
    decreases |first|
  {
    if first == [] {
      assert first + rest == rest;
    } else {
      assert (first + rest)[1..] == first[1..] + rest;
      RunAppend(Step(s, first[0]), first[1..], rest);
    }
  }

  const ROUND := [Select(0), Send(0), Mark(0)]

  /** An undisturbed round sends the oldest pending row and marks it. */
  lemma OneRound(s: State, k: Key)
    requires s.forwarders == map[] && OldestPending(s.rows) == Some(k)
    ensures Run(s, ROUND) == State(s.rows[k := s.rows[k].(forwarded := true)], map[],
                                   s.relay + [Message(k, s.rows[k].event, s.rows.Keys)])
  {
    assert ROUND[1..] == [Send(0), Mark(0)] && ROUND[1..][1..] == [Mark(0)];
    var s1 := Step(s, Select(0));
    var s2 := Step(s1, Send(0));
    var s3 := Step(s2, Mark(0));
    assert s1.forwarders == map[0 := Selected(k, s.rows[k].event, s.rows.Keys)];
    assert s2.forwarders == map[0 := Sent(k, s.rows[k].event)];
    assert s3.forwarders == map[];
    assert Run(s2, [Mark(0)]) == s3;
  }

  ghost function PendingKeys(rows: Rows): set<Key> { set k | k in rows && Pending(rows, k) }

  /** Rounds of one forwarder send and mark every pending row. */
  lemma {:induction false} RoundsForwardAll(s: State) returns (events: seq<Event>)
    requires Inv(s) && s.forwarders == map[]
    ensures var t := Run(s, events);
            && Stagings(events) == [] && Inv(t) && t.forwarders == map[] && SameRows(s.rows, t.rows)
            && forall k :: k in t.rows ==> SentBefore(t.relay, |t.relay|, k)
    decreases |PendingKeys(s.rows)|
  {
    SelectionFindsPending(s.rows);
    if OldestPending(s.rows).None? {
      events := [];
      forall k | k in s.rows
        ensures SentBefore(s.relay, |s.relay|, k)
      {
        assert !Pending(s.rows, k);
      }
    } else {
      var k := OldestPending(s.rows).value;
      var t := Run(s, ROUND);
      OneRound(s, k);
      RunKeepsInv(s, ROUND);
      assert PendingKeys(t.rows) == PendingKeys(s.rows) - {k};
      assert SameRows(s.rows, t.rows);
      var rest := RoundsForwardAll(t);
      events := ROUND + rest;
      RunAppend(s, ROUND, rest);
      assert ROUND[1..] == [Send(0), Mark(0)] && ROUND[1..][1..] == [Mark(0)] && Stagings(ROUND) == [];
    }
  }

  ghost predicate AllStages(events: seq<Event>) { forall i :: 0 <= i < |events| ==> events[i].Stage? }

  /** Staging sends nothing and keeps every row. */
  lemma {:induction false} StagingOnly(s: State, list: seq<Event>)
    requires AllStages(list)
    ensures Run(s, list).relay == s.relay && Run(s, list).forwarders == s.forwarders
    ensures Extends(s.rows, Run(s, list).rows)
    ensures Stagings(list) == list
    decreases |list|
  {
    if list != [] {
      StagingOnly(Step(s, list[0]), list[1..]);
    }
  }

  /** Position `n` of the list stages a row that belongs before one already there. */
  ghost predicate Backward(s: State, list: seq<Event>, n: nat, earlier: Key) {
    && n < |list| && list[n].Stage?
    && (var before := Run(s, list[..n]).rows;
        && list[n].key !in before && earlier in before
        && Precedes(before[list[n].key := Row(list[n].stagedAt, list[n].event, false)], list[n].key, earlier))
  }

  lemma {:induction false} FirstBackward(s: State, list: seq<Event>) returns (n: nat, earlier: Key)
    requires AllStages(list) && !InOrder(s, list)
    ensures Backward(s, list, n, earlier)
    decreases |list|
  {
    var t := Step(s, list[0]);
    if InOrder(t, list[1..]) {
      n := 0;
      earlier :| earlier in s.rows && !Before(t.rows, earlier, list[0].key);
      Ordered(t.rows, earlier, list[0].key);
      assert Run(s, list[..0]) == s;
    } else {
      n, earlier := FirstBackward(t, list[1..]);
      n := n + 1;
      assert list[..n][1..] == list[1..][..n - 1];
    }
  }

  /** A row staged after `earlier` was sent, but belonging before it, has missed its turn. */
  lemma MissedTurn(t: State, rest: seq<Event>, earlier: Key)
    requires Inv(t) && AllStages(rest) && rest != [] && rest[0].key !in t.rows
    requires SentBefore(t.relay, |t.relay|, earlier)
    requires earlier in t.rows && Precedes(Step(t, rest[0]).rows, rest[0].key, earlier)
    ensures !Orderly(Run(t, rest))
  {
    var k, u, end := rest[0].key, Step(t, rest[0]), Run(t, rest);
    StagingOnly(u, rest[1..]);
    assert end.relay == t.relay && Extends(u.rows, end.rows);
    var i :| 0 <= i < |t.relay| && t.relay[i].key == earlier;
    forall j | 0 <= j < |t.relay|
      ensures t.relay[j].key != k
    {
      assert MessageGood(t.rows, t.relay, j);
    }
    assert Precedes(end.rows, k, earlier) && !SentBefore(end.relay, i, k);
  }

  lemma BackwardNow(before: Rows, t: State, e: Event, earlier: Key)
    requires e.Stage? && SameRows(before, t.rows) && e.key !in before && earlier in before
    requires Precedes(before[e.key := Row(e.stagedAt, e.event, false)], e.key, earlier)
    ensures e.key !in t.rows && earlier in t.rows && Precedes(Step(t, e).rows, e.key, earlier)
  {
  }

  /** Forward everything, then stage the row that belongs before. */
  lemma BackwardBreaks(list: seq<Event>, n: nat, earlier: Key) returns (events: seq<Event>)
    requires AllStages(list) && Backward(EMPTY, list, n, earlier)
    ensures Stagings(events) == list && !Orderly(Run(EMPTY, events))
  {
    hide Orderly, Inv, InOrder, Run, Step, Stagings, SentBefore, SameRows, Precedes;
    var first, rest := list[..n], list[n..];
    assert list == first + rest && rest[0] == list[n];
    var s := Run(EMPTY, first);
    StagingOnly(EMPTY, first);
    EmptyIsGood();
    RunKeepsInv(EMPTY, first);
    var rounds := RoundsForwardAll(s);
    var t := Run(s, rounds);
    StagingOnly(t, rest);
    events := first + (rounds + rest);
    RunAppend(EMPTY, first, rounds + rest);
    RunAppend(s, rounds, rest);
    BackwardNow(s.rows, t, rest[0], earlier);
    MissedTurn(t, rest, earlier);
    assert [] + list[n..] == list[n..];
  }

  lemma EmptyIsGood()
    ensures Inv(EMPTY)
  {
  }

  /** Whatever the forwarders do, first sends follow the staged order exactly when the rows are staged in it. */
  lemma OrderlyIffStagedInOrder(list: seq<Event>)
    requires AllStages(list)
    ensures (forall events :: Stagings(events) == list ==> Orderly(Run(EMPTY, events))) <==> InOrder(EMPTY, list)
  {
    if InOrder(EMPTY, list) {
      forall events | Stagings(events) == list
        ensures Orderly(Run(EMPTY, events))
      {
        OnlyStagingsMatter(EMPTY, EMPTY, events);
        FirstSendsInStagedOrder(events);
      }
    } else {
      var n, earlier := FirstBackward(EMPTY, list);
      var events := BackwardBreaks(list, n, earlier);
    }
  }

  /** The steps that a forwarder takes next with the row it holds. */
  predicate Moves(e: Event, f: Forwarder, p: Phase) {
    e == Crash(f) || (if p.Selected? then e == Send(f) else e == Mark(f))
  }

  /** A forwarder holds on to the row and the bytes it selected until it sends them, and until it marks them. */
  lemma {:induction false} ForwarderKeepsItsRow(s: State, events: seq<Event>, f: Forwarder)
    requires f in s.forwarders && forall e :: e in events ==> !Moves(e, f, s.forwarders[f])
    ensures f in Run(s, events).forwarders && Run(s, events).forwarders[f] == s.forwarders[f]
    decreases |events|
  {
    if events != [] {
      assert events[0] in events;
      ForwarderKeepsItsRow(Step(s, events[0]), events[1..], f);
    }
  }
}
