/** Every interleaving of polls, connects, replays, gets and disconnects on one EventHub,
    and what a client can have received. */
module EventStream {
  import opened Common
  import opened Events
  import opened Subsequence

  datatype Phase = Replaying | Live | Closed

  /** One run of the SSE generator. `base` is where its history snapshot starts in the
      publish order; `gap` and `dropped` count the publishes it missed before it
      subscribed and while its queue was full. These three are bookkeeping. */
  datatype Client = Client(phase: Phase, received: seq<Event>, replay: seq<Event>,
                           base: int, gap: nat, dropped: nat)

  /** `published` is every event published since the process started. */
  datatype State = State(hub: Hub, published: seq<Event>, clients: map<int, Client>)

  datatype Op =
    | Poll(runs: seq<DagRun>)
    | Connect(c: int)      // take the history snapshot, then yield its first event or subscribe
    | Replay(c: int)       // yield the next replayed event
    | Subscribe(c: int)    // the replay is done: add a queue
    | Get(c: int)          // take one event from the queue and yield it
    | Heartbeat(c: int)
    | Disconnect(c: int)

  const INITIAL: State := State(Hub([], {}, map[]), [], map[])

  // Bookkeeping of one publish, for a client whose queue is `q`.
  function Count(cl: Client, q: seq<Event>): Client {
    match cl.phase
    case Replaying => cl.(gap := cl.gap + 1)
    case Live => if |q| >= QUEUE_MAX then cl.(dropped := cl.dropped + 1) else cl
    case Closed => cl
  }

  function Queue(s: State, c: int): seq<Event> {
    if c in s.hub.queues then s.hub.queues[c] else []
  }

  function Publish(s: State, evt: Event): State {
    State(PublishTo(s.hub, evt), s.published + [evt],
          map c | c in s.clients :: Count(s.clients[c], Queue(s, c)))
  }

  function PollStep(s: State, runs: seq<DagRun>): State
    decreases |runs|
  {
    if runs == [] then s
    else if RunKey(runs[0]) in s.hub.seen then PollStep(s, runs[1..])
    else
      var marked := s.(hub := s.hub.(seen := s.hub.seen + {RunKey(runs[0])}));
      if Formats(runs[0]) then PollStep(Publish(marked, EventOf(runs[0])), runs[1..]) else marked
  }

  // A step that is not possible in `s` leaves `s` as it is.
  function Step(s: State, op: Op): State {
    match op
    case Poll(runs) => PollStep(s, runs)
    case Connect(c) =>
      if c in s.clients then s
      else if s.hub.events == [] then
        s.(clients := s.clients[c := Client(Live, [], [], |s.published|, 0, 0)],
           hub := s.hub.(queues := s.hub.queues[c := []]))
      else
        var base := |s.published| - |s.hub.events|;
        s.(clients := s.clients[c := Client(Replaying, [s.hub.events[0]], s.hub.events[1..], base, 0, 0)])
    case Replay(c) =>
      if c !in s.clients || !s.clients[c].phase.Replaying? || s.clients[c].replay == [] then s
      else
        var cl := s.clients[c];
        s.(clients := s.clients[c := cl.(received := cl.received + [cl.replay[0]], replay := cl.replay[1..])])
    case Subscribe(c) =>
      if c !in s.clients || !s.clients[c].phase.Replaying? || s.clients[c].replay != [] then s
      else s.(clients := s.clients[c := s.clients[c].(phase := Live)],
              hub := s.hub.(queues := s.hub.queues[c := []]))
    case Get(c) =>
      if c !in s.clients || !s.clients[c].phase.Live? || Queue(s, c) == [] then s
      else
        var cl, q := s.clients[c], s.hub.queues[c];
        s.(clients := s.clients[c := cl.(received := cl.received + [q[0]])],
           hub := s.hub.(queues := s.hub.queues[c := q[1..]]))
    case Heartbeat(_) => s
    case Disconnect(c) =>
      if c !in s.clients then s
      else s.(clients := s.clients[c := s.clients[c].(phase := Closed)],
              hub := s.hub.(queues := s.hub.queues - {c}))
  }

  function Run(s: State, ops: seq<Op>): State
    decreases |ops|
  {
    if ops == [] then s else Run(Step(s, ops[0]), ops[1..])
  }

  // What a client with queue `q` has received, followed by what it still has in front of it.
  function StreamOf(cl: Client, q: seq<Event>): seq<Event> {
    match cl.phase
    case Replaying => cl.received + cl.replay
    case Live => cl.received + q
    case Closed => cl.received
  }

  function Stream(s: State, c: int): seq<Event>
    requires c in s.clients
  {
    StreamOf(s.clients[c], Queue(s, c))
  }

  // ----- the invariant -----

  function LastN<T>(s: seq<T>, n: nat): seq<T> {
    if |s| <= n then s else s[|s| - n..]
  }

  ghost predicate DistinctIds(events: seq<Event>) {
    forall i, j :: 0 <= i < j < |events| ==> events[i].id != events[j].id
  }

  ghost predicate HubOk(s: State) {
    && s.hub.events == LastN(s.published, EVENT_HISTORY)
    && DistinctIds(s.published)
    && (forall i :: 0 <= i < |s.published| ==> s.published[i].id in s.hub.seen)
  }

  ghost predicate Complete(cl: Client, q: seq<Event>, published: seq<Event>) {
    && |q| <= QUEUE_MAX
    && 0 <= cl.base <= |published|
    && Subseq(StreamOf(cl, q), published[cl.base..])
    && (!cl.phase.Closed? ==> |StreamOf(cl, q)| + cl.gap + cl.dropped == |published| - cl.base)
  }

  ghost predicate ClientOk(s: State, c: int)
    requires c in s.clients
  {
    && (s.clients[c].phase.Live? <==> c in s.hub.queues)
    && Complete(s.clients[c], Queue(s, c), s.published)
  }

  ghost predicate Inv(s: State) {
    && HubOk(s)
    && s.hub.queues.Keys <= s.clients.Keys
    && forall c :: c in s.clients ==> ClientOk(s, c)
  }

  lemma PublishKeepsClient(cl: Client, q: seq<Event>, published: seq<Event>, evt: Event)
    requires Complete(cl, q, published)
    requires !cl.phase.Live? ==> q == []
    ensures Complete(Count(cl, q), if cl.phase.Live? then Offer(q, evt) else q, published + [evt])
  {
    var stream, since := StreamOf(cl, q), published[cl.base..];
    assert (published + [evt])[cl.base..] == since + [evt];
    if cl.phase.Live? && |q| < QUEUE_MAX {
      AppendBoth(stream, since, evt);
      assert StreamOf(cl, q + [evt]) == stream + [evt];
    } else {
      Skip(stream, since, evt);
    }
  }

  lemma PublishKeeps(s: State, evt: Event)
    requires s.hub.queues.Keys <= s.clients.Keys
    requires forall c :: c in s.clients ==> ClientOk(s, c)
    ensures var t := Publish(s, evt);
      t.hub.queues.Keys <= t.clients.Keys && forall c :: c in t.clients ==> ClientOk(t, c)
  {
    var t := Publish(s, evt);
    forall c | c in t.clients ensures ClientOk(t, c) {
      assert ClientOk(s, c);
      PublishKeepsClient(s.clients[c], Queue(s, c), s.published, evt);
    }
  }

  lemma {:induction false} PollKeeps(s: State, runs: seq<DagRun>)
    requires Inv(s)
    ensures Inv(PollStep(s, runs))
    decreases |runs|
  {
    if runs != [] {
      var key := RunKey(runs[0]);
      if key in s.hub.seen {
        PollKeeps(s, runs[1..]);
      } else {
        var marked := s.(hub := s.hub.(seen := s.hub.seen + {key}));
        MarkKeeps(s, key);
        if Formats(runs[0]) {
          var t := Publish(marked, EventOf(runs[0]));
          PublishKeeps(marked, EventOf(runs[0]));
          assert HubOk(t);
          PollKeeps(t, runs[1..]);
        }
      }
    }
  }

  lemma MarkKeeps(s: State, key: string)
    requires Inv(s)
    ensures Inv(s.(hub := s.hub.(seen := s.hub.seen + {key})))
  {
    var marked := s.(hub := s.hub.(seen := s.hub.seen + {key}));
    forall c | c in s.clients ensures ClientOk(marked, c) {
      assert ClientOk(s, c);
    }
  }

  lemma ConnectKeeps(s: State, c: int)
    requires Inv(s) && c !in s.clients
    ensures ClientOk(Step(s, Connect(c)), c)
  {
    var cl := Step(s, Connect(c)).clients[c];
    assert s.hub.events == [] ==> s.published == [];
    assert StreamOf(cl, []) == s.hub.events == s.published[cl.base..];
    Reflexive(s.hub.events);
  }

  // Closing a stream drops what was pending.
  lemma CloseKeeps(s: State, c: int)
    requires Inv(s) && c in s.clients
    ensures ClientOk(Step(s, Disconnect(c)), c)
  {
    var cl, q := s.clients[c], Queue(s, c);
    assert ClientOk(s, c);
    match cl.phase
    case Replaying => DropTail(cl.received, cl.replay, s.published[cl.base..]);
    case Live => DropTail(cl.received, q, s.published[cl.base..]);
    case Closed =>
  }

  // Moving an event from the pending ones to the received ones changes neither order nor count.
  lemma ClientStepKeeps(s: State, op: Op)
    requires Inv(s) && !op.Poll? && !op.Connect? && op.c in s.clients
    ensures ClientOk(Step(s, op), op.c)
  {
    var c := op.c;
    assert ClientOk(s, c);
    match op
    case Disconnect(_) => CloseKeeps(s, c);
    case Replay(_) => assert Stream(Step(s, op), c) == Stream(s, c);
    case Get(_) => assert Stream(Step(s, op), c) == Stream(s, c);
    case Subscribe(_) => assert Stream(Step(s, op), c) == Stream(s, c);
    case Heartbeat(_) =>
  }

  lemma StepKeeps(s: State, op: Op)
    requires Inv(s)
    ensures Inv(Step(s, op))
  {
    var t := Step(s, op);
    if op.Poll? {
      PollKeeps(s, op.runs);
    } else {
      forall c | c in t.clients ensures ClientOk(t, c) {
        if c != op.c {
          assert ClientOk(s, c) && t.clients[c] == s.clients[c] && Queue(t, c) == Queue(s, c);
        } else if op.Connect? && c !in s.clients {
          ConnectKeeps(s, c);
        } else if op.Connect? {
          assert ClientOk(s, c);
        } else {
          ClientStepKeeps(s, op);
        }
      }
    }
  }

  lemma {:induction false} RunKeeps(s: State, ops: seq<Op>)
    requires Inv(s)
    ensures Inv(Run(s, ops))
    decreases |ops|
  {
    if ops != [] {
      StepKeeps(s, ops[0]);
      RunKeeps(Step(s, ops[0]), ops[1..]);
    }
  }

  // ----- main results -----

  /** Whatever the schedule: no run key is published twice, the history is the last 50
      published events, no queue holds more than 20, and exactly the clients that subscribed
      and are still connected have one. */
  lemma HubStaysBounded(ops: seq<Op>)
    ensures var s := Run(INITIAL, ops);
      && DistinctIds(s.published)
      && s.hub.events == LastN(s.published, EVENT_HISTORY)
      && (forall c :: c in s.hub.queues ==> |s.hub.queues[c]| <= QUEUE_MAX)
      && (forall c :: c in s.hub.queues <==> c in s.clients && s.clients[c].phase.Live?)
  {
    RunKeeps(INITIAL, ops);
    var s := Run(INITIAL, ops);
    forall c ensures c in s.hub.queues <==> c in s.clients && s.clients[c].phase.Live? {
      assert c in s.clients ==> ClientOk(s, c);
    }
    forall c | c in s.hub.queues ensures |s.hub.queues[c]| <= QUEUE_MAX {
      assert c in s.clients && ClientOk(s, c);
    }
  }

  ghost predicate Reported(s: State, key: string) {
    exists i :: 0 <= i < |s.published| && s.published[i].id == key
  }

  // Where a poll over `runs` breaks off: at the first new run whose date
  // cannot be formatted.
  function BreakAt(seen: set<string>, runs: seq<DagRun>): (k: nat)
    ensures k <= |runs|
    decreases |runs|
  {
    if runs == [] then 0
    else if RunKey(runs[0]) in seen then 1 + BreakAt(seen, runs[1..])
    else if Formats(runs[0]) then 1 + BreakAt(seen + {RunKey(runs[0])}, runs[1..])
    else 0
  }

  // One of the first `n` runs has that key.
  ghost predicate Fetched(runs: seq<DagRun>, n: nat, key: string) {
    exists i :: 0 <= i < n && i < |runs| && RunKey(runs[i]) == key
  }

  lemma FetchedFirst(runs: seq<DagRun>, n: nat, key: string)
    requires runs != []
    ensures Fetched(runs, n + 1, key) <==> RunKey(runs[0]) == key || Fetched(runs[1..], n, key)
  {
    if i :| 0 <= i < n + 1 && i < |runs| && RunKey(runs[i]) == key {
      assert i > 0 ==> runs[i] == runs[1..][i - 1];
    }
    if i :| 0 <= i < n && i < |runs[1..]| && RunKey(runs[1..][i]) == key {
      assert runs[1..][i] == runs[i + 1];
    }
  }

  lemma PublishReports(s: State, run: DagRun, key: string)
    ensures Reported(Publish(s.(hub := s.hub.(seen := s.hub.seen + {RunKey(run)})), EventOf(run)), key)
      <==> Reported(s, key) || key == RunKey(run)
  {
    var t := Publish(s.(hub := s.hub.(seen := s.hub.seen + {RunKey(run)})), EventOf(run));
    assert t.published[|s.published|].id == RunKey(run);
    if i :| 0 <= i < |s.published| && s.published[i].id == key {
      assert t.published[i].id == key;
    }
  }

  // A poll reports what it fetched before it broke off, unless it was seen, and marks the
  // run it broke off at as seen too.
  lemma {:induction false} PollReports(s: State, runs: seq<DagRun>, key: string)
    ensures var t, n := PollStep(s, runs), BreakAt(s.hub.seen, runs);
      && (Reported(t, key) <==> Reported(s, key) || (key !in s.hub.seen && Fetched(runs, n, key)))
      && (key in t.hub.seen <==> key in s.hub.seen || Fetched(runs, n + 1, key))
    decreases |runs|
  {
    if runs != [] {
      var first := RunKey(runs[0]);
      if first in s.hub.seen {
        PollReports(s, runs[1..], key);
        FetchedFirst(runs, BreakAt(s.hub.seen, runs[1..]), key);
        FetchedFirst(runs, BreakAt(s.hub.seen, runs[1..]) + 1, key);
      } else if Formats(runs[0]) {
        var t := Publish(s.(hub := s.hub.(seen := s.hub.seen + {first})), EventOf(runs[0]));
        PublishReports(s, runs[0], key);
        PollReports(t, runs[1..], key);
        FetchedFirst(runs, BreakAt(t.hub.seen, runs[1..]), key);
        FetchedFirst(runs, BreakAt(t.hub.seen, runs[1..]) + 1, key);
      } else {
        FetchedFirst(runs, 0, key);
      }
    }
  }

  // Step `k` of a run from `s` is the poll that reports the key.
  ghost predicate ReportsAt(s: State, ops: seq<Op>, k: nat, key: string)
    requires k < |ops|
  {
    var seen := Run(s, ops[..k]).hub.seen;
    ops[k].Poll? && key !in seen && Fetched(ops[k].runs, BreakAt(seen, ops[k].runs), key)
  }

  lemma ReportsLater(s: State, ops: seq<Op>, k: nat, key: string)
    requires ops != [] && k < |ops[1..]|
    ensures ReportsAt(Step(s, ops[0]), ops[1..], k, key) <==> ReportsAt(s, ops, k + 1, key)
  {
    assert ops[..k + 1][1..] == ops[1..][..k] && ops[..k + 1][0] == ops[0];
  }

  lemma {:induction false} RunReports(s: State, ops: seq<Op>, key: string)
    ensures Reported(Run(s, ops), key) <==> Reported(s, key) || exists k: nat :: k < |ops| && ReportsAt(s, ops, k, key)
    decreases |ops|
  {
    if ops != [] {
      var s1 := Step(s, ops[0]);
      assert ops[..0] == [] && Run(s, ops[..0]) == s;
      if ops[0].Poll? {
        PollReports(s, ops[0].runs, key);
      } else {
        assert s1.published == s.published;
      }
      assert Reported(s1, key) <==> Reported(s, key) || ReportsAt(s, ops, 0, key);
      RunReports(s1, ops[1..], key);
      forall k: nat | k < |ops[1..]| ensures ReportsAt(s1, ops[1..], k, key) <==> ReportsAt(s, ops, k + 1, key) {
        ReportsLater(s, ops, k, key);
      }
      if k: nat :| k < |ops| && ReportsAt(s, ops, k, key) {
        assert k > 0 ==> ReportsAt(s1, ops[1..], k - 1, key);
      }
    }
  }

  /** Reported, under one event each, are exactly the failures a poll reached for the first
      time before it broke off. */
  lemma ReportedExactlyThePolled(ops: seq<Op>, key: string)
    ensures var s := Run(INITIAL, ops);
      && DistinctIds(s.published)
      && (Reported(s, key) <==> exists k: nat :: k < |ops| && ReportsAt(INITIAL, ops, k, key))
  {
    HubStaysBounded(ops);
    RunReports(INITIAL, ops, key);
  }

  // No poll of the run breaks off.
  ghost predicate NoBreak(s: State, ops: seq<Op>)
    decreases |ops|
  {
    ops == [] ||
    (&& (ops[0].Poll? ==> BreakAt(s.hub.seen, ops[0].runs) == |ops[0].runs|)
     && NoBreak(Step(s, ops[0]), ops[1..]))
  }

  // Some poll fetched a run with that key.
  ghost predicate Polled(ops: seq<Op>, key: string) {
    exists k :: 0 <= k < |ops| && ops[k].Poll? && Fetched(ops[k].runs, |ops[k].runs|, key)
  }

  lemma {:induction false} UnbrokenRunReports(s: State, ops: seq<Op>, key: string)
    requires NoBreak(s, ops)
    requires key in s.hub.seen <==> Reported(s, key)
    ensures Reported(Run(s, ops), key) <==> Reported(s, key) || Polled(ops, key)
    decreases |ops|
  {
    if ops != [] {
      var s1 := Step(s, ops[0]);
      if ops[0].Poll? {
        PollReports(s, ops[0].runs, key);
      } else {
        assert s1.published == s.published && s1.hub.seen == s.hub.seen;
        assert Reported(s1, key) <==> Reported(s, key);
      }
      UnbrokenRunReports(s1, ops[1..], key);
      PolledFirst(ops, key);
    }
  }

  lemma PolledFirst(ops: seq<Op>, key: string)
    requires ops != []
    ensures Polled(ops, key) <==>
      (ops[0].Poll? && Fetched(ops[0].runs, |ops[0].runs|, key)) || Polled(ops[1..], key)
  {
    if k :| 0 <= k < |ops| && ops[k].Poll? && Fetched(ops[k].runs, |ops[k].runs|, key) {
      assert k > 0 ==> ops[k] == ops[1..][k - 1];
    }
    if k :| 0 <= k < |ops[1..]| && ops[1..][k].Poll? && Fetched(ops[1..][k].runs, |ops[1..][k].runs|, key) {
      assert ops[k + 1] == ops[1..][k];
    }
  }

  // Where some poll breaks off, it fetched a failure that is never reported.
  lemma {:induction false} BreakLosesAFailure(s: State, ops: seq<Op>) returns (key: string)
    requires Inv(s) && !NoBreak(s, ops)
    ensures Polled(ops, key) && !Reported(Run(s, ops), key)
    decreases |ops|
  {
    var s1 := Step(s, ops[0]);
    StepKeeps(s, ops[0]);
    if ops[0].Poll? && BreakAt(s.hub.seen, ops[0].runs) < |ops[0].runs| {
      var runs := ops[0].runs;
      var n := BreakAt(s.hub.seen, runs);
      key := RunKey(runs[n]);
      BreaksAtANewKey(s.hub.seen, runs);
      PollReports(s, runs, key);
      assert Fetched(runs, n + 1, key) && Fetched(runs, |runs|, key);
      SeenStaysUnreported(s1, ops[1..], key);
    } else {
      key := BreakLosesAFailure(s1, ops[1..]);
    }
    PolledFirst(ops, key);
  }

  // All runs the polls fetch, in order.
  function Fetches(ops: seq<Op>): seq<DagRun>
    decreases |ops|
  {
    if ops == [] then [] else (if ops[0].Poll? then ops[0].runs else []) + Fetches(ops[1..])
  }

  // The first run of each key that is not seen yet has a date that can be formatted.
  ghost predicate NewOnesFormat(seen: set<string>, runs: seq<DagRun>) {
    forall i :: 0 <= i < |runs| && !Formats(runs[i]) ==>
      RunKey(runs[i]) in seen || Fetched(runs, i, RunKey(runs[i]))
  }

  lemma FetchedInFront(a: seq<DagRun>, b: seq<DagRun>, n: nat, key: string)
    ensures Fetched(a + b, |a| + n, key) <==> Fetched(a, |a|, key) || Fetched(b, n, key)
  {
    if i :| 0 <= i < n && i < |b| && RunKey(b[i]) == key {
      assert (a + b)[|a| + i] == b[i];
    }
    if i :| 0 <= i < |a| && RunKey(a[i]) == key {
      assert (a + b)[i] == a[i];
    }
  }

  lemma FetchedWithin(a: seq<DagRun>, b: seq<DagRun>, n: nat, key: string)
    requires n <= |a|
    ensures Fetched(a + b, n, key) <==> Fetched(a, n, key)
  {
    assert forall i :: 0 <= i < n ==> (a + b)[i] == a[i];
  }

  lemma NewOnesFormatParts(seen: set<string>, seen': set<string>, a: seq<DagRun>, b: seq<DagRun>)
    requires forall key :: key in seen' <==> key in seen || Fetched(a, |a|, key)
    ensures NewOnesFormat(seen, a + b) <==> NewOnesFormat(seen, a) && NewOnesFormat(seen', b)
  {
    forall i | 0 <= i < |a|
      ensures Fetched(a + b, i, RunKey(a[i])) <==> Fetched(a, i, RunKey(a[i]))
    {
      FetchedWithin(a, b, i, RunKey(a[i]));
    }
    forall i | 0 <= i < |b|
      ensures (RunKey(b[i]) in seen || Fetched(a + b, |a| + i, RunKey(b[i])))
          <==> (RunKey(b[i]) in seen' || Fetched(b, i, RunKey(b[i])))
    {
      FetchedInFront(a, b, i, RunKey(b[i]));
    }
    assert forall i :: 0 <= i < |a| ==> (a + b)[i] == a[i];
    assert forall i :: 0 <= i < |b| ==> (a + b)[|a| + i] == b[i];
    if NewOnesFormat(seen, a + b) {
      forall i | 0 <= i < |b| && !Formats(b[i])
        ensures RunKey(b[i]) in seen' || Fetched(b, i, RunKey(b[i]))
      {
        assert !Formats((a + b)[|a| + i]);
      }
    }
  }

  lemma {:induction false} PollsThroughIff(seen: set<string>, runs: seq<DagRun>)
    ensures BreakAt(seen, runs) == |runs| <==> NewOnesFormat(seen, runs)
    decreases |runs|
  {
    if runs != [] {
      var key, rest := RunKey(runs[0]), runs[1..];
      assert runs == [runs[0]] + rest;
      assert !Fetched(runs, 0, key);
      forall k ensures k in seen + {key} <==> k in seen || Fetched([runs[0]], 1, k) {
        assert Fetched([runs[0]], 1, key);
      }
      NewOnesFormatParts(seen, seen + {key}, [runs[0]], rest);
      PollsThroughIff(seen + {key}, rest);
      assert key in seen ==> seen + {key} == seen;
    }
  }

  // One poll, with what later polls fetch behind it.
  lemma PollBreaksIff(s: State, runs: seq<DagRun>, rest: seq<DagRun>)
    ensures NewOnesFormat(s.hub.seen, runs + rest) <==>
      BreakAt(s.hub.seen, runs) == |runs| && NewOnesFormat(PollStep(s, runs).hub.seen, rest)
  {
    PollsThroughIff(s.hub.seen, runs);
    if BreakAt(s.hub.seen, runs) == |runs| {
      var t := PollStep(s, runs);
      forall key ensures key in t.hub.seen <==> key in s.hub.seen || Fetched(runs, |runs|, key) {
        PollReports(s, runs, key);
        assert Fetched(runs, |runs| + 1, key) <==> Fetched(runs, |runs|, key);
      }
      NewOnesFormatParts(s.hub.seen, t.hub.seen, runs, rest);
    } else if NewOnesFormat(s.hub.seen, runs + rest) {
      FrontDecides(s.hub.seen, runs, rest);
    }
  }

  lemma OnlyPollsMark(s: State, op: Op)
    requires !op.Poll?
    ensures Step(s, op).hub.seen == s.hub.seen && Step(s, op).published == s.published
  {
  }

  lemma {:induction false} NoBreakIff(s: State, ops: seq<Op>)
    ensures NoBreak(s, ops) <==> NewOnesFormat(s.hub.seen, Fetches(ops))
    decreases |ops|
  {
    if ops != [] {
      NoBreakIff(Step(s, ops[0]), ops[1..]);
      if ops[0].Poll? {
        PollBreaksIff(s, ops[0].runs, Fetches(ops[1..]));
      } else {
        OnlyPollsMark(s, ops[0]);
        assert [] + Fetches(ops[1..]) == Fetches(ops[1..]);
      }
    }
  }

  lemma FrontDecides(seen: set<string>, a: seq<DagRun>, b: seq<DagRun>)
    requires NewOnesFormat(seen, a + b)
    ensures NewOnesFormat(seen, a)
  {
    forall i | 0 <= i < |a| && !Formats(a[i]) ensures RunKey(a[i]) in seen || Fetched(a, i, RunKey(a[i])) {
      assert (a + b)[i] == a[i];
      FetchedWithin(a, b, i, RunKey(a[i]));
    }
  }

  /** Only fetched failures are reported, and every fetched one is, if and only if each run
      whose date raises comes after a run of the same key, in an earlier poll or its own. */
  lemma EveryFailureIsReported(ops: seq<Op>)
    ensures forall key :: Reported(Run(INITIAL, ops), key) ==> Polled(ops, key)
    ensures (forall key :: Polled(ops, key) ==> Reported(Run(INITIAL, ops), key))
      <==> NewOnesFormat({}, Fetches(ops))
  {
    var t := Run(INITIAL, ops);
    NoBreakIff(INITIAL, ops);
    forall key | Reported(t, key) ensures Polled(ops, key) {
      RunReports(INITIAL, ops, key);
      var k: nat :| k < |ops| && ReportsAt(INITIAL, ops, k, key);
      assert Fetched(ops[k].runs, |ops[k].runs|, key);
    }
    if NoBreak(INITIAL, ops) {
      forall key ensures Reported(t, key) <==> Polled(ops, key) {
        UnbrokenRunReports(INITIAL, ops, key);
      }
    } else {
      var key := BreakLosesAFailure(INITIAL, ops);
    }
  }

  // The event says of a fetched run, whose date can be formatted, what it was and where.
  predicate Tells(e: Event, run: DagRun) {
    Formats(run) && e.id == run.dagId + "/" + run.runId && e.dagId == run.dagId && e.runId == run.runId
  }

  lemma {:induction false} PollTells(s: State, runs: seq<DagRun>, e: Event)
    requires e in PollStep(s, runs).published
    ensures e in s.published || exists run :: run in runs && Tells(e, run)
    decreases |runs|
  {
    if runs != [] {
      assert runs[0] in runs && forall run :: run in runs[1..] ==> run in runs;
      if RunKey(runs[0]) in s.hub.seen {
        PollTells(s, runs[1..], e);
      } else if Formats(runs[0]) {
        var marked := s.(hub := s.hub.(seen := s.hub.seen + {RunKey(runs[0])}));
        PollTells(Publish(marked, EventOf(runs[0])), runs[1..], e);
        assert Tells(EventOf(runs[0]), runs[0]);
      }
    }
  }

  lemma {:induction false} RunTells(s: State, ops: seq<Op>, e: Event)
    requires e in Run(s, ops).published
    ensures e in s.published || exists run :: run in Fetches(ops) && Tells(e, run)
    decreases |ops|
  {
    if ops != [] {
      RunTells(Step(s, ops[0]), ops[1..], e);
      if e in Step(s, ops[0]).published {
        if ops[0].Poll? {
          PollTells(s, ops[0].runs, e);
        } else {
          OnlyPollsMark(s, ops[0]);
        }
      }
    }
  }

  /** Every published event, and so every one a client received, tells of a run that was fetched:
      its DAG, its run, and both as its key. */
  lemma EventsTellOfRuns(ops: seq<Op>, e: Event)
    requires e in Run(INITIAL, ops).published
    ensures exists run :: run in Fetches(ops) && Tells(e, run)
  {
    RunTells(INITIAL, ops, e);
  }

  /** A date that is missing, or a text that is no date, stops nothing. A number does: the
      failures behind it wait for the next poll, and its own is never reported. */
  lemma OneBadDate(bad: DagRun, number: DagRun, good: DagRun)
    requires bad.executionDate.Missing? && bad.endDate == Written(None)
    requires number.executionDate.NoText? && good.executionDate == Written(Some(0))
    requires RunKey(bad) != RunKey(good) && RunKey(good) != RunKey(number) && RunKey(bad) != RunKey(number)
    ensures var s := PollStep(INITIAL, [bad, number, good]);
      && s.published == [EventOf(bad)]
      && PollStep(s, [bad, number, good]).published == [EventOf(bad), EventOf(good)]
  {
    var runs := [bad, number, good];
    assert runs[1..] == [number, good] && runs[1..][1..] == [good] && [good][1..] == [];
    var t := Publish(INITIAL.(hub := INITIAL.hub.(seen := {RunKey(bad)})), EventOf(bad));
    var s := PollStep(t, runs[1..]);
    assert PollStep(INITIAL, runs) == s;
    assert s.hub.seen == {RunKey(bad), RunKey(number)};
    calc {
      PollStep(s, runs);
      PollStep(s, runs[1..]);
      PollStep(s, runs[1..][1..]);
      PollStep(s, [good]);
    }
    OneFailure(s, good);
  }

  /** A failure a poll broke off at is marked as seen, and no later poll reports it. */
  lemma BrokenDateIsNeverReported(before: seq<Op>, runs: seq<DagRun>, later: seq<Op>)
    requires BreakAt(Run(INITIAL, before).hub.seen, runs) < |runs|
    ensures var s := Run(INITIAL, before);
      !Reported(Run(PollStep(s, runs), later), RunKey(runs[BreakAt(s.hub.seen, runs)]))
  {
    var s := Run(INITIAL, before);
    var n := BreakAt(s.hub.seen, runs);
    var key, t := RunKey(runs[n]), PollStep(s, runs);
    RunKeeps(INITIAL, before);
    BreaksAtANewKey(s.hub.seen, runs);
    PollReports(s, runs, key);
    assert Fetched(runs, n + 1, key);
    SeenStaysUnreported(t, later, key);
  }

  // The run a poll breaks off at is new, also within the poll.
  lemma {:induction false} BreaksAtANewKey(seen: set<string>, runs: seq<DagRun>)
    requires BreakAt(seen, runs) < |runs|
    ensures var n := BreakAt(seen, runs); RunKey(runs[n]) !in seen && !Fetched(runs, n, RunKey(runs[n]))
    decreases |runs|
  {
    if RunKey(runs[0]) in seen || Formats(runs[0]) {
      var seen' := if RunKey(runs[0]) in seen then seen else seen + {RunKey(runs[0])};
      BreaksAtANewKey(seen', runs[1..]);
      FetchedFirst(runs, BreakAt(seen', runs[1..]), RunKey(runs[BreakAt(seen, runs)]));
    }
  }

  lemma {:induction false} SeenStaysUnreported(s: State, ops: seq<Op>, key: string)
    requires key in s.hub.seen && !Reported(s, key)
    ensures !Reported(Run(s, ops), key)
    decreases |ops|
  {
    if ops != [] {
      if ops[0].Poll? {
        PollReports(s, ops[0].runs, key);
      } else {
        assert Step(s, ops[0]).published == s.published;
      }
      SeenStaysUnreported(Step(s, ops[0]), ops[1..], key);
    }
  }

  /** What a client received, followed by its queue, is in strictly increasing publish
      order, drops and reconnects of others included; so it sees no event twice. */
  lemma StreamInPublishOrder(ops: seq<Op>, c: int) returns (positions: seq<nat>)
    requires c in Run(INITIAL, ops).clients
    ensures var s := Run(INITIAL, ops); Embeds(positions, Stream(s, c), s.published)
    ensures DistinctIds(Stream(Run(INITIAL, ops), c))
  {
    RunKeeps(INITIAL, ops);
    var s := Run(INITIAL, ops);
    assert ClientOk(s, c);
    var base := s.clients[c].base;
    var local := HasIndices(Stream(s, c), s.published[base..]);
    positions := seq(|local|, i requires 0 <= i < |local| => local[i] + base);
    assert forall k :: 0 <= k < |local| ==> s.published[base..][local[k]] == s.published[positions[k]];
  }

  lemma PollKeepsBase(s: State, runs: seq<DagRun>, c: int)
    requires c in s.clients
    ensures c in PollStep(s, runs).clients && PollStep(s, runs).clients[c].base == s.clients[c].base
    decreases |runs|
  {
    if runs != [] {
      if RunKey(runs[0]) in s.hub.seen {
        PollKeepsBase(s, runs[1..], c);
      } else if Formats(runs[0]) {
        var marked := s.(hub := s.hub.(seen := s.hub.seen + {RunKey(runs[0])}));
        PollKeepsBase(Publish(marked, EventOf(runs[0])), runs[1..], c);
      }
    }
  }

  lemma {:induction false} BaseStays(s: State, ops: seq<Op>, c: int)
    requires c in s.clients
    ensures c in Run(s, ops).clients && Run(s, ops).clients[c].base == s.clients[c].base
    decreases |ops|
  {
    if ops != [] {
      if ops[0].Poll? {
        PollKeepsBase(s, ops[0].runs, c);
      }
      BaseStays(Step(s, ops[0]), ops[1..], c);
    }
  }

  /** A new client starts with the whole history: that is what it has in front of it, in order,
      and from where on `LosslessIff` counts what it misses. */
  lemma SnapshotIsTheHistory(before: seq<Op>, c: int, later: seq<Op>)
    requires c !in Run(INITIAL, before).clients
    ensures var s := Run(INITIAL, before); var t := Step(s, Connect(c));
      && c in t.clients && Stream(t, c) == s.hub.events
      && c in Run(t, later).clients && Run(t, later).clients[c].base == |s.published| - |s.hub.events|
      && s.hub.events == if |s.published| <= 50 then s.published else s.published[|s.published| - 50..]
  {
    var s := Run(INITIAL, before);
    RunKeeps(INITIAL, before);
    BaseStays(Step(s, Connect(c)), later, c);
    assert s.hub.events != [] ==> [s.hub.events[0]] + s.hub.events[1..] == s.hub.events;
  }

  /** An open stream is complete from its snapshot on exactly when no publish fell
      between the snapshot and the subscription and none met a full queue. */
  lemma LosslessIff(ops: seq<Op>, c: int)
    requires c in Run(INITIAL, ops).clients && !Run(INITIAL, ops).clients[c].phase.Closed?
    ensures var s := Run(INITIAL, ops); var cl := s.clients[c];
      && 0 <= cl.base <= |s.published|
      && (Stream(s, c) == s.published[cl.base..] <==> cl.gap == 0 && cl.dropped == 0)
      && |s.published[cl.base..]| - |Stream(s, c)| == cl.gap + cl.dropped
  {
    RunKeeps(INITIAL, ops);
    var s := Run(INITIAL, ops);
    assert ClientOk(s, c);
    SameLength(Stream(s, c), s.published[s.clients[c].base..]);
  }

  /** The gap is real: a failure polled while a client is still being replayed the history
      is published, and never reaches that client. */
  lemma GapLosesAnEvent(first: DagRun, run: DagRun)
    requires Formats(first) && Formats(run) && RunKey(first) != RunKey(run)
    ensures var s := Run(INITIAL, [Poll([first]), Connect(0), Poll([run]), Subscribe(0)]);
      s.published == [EventOf(first), EventOf(run)] && 0 in s.clients && s.clients[0].phase.Live? &&
      Stream(s, 0) == [EventOf(first)]
  {
    var s1 := Step(INITIAL, Poll([first]));
    OneFailure(INITIAL, first);
    var s2 := Step(s1, Connect(0));
    assert s1.hub.events == [EventOf(first)] && s1.published == [EventOf(first)];
    assert s1.clients == map[] && s1.hub.queues == map[] && s1.hub.events[1..] == [];
    assert s2.clients == map[0 := Client(Replaying, [EventOf(first)], [], 0, 0, 0)];
    var s3 := Step(s2, Poll([run]));
    OneFailure(s2, run);
    var ops := [Poll([first]), Connect(0), Poll([run]), Subscribe(0)];
    assert ops[1..] == [Connect(0), Poll([run]), Subscribe(0)];
    assert ops[1..][1..] == [Poll([run]), Subscribe(0)] && ops[1..][1..][1..] == [Subscribe(0)];
    calc {
      Run(INITIAL, ops);
      Run(s1, [Connect(0), Poll([run]), Subscribe(0)]);
      Run(s2, [Poll([run]), Subscribe(0)]);
      Run(s3, [Subscribe(0)]);
      Step(s3, Subscribe(0));
    }
  }

  // A poll over one new failure publishes it.
  lemma OneFailure(s: State, run: DagRun)
    requires Formats(run) && RunKey(run) !in s.hub.seen
    ensures PollStep(s, [run]) == Publish(s.(hub := s.hub.(seen := s.hub.seen + {RunKey(run)})), EventOf(run))
  {
    assert [run][1..] == [];
  }

  /** The state machine polls the way EventHub does. */
  lemma {:induction false} PollIsTheHubsPoll(s: State, runs: seq<DagRun>)
    ensures PollStep(s, runs).hub == PollHub(s.hub, runs)
    decreases |runs|
  {
    if runs != [] {
      if RunKey(runs[0]) in s.hub.seen {
        PollIsTheHubsPoll(s, runs[1..]);
      } else if Formats(runs[0]) {
        var marked := s.(hub := s.hub.(seen := s.hub.seen + {RunKey(runs[0])}));
        PollIsTheHubsPoll(Publish(marked, EventOf(runs[0])), runs[1..]);
      }
    }
  }
}
