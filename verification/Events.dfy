/** The notification stream of the portal backend: one poller publishes events to a
    bounded history and to one bounded queue per connected client, while every
    client runs its own generator. All code between two awaits is one step. */
module Events {
  import opened Common
  import opened Subsequence
  import Text

  const EVENT_HISTORY: nat := 50
  const QUEUE_MAX: nat := 20

  /** A date member of the Airflow answer: absent or falsy, a text that parses to an instant
      in microseconds or does not parse, or a truthy value that is no text. */
  datatype Stamp = Missing | Written(instant: Option<int>) | NoText

  /** One failed DAG run as the poll sees it. */
  datatype DagRun = DagRun(dagId: string, runId: string, executionDate: Stamp, endDate: Stamp)

  datatype Event = Event(id: string, dagId: string, runId: string)

  function RunKey(run: DagRun): string {
    run.dagId + "/" + run.runId
  }

  function EventOf(run: DagRun): Event {
    Event(RunKey(run), run.dagId, run.runId)
  }

  /** The key tells two runs apart when DAG ids hold no '/'; Airflow's run ids may. */
  lemma RunKeyTellsApart(a: DagRun, b: DagRun)
    requires '/' !in a.dagId && '/' !in b.dagId
    ensures RunKey(a) == RunKey(b) <==> a.dagId == b.dagId && a.runId == b.runId
  {
    if RunKey(a) == RunKey(b) {
      assert RunKey(a)[|a.dagId|] == '/' && RunKey(b)[|b.dagId|] == '/';
      assert forall i :: 0 <= i < |a.dagId| ==> RunKey(a)[i] == a.dagId[i] && a.dagId[i] != '/';
      assert forall i :: 0 <= i < |b.dagId| ==> RunKey(b)[i] == b.dagId[i] && b.dagId[i] != '/';
      assert |a.dagId| == |b.dagId|;
      assert a.dagId == RunKey(a)[..|a.dagId|] == b.dagId;
      assert a.runId == RunKey(a)[|a.dagId| + 1..] == b.runId;
    }
  }

  function DateOf(run: DagRun): Stamp {
    if run.executionDate.Missing? then run.endDate else run.executionDate
  }

  /** The age of a failure, or None where the source raises. */
  function FormatAgo(date: Stamp, now: int): Option<string> {
    match date
    case Missing => Some("nu")
    case NoText => None
    case Written(None) => Some("nu")
    case Written(Some(instant)) =>
      var secs := if now < instant then 0 else (now - instant) / 1_000_000;
      Some(if secs < 60 then "nu"
           else if secs < 3600 then Text.Decimal(secs / 60) + "m"
           else if secs < 86400 then Text.Decimal(secs / 3600) + "u"
           else Text.Decimal(secs / 86400) + "d")
  }

  /** The date of a run can be formatted. */
  predicate Formats(run: DagRun) {
    !DateOf(run).NoText?
  }

  /** Missing dates and texts that are no dates do not raise at any time: only a value that
      is no text does. */
  lemma OnlyNonTextRaises(run: DagRun, now: int)
    ensures FormatAgo(DateOf(run), now).Some? <==> Formats(run)
  {
  }

  // The units of an age, in microseconds.
  const MINUTE: int := 60_000_000
  const HOUR: int := 3_600_000_000
  const DAY: int := 86_400_000_000

  lemma Minutes(age: int)
    requires age >= 0
    ensures var n := age / 1_000_000 / 60; n * MINUTE <= age < (n + 1) * MINUTE
  {
  }

  lemma Hours(age: int)
    requires age >= 0
    ensures var n := age / 1_000_000 / 3600; n * HOUR <= age < (n + 1) * HOUR
  {
  }

  lemma Days(age: int)
    requires age >= 0
    ensures var n := age / 1_000_000 / 86400; n * DAY <= age < (n + 1) * DAY
  {
  }

  // The number of full units in an age, and the letter of the unit.
  predicate Counts(age: int, n: nat, unit: string) {
    if age < HOUR then unit == "m" && n * MINUTE <= age < (n + 1) * MINUTE
    else if age < DAY then unit == "u" && n * HOUR <= age < (n + 1) * HOUR
    else unit == "d" && n * DAY <= age < (n + 1) * DAY
  }

  lemma UnitOf(age: int) returns (n: nat, unit: string)
    requires age >= MINUTE
    ensures Counts(age, n, unit)
    ensures var secs := age / 1_000_000;
      && secs >= 60 && (secs < 3600 <==> age < HOUR) && (secs < 86400 <==> age < DAY)
      && n == secs / (if secs < 3600 then 60 else if secs < 86400 then 3600 else 86400)
  {
    var secs := age / 1_000_000;
    Minutes(age);
    Hours(age);
    Days(age);
    if secs < 3600 {
      n, unit := secs / 60, "m";
    } else if secs < 86400 {
      n, unit := secs / 3600, "u";
    } else {
      n, unit := secs / 86400, "d";
    }
  }

  /** How an age reads: under a minute, or without a date that parses, it is now; else it is the
      number of full minutes, hours or days, in the largest unit that fits. */
  lemma AgoReads(run: DagRun, now: int, instant: int) returns (n: nat, unit: string)
    ensures DateOf(run) == Missing || DateOf(run) == Written(None) ==> FormatAgo(DateOf(run), now) == Some("nu")
    ensures DateOf(run) == Written(Some(instant)) && now - instant < MINUTE ==>
      FormatAgo(DateOf(run), now) == Some("nu")
    ensures DateOf(run) == Written(Some(instant)) && now - instant >= MINUTE ==>
      && FormatAgo(DateOf(run), now) == Some(Text.Decimal(n) + unit)
      && Text.NumberOf(Text.Decimal(n)) == n && Counts(now - instant, n, unit)
  {
    n, unit := 0, "";
    if now - instant >= MINUTE {
      n, unit := UnitOf(now - instant);
    }
    Text.DigitsRead(n);
  }

  // ----- the module-level variables and the code that changes them -----

  datatype Hub = Hub(events: seq<Event>, seen: set<string>, queues: map<int, seq<Event>>)

  /** `append` on a deque with a maximum length. */
  function Remember(events: seq<Event>, evt: Event): seq<Event> {
    if |events| < EVENT_HISTORY then events + [evt] else events[1..] + [evt]
  }

  /** `put_nowait`, with a full queue dropping the event. */
  function Offer(queue: seq<Event>, evt: Event): seq<Event> {
    if |queue| < QUEUE_MAX then queue + [evt] else queue
  }

  function PublishTo(hub: Hub, evt: Event): Hub {
    Hub(Remember(hub.events, evt), hub.seen, map c | c in hub.queues :: Offer(hub.queues[c], evt))
  }

  /** One poll over the fetched runs. Its loop has no await, so it is one step. */
  function PollHub(hub: Hub, runs: seq<DagRun>): Hub
    decreases |runs|
  {
    if runs == [] then hub
    else if RunKey(runs[0]) in hub.seen then PollHub(hub, runs[1..])
    else
      var marked := hub.(seen := hub.seen + {RunKey(runs[0])});
      if Formats(runs[0]) then PollHub(PublishTo(marked, EventOf(runs[0])), runs[1..]) else marked
  }

  /** A queue object is named by the client that owns it. */
  class EventHub {
    var events: seq<Event>
    var seenFailedRuns: set<string>
    var subscribers: map<int, seq<Event>>

    function View(): Hub
      reads this
    {
      Hub(events, seenFailedRuns, subscribers)
    }

    constructor ()
      ensures View() == Hub([], {}, map[])
    {
      events, seenFailedRuns, subscribers := [], {}, map[];
    }

    method PublishEvent(evt: Event)
      modifies this
      ensures View() == PublishTo(old(View()), evt)
      ensures |old(events)| < 50 ==> events == old(events) + [evt]
      ensures |old(events)| >= 50 ==> events == old(events)[1..] + [evt]
      ensures subscribers.Keys == old(subscribers).Keys
      ensures forall c :: c in subscribers ==>
        subscribers[c] == if |old(subscribers)[c]| < 20 then old(subscribers)[c] + [evt] else old(subscribers)[c]
    {
      if |events| >= EVENT_HISTORY {
        events := events[1..];
      }
      events := events + [evt];
      label Remembered:
      var todo: set<int> := subscribers.Keys;
      while todo != {}
        invariant todo <= old(subscribers).Keys
        invariant subscribers == map c | c in old(subscribers) ::
                                   if c in todo then old(subscribers)[c] else Offer(old(subscribers)[c], evt)
        invariant events == old@Remembered(events) && seenFailedRuns == old(seenFailedRuns)
        decreases todo
      {
        var c := AnyOf(todo);
        if |subscribers[c]| < QUEUE_MAX {
          subscribers := subscribers[c := subscribers[c] + [evt]];
        }
        todo := todo - {c};
      }
    }

    method PollAirflowFailures(runs: seq<DagRun>, now: int)
      modifies this
      ensures View() == PollHub(old(View()), runs)
    {
      var k := 0;
      while k < |runs|
        invariant 0 <= k <= |runs|
        invariant PollHub(View(), runs[k..]) == PollHub(old(View()), runs)
      {
        var key := RunKey(runs[k]);
        if key !in seenFailedRuns {
          seenFailedRuns := seenFailedRuns + {key};
          var ago := FormatAgo(DateOf(runs[k]), now);
          if ago.None? {
            return;
          }
          PublishEvent(EventOf(runs[k]));
        }
        k := k + 1;
      }
    }
  }
}
