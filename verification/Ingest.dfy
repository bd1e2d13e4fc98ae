/** The file ingest jobs: download, append to Delta, register, copy, delete, without a
    transaction. Any number of runs interleave, and a run can stop between any two steps. */
module Ingest {

  datatype Stage =
    | Downloaded
    | Written            // its rows are in the Delta table
    | NeedsRegistering   // it saw no catalog entry
    | Ready              // the catalog entry exists
    | Copied             // the processed copy exists
    | Done
    | Stopped            // failed, rejected by validation, or killed

  /** `version` is the upload it read, -1 if the object was not there; `wrote` remembers
      that it passed the append. */
  datatype Job = Job(key: string, version: int, wrote: bool, stage: Stage)

  /** Each upload gets a fresh version; `origins` are the keys of the uploads. `table` counts
      the appends per version, `copies` are the versions with a processed copy, `replaced` those an upload overwrote. */
  datatype State = State(staging: map<string, nat>, origins: seq<string>, replaced: set<nat>,
                         table: multiset<nat>, registered: bool, copies: set<nat>, jobs: map<int, Job>)

  datatype Op =
    | Upload(key: string)
    | Trigger(j: int, key: string)
    | Append(j: int)
    | CheckCatalog(j: int)
    | Register(j: int)
    | Copy(j: int)
    | Delete(j: int)
    | Stop(j: int)

  const INITIAL: State := State(map[], [], {}, multiset{}, false, {}, map[])

  predicate Running(s: State, j: int) {
    j in s.jobs && !s.jobs[j].stage.Done? && !s.jobs[j].stage.Stopped?
  }

  predicate At(s: State, j: int, stage: Stage) {
    j in s.jobs && s.jobs[j].stage == stage
  }

  function Move(s: State, j: int, stage: Stage): State
    requires j in s.jobs
  {
    s.(jobs := s.jobs[j := s.jobs[j].(stage := stage)])
  }

  // A step that is not possible in `s` leaves `s` as it is.
  function Step(s: State, op: Op): State {
    match op
    case Upload(key) =>
      s.(staging := s.staging[key := |s.origins|], origins := s.origins + [key],
         replaced := if key in s.staging then s.replaced + {s.staging[key]} else s.replaced)
    case Trigger(j, key) =>
      if j in s.jobs then s
      else if key !in s.staging then s.(jobs := s.jobs[j := Job(key, -1, false, Stopped)])
      else s.(jobs := s.jobs[j := Job(key, s.staging[key], false, Downloaded)])
    case Append(j) =>
      if !At(s, j, Downloaded) || s.jobs[j].version < 0 then s
      else s.(jobs := s.jobs[j := s.jobs[j].(stage := Written, wrote := true)],
              table := s.table + multiset{s.jobs[j].version as nat})
    case CheckCatalog(j) =>
      if !At(s, j, Written) then s else Move(s, j, if s.registered then Ready else NeedsRegistering)
    case Register(j) =>
      if !At(s, j, NeedsRegistering) then s
      else if s.registered then Move(s, j, Stopped)
      else Move(s, j, Ready).(registered := true)
    case Copy(j) =>
      if !At(s, j, Ready) then s
      else if s.jobs[j].key !in s.staging then Move(s, j, Stopped)
      else Move(s, j, Copied).(copies := s.copies + {s.staging[s.jobs[j].key]})
    case Delete(j) =>
      if !At(s, j, Copied) then s else Move(s, j, Done).(staging := s.staging - {s.jobs[j].key})
    case Stop(j) =>
      if !Running(s, j) then s else Move(s, j, Stopped)
  }

  function Run(s: State, ops: seq<Op>): State
    decreases |ops|
  {
    if ops == [] then s else Run(Step(s, ops[0]), ops[1..])
  }

  // ----- one run of the job, undisturbed -----

  lemma RunCons(s: State, op: Op, ops: seq<Op>)
    ensures Run(s, [op] + ops) == Run(Step(s, op), ops)
  {
    assert ([op] + ops)[1..] == ops;
  }

  // The state after a run of six steps, and of two.
  lemma SixSteps(s: State, a: Op, b: Op, c: Op, d: Op, e: Op, f: Op)
    ensures Run(s, [a, b, c, d, e, f]) == Step(Step(Step(Step(Step(Step(s, a), b), c), d), e), f)
    ensures Run(s, [a, b]) == Step(Step(s, a), b)
  {
    assert [a, b, c, d, e, f] == [a] + ([b] + ([c] + ([d] + ([e] + ([f] + [])))));
    assert [a, b] == [a] + ([b] + []);
    RunCons(s, a, [b] + ([c] + ([d] + ([e] + ([f] + [])))));
    RunCons(s, a, [b] + []);
    var s1 := Step(s, a);
    RunCons(s1, b, [c] + ([d] + ([e] + ([f] + []))));
    RunCons(s1, b, []);
    var s2 := Step(s1, b);
    RunCons(s2, c, [d] + ([e] + ([f] + [])));
    var s3 := Step(s2, c);
    RunCons(s3, d, [e] + ([f] + []));
    var s4 := Step(s3, d);
    RunCons(s4, e, [f] + []);
    RunCons(Step(s4, e), f, []);
  }

  /** The landing bucket, the Delta table with its catalog entry, and the bookkeeping. */
  class Lakehouse {
    var staging: map<string, nat>
    var table: multiset<nat>
    var registered: bool
    var copies: set<nat>
    ghost var origins: seq<string>
    ghost var replaced: set<nat>
    ghost var jobs: map<int, Job>

    ghost function View(): State
      reads this
    {
      State(staging, origins, replaced, table, registered, copies, jobs)
    }

    method WriteToBronze(ghost j: int, version: nat)
      requires At(View(), j, Downloaded) && jobs[j].version == version
      modifies this`table, this`jobs
      ensures View() == Step(old(View()), Append(j))
    {
      table := table + multiset{version};
      jobs := jobs[j := jobs[j].(stage := Written, wrote := true)];
    }

    method EnsureTrinoTable(ghost j: int)
      requires At(View(), j, Written)
      modifies this`registered, this`jobs
      ensures View() == Step(Step(old(View()), CheckCatalog(j)), Register(j))
    {
      if !registered {
        registered := true;
      }
      jobs := jobs[j := jobs[j].(stage := Ready)];
    }

    method MoveToProcessed(ghost j: int, key: string)
      requires At(View(), j, Ready) && jobs[j].key == key && key in staging
      modifies this`copies, this`staging, this`jobs
      ensures View() == Step(Step(old(View()), Copy(j)), Delete(j))
    {
      copies := copies + {staging[key]};
      staging := staging - {key};
      jobs := jobs[j := jobs[j].(stage := Done)];
    }

    // The three writing steps.
    method Process(ghost j: int, key: string)
      requires At(View(), j, Downloaded) && jobs[j].key == key && key in staging && jobs[j].version == staging[key]
      modifies this
      ensures View() ==
        Step(Step(Step(Step(Step(old(View()), Append(j)), CheckCatalog(j)), Register(j)), Copy(j)), Delete(j))
      ensures staging == old(staging) - {key} && table == old(table) + multiset{old(staging)[key]}
      ensures copies == old(copies) + {old(staging)[key]} && registered
    {
      WriteToBronze(j, staging[key]);
      EnsureTrinoTable(j);
      MoveToProcessed(j, key);
    }

    /** The job from top to bottom, with no other run beside it: what it does is the run of
        all its steps. A rejected input stops it after the download. */
    method RunJob(ghost j: int, key: string, valid: bool) returns (done: bool)
      requires j !in jobs
      modifies this
      ensures View() == Run(old(View()),
        if valid then [Trigger(j, key), Append(j), CheckCatalog(j), Register(j), Copy(j), Delete(j)]
        else [Trigger(j, key), Stop(j)])
      ensures done <==> valid && key in old(staging)
      ensures done ==> staging == old(staging) - {key} && table == old(table) + multiset{old(staging)[key]}
      ensures done ==> copies == old(copies) + {old(staging)[key]} && registered
      ensures !done ==> staging == old(staging) && table == old(table) && copies == old(copies)
    {
      SixSteps(View(), Trigger(j, key), if valid then Append(j) else Stop(j),
               CheckCatalog(j), Register(j), Copy(j), Delete(j));
      if key !in staging {
        jobs := jobs[j := Job(key, -1, false, Stopped)];
        return false;
      }
      jobs := jobs[j := Job(key, staging[key], false, Downloaded)];
      if !valid {
        jobs := jobs[j := jobs[j].(stage := Stopped)];
        return false;
      }
      Process(j, key);
      done := true;
    }
  }

  // A run under way that saw no catalog entry although there is one by now. Its register
  // call fails, so it copies and deletes nothing.
  predicate Doomed(s: State, j: int) {
    At(s, j, NeedsRegistering) && s.registered
  }

  // A run under way that can still get to its copy.
  predicate Live(s: State, j: int) {
    Running(s, j) && !Doomed(s, j)
  }

  // The upload rule: no upload onto a key that a live run works on.
  ghost predicate Quiet(s: State, op: Op) {
    op.Upload? ==> forall j :: Live(s, j) ==> s.jobs[j].key != op.key
  }

  ghost predicate QuietRun(s: State, ops: seq<Op>)
    decreases |ops|
  {
    ops == [] || (Quiet(s, ops[0]) && QuietRun(Step(s, ops[0]), ops[1..]))
  }

  // ----- the invariant -----

  // The runs that appended version `v`.
  function Writers(s: State, v: nat): set<int> {
    set j | j in s.jobs && s.jobs[j].wrote && s.jobs[j].version == v
  }

  predicate Staged(s: State, v: nat) {
    exists key :: key in s.staging && s.staging[key] == v
  }

  ghost predicate JobOk(s: State, job: Job) {
    && -1 <= job.version < |s.origins|
    && (job.version >= 0 ==> s.origins[job.version] == job.key)
    && (job.wrote ==> job.version >= 0)
    && (job.stage.Downloaded? ==> !job.wrote)
    && (!job.stage.Stopped? ==> job.version >= 0)
    && (!job.stage.Stopped? && !job.stage.Downloaded? ==> job.wrote)
    && ((job.stage.Ready? || job.stage.Copied? || job.stage.Done?) ==> s.registered)
  }

  // A live run still has the object it read, unless another run deleted it.
  ghost predicate Holds(s: State, j: int)
    requires j in s.jobs
  {
    var job := s.jobs[j];
    && (job.key in s.staging && Live(s, j) ==> s.staging[job.key] == job.version)
    && (job.key in s.staging && job.stage.Copied? ==> job.version in s.copies)
  }

  ghost predicate JobsOk(s: State) {
    && (forall j :: j in s.jobs ==> JobOk(s, s.jobs[j]))
    && (forall v :: v in s.replaced ==> v < |s.origins|)
    && (forall key :: key in s.staging ==> s.staging[key] < |s.origins| && s.origins[s.staging[key]] == key)
    && (s.copies != {} ==> s.registered)
  }

  ghost predicate Counted(s: State) {
    && JobsOk(s)
    && (forall v: nat :: s.table[v] == |Writers(s, v)|)
  }

  // An upload is in staging, or was replaced there, or has its rows in the table and a copy.
  ghost predicate Accounted(s: State, v: nat) {
    Staged(s, v) || v in s.replaced || (s.table[v] > 0 && v in s.copies)
  }

  ghost predicate Safe(s: State) {
    && (forall j :: j in s.jobs ==> Holds(s, j))
    && (forall v: nat :: v < |s.origins| ==> Accounted(s, v))
  }

  // A job that a step leaves alone stays as it should be, because uploads are only added
  // and the catalog entry stays.
  lemma JobStays(s: State, op: Op, j: int)
    requires JobsOk(s) && j in Step(s, op).jobs
    ensures JobOk(Step(s, op), Step(s, op).jobs[j])
  {
    if j in s.jobs {
      assert JobOk(s, s.jobs[j]);
    }
  }

  lemma JobsStay(s: State, op: Op)
    requires JobsOk(s)
    ensures JobsOk(Step(s, op))
  {
    var t := Step(s, op);
    forall j | j in t.jobs ensures JobOk(t, t.jobs[j]) {
      JobStays(s, op, j);
    }
    if op.Copy? && op.j in s.jobs {
      assert JobOk(s, s.jobs[op.j]);
    }
  }

  lemma AppendCounts(s: State, j: int, v: nat)
    requires JobsOk(s) && At(s, j, Downloaded) && s.jobs[j].version == v
    ensures Writers(Step(s, Append(j)), v) == Writers(s, v) + {j} && j !in Writers(s, v)
  {
    assert JobOk(s, s.jobs[j]);
  }

  lemma WritersStay(s: State, op: Op, v: nat)
    requires JobsOk(s)
    ensures Step(s, op).table[v] - |Writers(Step(s, op), v)| == s.table[v] - |Writers(s, v)|
  {
    if op.Append? && At(s, op.j, Downloaded) && s.jobs[op.j].version == v {
      AppendCounts(s, op.j, v);
    } else {
      assert Writers(Step(s, op), v) == Writers(s, v);
    }
  }

  lemma CountedStays(s: State, op: Op)
    requires Counted(s)
    ensures Counted(Step(s, op))
  {
    JobsStay(s, op);
    forall v: nat ensures Step(s, op).table[v] == |Writers(Step(s, op), v)| {
      WritersStay(s, op, v);
    }
  }

  // What a run deletes was appended by it, and was copied.
  lemma DeletedIsKept(s: State, j: int)
    requires Counted(s) && At(s, j, Copied) && Holds(s, j) && s.jobs[j].key in s.staging
    ensures var v := s.staging[s.jobs[j].key]; v in s.copies && s.table[v] > 0
  {
    assert JobOk(s, s.jobs[j]);
    assert j in Writers(s, s.staging[s.jobs[j].key]);
  }

  lemma HoldsStays(s: State, op: Op, j: int)
    requires JobsOk(s) && Quiet(s, op) && j in Step(s, op).jobs && (j in s.jobs ==> Holds(s, j))
    ensures Holds(Step(s, op), j)
  {
    if j in s.jobs {
      assert JobOk(s, s.jobs[j]);
      assert op.Upload? && Live(s, j) ==> s.jobs[j].key != op.key;
    }
  }

  lemma AccountedStays(s: State, op: Op, v: nat)
    requires Counted(s) && v < |s.origins| && Accounted(s, v)
    requires forall j :: j in s.jobs ==> Holds(s, j)
    ensures Accounted(Step(s, op), v)
  {
    var t := Step(s, op);
    assert s.table[v] <= t.table[v] && s.copies <= t.copies && s.replaced <= t.replaced;
    if Staged(s, v) {
      var key :| key in s.staging && s.staging[key] == v;
      if op.Delete? && At(s, op.j, Copied) && s.jobs[op.j].key == key {
        DeletedIsKept(s, op.j);
      } else if op.Upload? && op.key == key {
        assert v in t.replaced;
      } else {
        assert key in t.staging && t.staging[key] == v;
      }
    }
  }

  lemma SafeStays(s: State, op: Op)
    requires Counted(s) && Safe(s) && Quiet(s, op)
    ensures Safe(Step(s, op))
  {
    var t := Step(s, op);
    forall j | j in t.jobs ensures Holds(t, j) {
      HoldsStays(s, op, j);
    }
    forall v: nat | v < |t.origins| ensures Accounted(t, v) {
      if v == |s.origins| {
        assert t.staging[op.key] == v;
      } else {
        AccountedStays(s, op, v);
      }
    }
  }

  lemma {:induction false} RunCounts(s: State, ops: seq<Op>)
    requires Counted(s)
    ensures Counted(Run(s, ops))
    decreases |ops|
  {
    if ops != [] {
      CountedStays(s, ops[0]);
      RunCounts(Step(s, ops[0]), ops[1..]);
    }
  }

  lemma {:induction false} RunIsSafe(s: State, ops: seq<Op>)
    requires Counted(s) && Safe(s) && QuietRun(s, ops)
    ensures Counted(Run(s, ops)) && Safe(Run(s, ops))
    decreases |ops|
  {
    if ops != [] {
      CountedStays(s, ops[0]);
      SafeStays(s, ops[0]);
      RunIsSafe(Step(s, ops[0]), ops[1..]);
    }
  }

  // ----- main results -----

  /** For any number of concurrent runs, stops and re-triggers: the table holds the rows of
      an upload as many times as runs passed the append with it. */
  lemma CopiesEqualAppends(ops: seq<Op>, v: nat)
    ensures var s := Run(INITIAL, ops); s.table[v] == |Writers(s, v)|
  {
    assert forall v: nat :: Writers(INITIAL, v) == {};
    RunCounts(INITIAL, ops);
  }

  /** As long as nobody uploads onto a key that a live run works on: every upload is in
      staging, or was replaced there by its uploader, or has its rows in the table, which is
      then in the catalog, and a processed copy. */
  lemma NothingIsLost(ops: seq<Op>, v: nat)
    requires QuietRun(INITIAL, ops) && v < |Run(INITIAL, ops).origins|
    ensures Accounted(Run(INITIAL, ops), v)
    ensures v in Run(INITIAL, ops).copies ==> Run(INITIAL, ops).registered
  {
    assert forall v: nat :: Writers(INITIAL, v) == {};
    RunIsSafe(INITIAL, ops);
  }

  // What a run that reads the key at its copy does to a new version `v`: no rows, and gone.
  ghost predicate Lost(s: State, v: nat) {
    !Staged(s, v) && v !in s.replaced && s.table[v] == 0
  }

  // The new version is in staging under `key`, without rows, and run `j` works on that key.
  ghost predicate Endangered(s: State, j: int, key: string, v: nat) {
    && key in s.staging && s.staging[key] == v && v !in s.replaced && s.table[v] == 0
    && (forall k :: k in s.staging && s.staging[k] == v ==> k == key)
    && j in s.jobs && s.jobs[j].key == key && s.jobs[j].version != v && s.jobs[j].version >= 0
  }

  lemma DeleteLoses(s: State, j: int, key: string, v: nat)
    requires Endangered(s, j, key, v) && At(s, j, Copied)
    ensures Lost(Step(s, Delete(j)), v)
  {
  }

  lemma CopyEndangers(s: State, j: int, key: string, v: nat)
    requires Endangered(s, j, key, v) && (At(s, j, Ready) || At(s, j, Copied))
    ensures var t := Step(s, Copy(j)); Endangered(t, j, key, v) && At(t, j, Copied)
  {
  }

  // The catalog steps bring a live run that has written to its copy.
  lemma CatalogEndangers(s: State, j: int, key: string, v: nat)
    requires Endangered(s, j, key, v) && Live(s, j) && !At(s, j, Downloaded)
    ensures var t := Step(Step(s, CheckCatalog(j)), Register(j));
      Endangered(t, j, key, v) && (At(t, j, Ready) || At(t, j, Copied))
  {
    var s1 := Step(s, CheckCatalog(j));
    assert Endangered(s1, j, key, v);
  }

  lemma AppendEndangers(s: State, j: int, key: string, v: nat)
    requires Endangered(s, j, key, v) && Live(s, j)
    ensures var t := Step(s, Append(j)); Endangered(t, j, key, v) && Live(t, j) && !At(t, j, Downloaded)
  {
  }

  // What is left of a run; steps it has behind it do nothing.
  function RestOfRun(j: int): seq<Op> {
    [Append(j), CheckCatalog(j), Register(j), Copy(j), Delete(j), Delete(j)]
  }

  lemma EndangeredIsLost(s: State, j: int, key: string, v: nat)
    requires Endangered(s, j, key, v) && Live(s, j)
    ensures Lost(Run(s, RestOfRun(j)), v)
  {
    var s1 := Step(s, Append(j));
    var s2 := Step(Step(s1, CheckCatalog(j)), Register(j));
    var s3 := Step(s2, Copy(j));
    var s4 := Step(s3, Delete(j));
    SixSteps(s, Append(j), CheckCatalog(j), Register(j), Copy(j), Delete(j), Delete(j));
    AppendEndangers(s, j, key, v);
    CatalogEndangers(s1, j, key, v);
    CopyEndangers(s2, j, key, v);
    DeleteLoses(s3, j, key, v);
    assert Step(s4, Delete(j)) == s4;
  }

  lemma UploadEndangers(s: State, j: int)
    requires Counted(s) && Live(s, j)
    ensures var t := Step(s, Upload(s.jobs[j].key));
      Endangered(t, j, s.jobs[j].key, |s.origins|) && Live(t, j)
  {
    assert JobOk(s, s.jobs[j]);
    assert Writers(s, |s.origins|) == {} by {
      assert forall i :: i in s.jobs ==> JobOk(s, s.jobs[i]);
    }
  }

  /** The rule is needed, at every stage of a run: an upload onto the key of a live run leaves
      staging with that run's remaining steps, and its rows never reach the table. */
  lemma UploadUnderARunIsLost(s: State, j: int)
    requires Counted(s) && Live(s, j)
    ensures var t := Run(Step(s, Upload(s.jobs[j].key)), RestOfRun(j));
      |s.origins| < |t.origins| && !Accounted(t, |s.origins|)
  {
    UploadEndangers(s, j);
    var s1 := Step(s, Upload(s.jobs[j].key));
    EndangeredIsLost(s1, j, s.jobs[j].key, |s.origins|);
    OriginsGrow(s1, RestOfRun(j));
  }

  lemma RestIsQuiet(s: State, j: int)
    ensures QuietRun(s, RestOfRun(j))
  {
    NoUploadsAreQuiet(s, RestOfRun(j));
  }

  lemma {:induction false} NoUploadsAreQuiet(s: State, ops: seq<Op>)
    requires forall op :: op in ops ==> !op.Upload?
    ensures QuietRun(s, ops)
    decreases |ops|
  {
    if ops != [] {
      assert ops[0] in ops;
      NoUploadsAreQuiet(Step(s, ops[0]), ops[1..]);
    }
  }

  /** Exactly when an upload is safe: after a quiet run it stays accounted for in every quiet
      continuation if and only if no live run works on its key. */
  lemma UploadIsSafeIff(before: seq<Op>, key: string)
    requires QuietRun(INITIAL, before)
    ensures var s := Run(INITIAL, before);
      (forall ops :: QuietRun(Step(s, Upload(key)), ops) ==> Accounted(Run(Step(s, Upload(key)), ops), |s.origins|))
      <==> (forall j :: Live(s, j) ==> s.jobs[j].key != key)
  {
    assert forall v: nat :: Writers(INITIAL, v) == {};
    RunIsSafe(INITIAL, before);
    var s := Run(INITIAL, before);
    var t := Step(s, Upload(key));
    if j :| Live(s, j) && s.jobs[j].key == key {
      UploadUnderARunIsLost(s, j);
      RestIsQuiet(t, j);
      assert QuietRun(t, RestOfRun(j)) && !Accounted(Run(t, RestOfRun(j)), |s.origins|);
    } else {
      CountedStays(s, Upload(key));
      SafeStays(s, Upload(key));
      forall ops | QuietRun(t, ops) ensures Accounted(Run(t, ops), |s.origins|) {
        RunIsSafe(t, ops);
        OriginsGrow(t, ops);
      }
    }
  }

  lemma {:induction false} OriginsGrow(s: State, ops: seq<Op>)
    ensures |s.origins| <= |Run(s, ops).origins|
    decreases |ops|
  {
    if ops != [] {
      OriginsGrow(Step(s, ops[0]), ops[1..]);
    }
  }

  // Version `v` is out of reach: not in staging, and no run under way holds it.
  ghost predicate OutOfReach(s: State, v: nat) {
    && v < |s.origins| && !Staged(s, v)
    && forall j :: Running(s, j) && s.jobs[j].stage.Downloaded? ==> s.jobs[j].version != v
  }

  lemma OutOfReachStays(s: State, op: Op, v: nat)
    requires OutOfReach(s, v)
    ensures OutOfReach(Step(s, op), v) && Step(s, op).table[v] == s.table[v]
  {
    var t := Step(s, op);
    forall key | key in t.staging ensures t.staging[key] != v {
      assert key in s.staging ==> s.staging[key] != v;
    }
    forall j | Running(t, j) && t.jobs[j].stage.Downloaded? ensures t.jobs[j].version != v {
      assert j in s.jobs ==> t.jobs[j] == s.jobs[j] && Running(s, j);
    }
    if op.Append? && At(s, op.j, Downloaded) {
      assert Running(s, op.j);
    }
  }

  lemma {:induction false} OutOfReachForever(s: State, ops: seq<Op>, v: nat)
    requires OutOfReach(s, v)
    ensures OutOfReach(Run(s, ops), v) && Run(s, ops).table[v] == s.table[v]
    decreases |ops|
  {
    if ops != [] {
      OutOfReachStays(s, ops[0], v);
      OutOfReachForever(Step(s, ops[0]), ops[1..], v);
    }
  }

  /** Serial runs: when a run deletes the object it read and no other run on that key is
      under way, later triggers write nothing of it, whatever happens; and if no other run
      had appended it, its rows are in the table exactly once. */
  lemma SerialRunsLoadOnce(before: seq<Op>, j: int, later: seq<Op>)
    requires QuietRun(INITIAL, before)
    requires var s := Run(INITIAL, before);
      && At(s, j, Copied) && s.jobs[j].key in s.staging
      && (forall i :: Running(s, i) && i != j ==> s.jobs[i].key != s.jobs[j].key)
    ensures var s := Run(INITIAL, before);
      var v := s.staging[s.jobs[j].key];
      var t := Run(Step(s, Delete(j)), later);
      && t.table[v] == s.table[v] == |Writers(s, v)| && v in s.copies
      && (Writers(s, v) == {j} <==> t.table[v] == 1)
  {
    assert forall v: nat :: Writers(INITIAL, v) == {};
    RunIsSafe(INITIAL, before);
    var s := Run(INITIAL, before);
    var v := s.staging[s.jobs[j].key];
    var t := Step(s, Delete(j));
    assert Holds(s, j) && JobOk(s, s.jobs[j]) && j in Writers(s, v);
    DeletedIsKept(s, j);
    forall i | Running(t, i) && t.jobs[i].stage.Downloaded? ensures t.jobs[i].version != v {
      assert i != j && Running(s, i) && JobOk(s, s.jobs[i]);
    }
    OutOfReachForever(t, later, v);
    if |Writers(s, v)| == 1 {
      assert |Writers(s, v) - {j}| == 0;
    }
  }
}
