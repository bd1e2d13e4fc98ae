/** Minting of the Power BI service-principal token: any number of requests run the
    double-checked function concurrently; a step is what one of them does between two
    awaits, or less. Times are in seconds. */
module TokenMint {
  import opened Common

  const MARGIN: real := 60.0

  datatype Cached = Cached(token: string, until: real)

  datatype Task =
    | Entered                 // has not looked yet
    | Waiting                 // the first look found no fresh token
    | Locked                  // holds the lock, has not looked again
    | Posting                 // holds the lock, its POST is in flight
    | Served(token: string, until: real, at: real, minted: bool)
    | Failed

  datatype Post = Post(start: real, outcome: Outcome)
  datatype Outcome = InFlight | Minted(token: string, until: real) | Rejected

  /** `posts` logs every POST to the authority, in the order they started. */
  datatype State = State(now: real, cache: Option<Cached>, lock: Option<int>,
                         tasks: map<int, Task>, configured: bool, posts: seq<Post>)

  datatype Op =
    | Arrive(t: int)
    | FirstLook(t: int)
    | Acquire(t: int)
    | SecondLook(t: int)
    | PostOk(t: int, token: string, lifetime: int)
    | PostFails(t: int)
    | Cancel(t: int)          // the client went away
    | Tick(dt: real)

  function Init(configured: bool, now: real): State {
    State(now, None, None, map[], configured, [])
  }

  predicate Fresh(s: State) {
    s.cache.Some? && s.cache.value.until > s.now + MARGIN
  }

  function FromCache(s: State): Task
    requires Fresh(s)
  {
    Served(s.cache.value.token, s.cache.value.until, s.now, false)
  }

  predicate At(s: State, t: int, pc: Task) {
    t in s.tasks && s.tasks[t] == pc
  }

  function Finish(s: State, t: int, task: Task): State {
    s.(tasks := s.tasks[t := task], lock := if s.lock == Some(t) then None else s.lock)
  }

  function Settle(s: State, outcome: Outcome): State {
    if s.posts == [] then s
    else s.(posts := s.posts[|s.posts| - 1 := s.posts[|s.posts| - 1].(outcome := outcome)])
  }

  // A step that is not possible in `s` leaves `s` as it is.
  function Step(s: State, op: Op): State {
    match op
    case Arrive(t) => if t in s.tasks then s else s.(tasks := s.tasks[t := Entered])
    case FirstLook(t) =>
      if !At(s, t, Entered) then s
      else s.(tasks := s.tasks[t := if Fresh(s) then FromCache(s) else Waiting])
    case Acquire(t) =>
      if !At(s, t, Waiting) || s.lock.Some? then s
      else s.(lock := Some(t), tasks := s.tasks[t := Locked])
    case SecondLook(t) =>
      if !At(s, t, Locked) then s
      else if Fresh(s) then Finish(s, t, FromCache(s))
      else if !s.configured then Finish(s, t, Failed)
      else s.(tasks := s.tasks[t := Posting], posts := s.posts + [Post(s.now, InFlight)])
    case PostOk(t, token, lifetime) =>
      if !At(s, t, Posting) then s
      else
        var until := s.now + lifetime as real;
        Finish(Settle(s, Minted(token, until)), t, Served(token, until, s.now, true))
          .(cache := Some(Cached(token, until)))
    case PostFails(t) =>
      if !At(s, t, Posting) then s else Finish(Settle(s, Rejected), t, Failed)
    case Cancel(t) =>
      if t !in s.tasks || s.tasks[t].Served? || s.tasks[t].Failed? then s
      else Finish(if s.tasks[t].Posting? then Settle(s, Rejected) else s, t, Failed)
    case Tick(dt) => if dt < 0.0 then s else s.(now := s.now + dt)
  }

  function Run(s: State, ops: seq<Op>): State
    decreases |ops|
  {
    if ops == [] then s else Run(Step(s, ops[0]), ops[1..])
  }

  // ----- one call, undisturbed -----

  datatype Response = Ok(token: string, lifetime: int) | Refused

  // The steps of one call. If it has to wait for the lock, others may run, and `meanwhile`
  // is what they leave in the cache.
  function Call(s: State, t: int, locked: real, answered: real, meanwhile: Option<Cached>, response: Response): State {
    var looked := Step(Step(s, Arrive(t)), FirstLook(t));
    if !At(looked, t, Waiting) then looked
    else
      var inside := Step(Step(looked.(cache := meanwhile, now := locked), Acquire(t)), SecondLook(t));
      Step(inside.(now := answered),
           if response.Ok? then PostOk(t, response.token, response.lifetime) else PostFails(t))
  }

  // A call that does not wait.
  lemma CallHits(s: State, t: int, locked: real, answered: real, meanwhile: Option<Cached>, response: Response)
    requires s == Init(s.configured, s.now).(cache := s.cache) && Fresh(s)
    ensures Call(s, t, locked, answered, meanwhile, response) == s.(tasks := map[t := FromCache(s)])
  {
    assert Step(s, Arrive(t)).tasks == map[t := Entered];
    assert map[t := Entered][t := FromCache(s)] == map[t := FromCache(s)];
  }

  // A call that waits and finds that another one minted.
  lemma CallHitsInside(s: State, t: int, locked: real, answered: real, meanwhile: Option<Cached>, response: Response)
    requires s == Init(s.configured, s.now).(cache := s.cache) && !Fresh(s)
    requires Fresh(s.(cache := meanwhile, now := locked))
    ensures var inside := s.(cache := meanwhile, now := locked);
      Call(s, t, locked, answered, meanwhile, response)
        == inside.(now := answered, tasks := map[t := FromCache(inside)])
  {
    var inside := s.(cache := meanwhile, now := locked);
    var looked := s.(tasks := map[t := Waiting]);
    assert Step(Step(s, Arrive(t)), FirstLook(t)) == looked by {
      assert map[t := Entered][t := Waiting] == map[t := Waiting];
    }
    assert Step(looked.(cache := meanwhile, now := locked), Acquire(t))
      == inside.(lock := Some(t), tasks := map[t := Locked]) by {
      assert map[t := Waiting][t := Locked] == map[t := Locked];
    }
    assert map[t := Locked][t := FromCache(inside)] == map[t := FromCache(inside)];
  }

  // A call that waits and mints, or fails.
  lemma CallMints(s: State, t: int, locked: real, answered: real, meanwhile: Option<Cached>, response: Response)
    requires s == Init(s.configured, s.now).(cache := s.cache) && !Fresh(s)
    requires !Fresh(s.(cache := meanwhile, now := locked))
    ensures var end := Call(s, t, locked, answered, meanwhile, response);
      && end.lock == None
      && if s.configured && response.Ok? then
           var until := answered + response.lifetime as real;
           end.cache == Some(Cached(response.token, until))
             && end.tasks == map[t := Served(response.token, until, answered, true)]
         else end.cache == meanwhile && end.tasks == map[t := Failed]
  {
    var inside := s.(cache := meanwhile, now := locked);
    var looked := s.(tasks := map[t := Waiting]);
    assert Step(Step(s, Arrive(t)), FirstLook(t)) == looked by {
      assert map[t := Entered][t := Waiting] == map[t := Waiting];
    }
    var held := inside.(lock := Some(t), tasks := map[t := Locked]);
    assert Step(looked.(cache := meanwhile, now := locked), Acquire(t)) == held by {
      assert map[t := Waiting][t := Locked] == map[t := Locked];
    }
  }

  class PowerBi {
    var cache: Option<Cached>
    const configured: bool

    constructor (configured: bool)
      ensures cache == None && this.configured == configured
    {
      cache := None;
      this.configured := configured;
    }

    /** The double-checked function: it looks at `now`, again when it has the lock at
        `locked`, and may have an answer at `answered`. */
    method SpToken(t: int, now: real, locked: real, answered: real, meanwhile: Option<Cached>, response: Response)
      returns (result: Task)
      modifies this
      ensures var end := Call(Init(configured, now).(cache := old(cache)), t, locked, answered, meanwhile, response);
        cache == end.cache && end.tasks == map[t := result] && end.lock == None
      ensures
        if old(cache).Some? && old(cache).value.until - now > 60.0 then
          result == Served(old(cache).value.token, old(cache).value.until, now, false) && cache == old(cache)
        else if meanwhile.Some? && meanwhile.value.until - locked > 60.0 then
          result == Served(meanwhile.value.token, meanwhile.value.until, locked, false) && cache == meanwhile
        else if configured && response.Ok? then
          var until := answered + response.lifetime as real;
          result == Served(response.token, until, answered, true) && cache == Some(Cached(response.token, until))
        else result == Failed && cache == meanwhile
    {
      ghost var s := Init(configured, now).(cache := cache);
      if cache.Some? && cache.value.until > now + MARGIN {
        CallHits(s, t, locked, answered, meanwhile, response);
        return Served(cache.value.token, cache.value.until, now, false);
      }
      cache := meanwhile;
      if cache.Some? && cache.value.until > locked + MARGIN {
        CallHitsInside(s, t, locked, answered, meanwhile, response);
        return Served(cache.value.token, cache.value.until, locked, false);
      }
      CallMints(s, t, locked, answered, meanwhile, response);
      if !configured || response.Refused? {
        return Failed;
      }
      var until := answered + response.lifetime as real;
      cache := Some(Cached(response.token, until));
      result := Served(response.token, until, answered, true);
    }
  }

  // ----- the invariant -----

  ghost predicate LockOk(s: State) {
    && (s.lock.Some? ==> s.lock.value in s.tasks)
    && forall t :: t in s.tasks ==> (s.tasks[t].Locked? || s.tasks[t].Posting? <==> s.lock == Some(t))
  }

  // The last minted token of the log, if any.
  function LastMint(posts: seq<Post>): Option<Cached>
    decreases |posts|
  {
    if posts == [] then None
    else
      match posts[|posts| - 1].outcome
      case Minted(token, until) => Some(Cached(token, until))
      case _ => LastMint(posts[..|posts| - 1])
  }

  ghost predicate Spaced(posts: seq<Post>) {
    forall i, j :: 0 <= i < j < |posts| ==>
      && posts[i].start <= posts[j].start
      && !posts[i].outcome.InFlight?
      && (posts[i].outcome.Minted? ==> posts[i].outcome.until - MARGIN <= posts[j].start)
  }

  ghost predicate PostsOk(s: State) {
    && Spaced(s.posts)
    && (forall i :: 0 <= i < |s.posts| ==> s.posts[i].start <= s.now)
    && LastMint(s.posts) == s.cache
    && ((s.posts != [] && s.posts[|s.posts| - 1].outcome.InFlight?) <==>
        (s.lock.Some? && At(s, s.lock.value, Posting)))
  }

  ghost predicate ServedOk(s: State) {
    forall t :: t in s.tasks && s.tasks[t].Served? && !s.tasks[t].minted ==>
      s.tasks[t].until > s.tasks[t].at + MARGIN
  }

  ghost predicate MintedOk(s: State) {
    forall t :: t in s.tasks && s.tasks[t].Served? ==>
      exists i :: 0 <= i < |s.posts| && s.posts[i].outcome == Minted(s.tasks[t].token, s.tasks[t].until)
  }

  ghost predicate Inv(s: State) {
    LockOk(s) && PostsOk(s) && ServedOk(s) && MintedOk(s)
  }

  lemma {:induction false} LastMintIsLogged(posts: seq<Post>) returns (i: nat)
    requires LastMint(posts).Some?
    ensures i < |posts|
    ensures posts[i].outcome == Minted(LastMint(posts).value.token, LastMint(posts).value.until)
    ensures forall j :: i < j < |posts| ==> !posts[j].outcome.Minted?
    decreases |posts|
  {
    if posts[|posts| - 1].outcome.Minted? {
      i := |posts| - 1;
    } else {
      i := LastMintIsLogged(posts[..|posts| - 1]);
    }
  }

  lemma {:induction false} NothingMinted(posts: seq<Post>)
    requires LastMint(posts).None?
    ensures forall j :: 0 <= j < |posts| ==> !posts[j].outcome.Minted?
    decreases |posts|
  {
    if posts != [] {
      NothingMinted(posts[..|posts| - 1]);
    }
  }

  // A POST starts only when every token minted before is within the margin of its end.
  lemma NewPostIsSpaced(s: State)
    requires PostsOk(s) && !Fresh(s)
    requires s.posts != [] ==> !s.posts[|s.posts| - 1].outcome.InFlight?
    ensures Spaced(s.posts + [Post(s.now, InFlight)])
  {
    var posts := s.posts + [Post(s.now, InFlight)];
    forall i | 0 <= i < |s.posts| && s.posts[i].outcome.Minted?
      ensures s.posts[i].outcome.until - MARGIN <= s.now
    {
      if s.cache.None? {
        NothingMinted(s.posts);
      } else {
        var m := LastMintIsLogged(s.posts);
        assert i < m ==> s.posts[i].outcome.until - MARGIN <= s.posts[m].start;
      }
    }
  }

  lemma SettleKeeps(s: State, outcome: Outcome)
    requires PostsOk(s) && s.posts != [] && s.posts[|s.posts| - 1].outcome.InFlight? && !outcome.InFlight?
    ensures var t := Settle(s, outcome);
      && Spaced(t.posts)
      && (forall i :: 0 <= i < |t.posts| ==> t.posts[i].start <= s.now)
      && LastMint(t.posts) == if outcome.Minted? then Some(Cached(outcome.token, outcome.until)) else s.cache
  {
    var t := Settle(s, outcome);
    assert t.posts[..|t.posts| - 1] == s.posts[..|s.posts| - 1];
  }

  lemma MintedSurvives(s: State, posts: seq<Post>, x: int)
    requires MintedOk(s) && x in s.tasks && s.tasks[x].Served?
    requires |s.posts| <= |posts|
    requires forall i :: 0 <= i < |s.posts| && s.posts[i].outcome.Minted? ==> posts[i] == s.posts[i]
    ensures exists i :: 0 <= i < |posts| && posts[i].outcome == Minted(s.tasks[x].token, s.tasks[x].until)
  {
    var i :| 0 <= i < |s.posts| && s.posts[i].outcome == Minted(s.tasks[x].token, s.tasks[x].until);
    assert posts[i] == s.posts[i];
  }

  lemma MintedStays(s: State, op: Op)
    requires Inv(s)
    ensures MintedOk(Step(s, op))
  {
    var r := Step(s, op);
    forall x | x in r.tasks && r.tasks[x].Served?
      ensures exists i :: 0 <= i < |r.posts| && r.posts[i].outcome == Minted(r.tasks[x].token, r.tasks[x].until)
    {
      if x in s.tasks && s.tasks[x] == r.tasks[x] {
        MintedSurvives(s, r.posts, x);
      } else if op.PostOk? {
        assert r.posts[|r.posts| - 1].outcome == Minted(r.tasks[x].token, r.tasks[x].until);
      } else {
        var i := LastMintIsLogged(s.posts);
        assert r.posts[i] == s.posts[i];
      }
    }
  }

  lemma LockStays(s: State, op: Op)
    requires Inv(s)
    ensures LockOk(Step(s, op)) && ServedOk(Step(s, op))
  {
  }

  lemma PostStarts(s: State, t: int)
    requires Inv(s) && At(s, t, Locked) && !Fresh(s)
    ensures PostsOk(s.(tasks := s.tasks[t := Posting], posts := s.posts + [Post(s.now, InFlight)]))
  {
    NewPostIsSpaced(s);
    assert (s.posts + [Post(s.now, InFlight)])[..|s.posts|] == s.posts;
  }

  lemma PostEnds(s: State, t: int, outcome: Outcome, task: Task)
    requires Inv(s) && At(s, t, Posting) && !outcome.InFlight?
    ensures PostsOk(Finish(Settle(s, outcome), t, task)
      .(cache := if outcome.Minted? then Some(Cached(outcome.token, outcome.until)) else s.cache))
  {
    SettleKeeps(s, outcome);
  }

  // A task that is not posting moves on without touching the log or the cache.
  lemma OthersLeaveThePosts(s: State, r: State)
    requires Inv(s) && r.posts == s.posts && r.cache == s.cache && r.now >= s.now
    requires (r.lock.Some? && At(r, r.lock.value, Posting)) <==> (s.lock.Some? && At(s, s.lock.value, Posting))
    ensures PostsOk(r)
  {
  }

  lemma SecondLookPosts(s: State, t: int)
    requires Inv(s)
    ensures PostsOk(Step(s, SecondLook(t)))
  {
    if At(s, t, Locked) && !Fresh(s) && s.configured {
      PostStarts(s, t);
    } else {
      OthersLeaveThePosts(s, Step(s, SecondLook(t)));
    }
  }

  lemma PostOkPosts(s: State, t: int, token: string, lifetime: int)
    requires Inv(s)
    ensures PostsOk(Step(s, PostOk(t, token, lifetime)))
  {
    if At(s, t, Posting) {
      var until := s.now + lifetime as real;
      PostEnds(s, t, Minted(token, until), Served(token, until, s.now, true));
    }
  }

  lemma PostFailsPosts(s: State, op: Op)
    requires Inv(s) && (op.PostFails? || op.Cancel?)
    ensures PostsOk(Step(s, op))
  {
    if At(s, op.t, Posting) {
      PostEnds(s, op.t, Rejected, Failed);
    } else {
      OthersLeaveThePosts(s, Step(s, op));
    }
  }

  lemma PostsStay(s: State, op: Op)
    requires Inv(s)
    ensures PostsOk(Step(s, op))
  {
    match op
    case SecondLook(t) => SecondLookPosts(s, t);
    case PostOk(t, token, lifetime) => PostOkPosts(s, t, token, lifetime);
    case PostFails(_) => PostFailsPosts(s, op);
    case Cancel(_) => PostFailsPosts(s, op);
    case _ => OthersLeaveThePosts(s, Step(s, op));
  }

  lemma StepKeeps(s: State, op: Op)
    requires Inv(s)
    ensures Inv(Step(s, op))
  {
    LockStays(s, op);
    PostsStay(s, op);
    MintedStays(s, op);
  }

  lemma {:induction false} RunKeeps(s: State, ops: seq<Op>)
    requires Inv(s)
    ensures Inv(Run(s, ops))
    decreases |ops|
  {
    if ops != [] {
      StepKeeps(s, ops[0]);
      RunKeeps(Step(s, ops[0]), ops[1..]);
    }
  }

  // ----- main results -----

  /** Single flight: of all POSTs at most the latest is in flight, and that one belongs
      to the task holding the lock. */
  lemma SingleFlight(configured: bool, now: real, ops: seq<Op>)
    ensures var s := Run(Init(configured, now), ops);
      && (forall i :: 0 <= i < |s.posts| && s.posts[i].outcome.InFlight? ==> i == |s.posts| - 1)
      && (forall t, u :: At(s, t, Posting) && At(s, u, Posting) ==> t == u)
      && (forall t :: At(s, t, Posting) ==> s.posts != [] && s.posts[|s.posts| - 1].outcome.InFlight?)
  {
    RunKeeps(Init(configured, now), ops);
  }

  /** Every POST started when all tokens minted before had at most 60 seconds left. */
  lemma MintsAreSpaced(configured: bool, now: real, ops: seq<Op>)
    ensures Spaced(Run(Init(configured, now), ops).posts)
  {
    RunKeeps(Init(configured, now), ops);
  }

  // Step `k` of the run was the authority's answer with that token, which expires then.
  ghost predicate AnsweredBy(s: State, ops: seq<Op>, k: nat, token: string, until: real) {
    && k < |ops| && ops[k].PostOk? && ops[k].token == token
    && until == Run(s, ops[..k]).now + ops[k].lifetime as real
  }

  lemma {:induction false} RunSnoc(s: State, ops: seq<Op>)
    requires ops != []
    ensures Run(s, ops) == Step(Run(s, ops[..|ops| - 1]), ops[|ops| - 1])
    decreases |ops|
  {
    if |ops| > 1 {
      RunSnoc(Step(s, ops[0]), ops[1..]);
      assert ops[..|ops| - 1][1..] == ops[1..][..|ops| - 2];
    }
  }

  lemma StepMints(s: State, op: Op, i: nat)
    requires i < |Step(s, op).posts| && Step(s, op).posts[i].outcome.Minted?
    ensures var minted := Step(s, op).posts[i].outcome;
      || (i < |s.posts| && s.posts[i].outcome == minted)
      || (op.PostOk? && op.token == minted.token && minted.until == s.now + op.lifetime as real)
  {
  }

  /** Every minted token is one the authority answered with, and expires as many seconds after
      the answer as that said. */
  lemma {:induction false} MintedAsAnswered(s: State, ops: seq<Op>, i: nat)
    requires s.posts == [] && i < |Run(s, ops).posts| && Run(s, ops).posts[i].outcome.Minted?
    ensures var minted := Run(s, ops).posts[i].outcome;
      exists k: nat :: AnsweredBy(s, ops, k, minted.token, minted.until)
    decreases |ops|
  {
    if ops != [] {
      var n := |ops| - 1;
      var init, minted := ops[..n], Run(s, ops).posts[i].outcome;
      RunSnoc(s, ops);
      StepMints(Run(s, init), ops[n], i);
      if i < |Run(s, init).posts| && Run(s, init).posts[i].outcome == minted {
        MintedAsAnswered(s, init, i);
        var k: nat :| AnsweredBy(s, init, k, minted.token, minted.until);
        assert ops[..k] == init[..k] && AnsweredBy(s, ops, k, minted.token, minted.until);
      } else {
        assert AnsweredBy(s, ops, n, minted.token, minted.until);
      }
    }
  }

  /** Every caller that is served gets a token the authority minted, and unless it minted
      that token itself, the token had more than 60 seconds left when it looked. */
  lemma ServedTokensAreGood(configured: bool, now: real, ops: seq<Op>, t: int)
    requires var s := Run(Init(configured, now), ops); t in s.tasks && s.tasks[t].Served?
    ensures var s := Run(Init(configured, now), ops);
      && (exists i :: 0 <= i < |s.posts| && s.posts[i].outcome == Minted(s.tasks[t].token, s.tasks[t].until))
      && (!s.tasks[t].minted ==> s.tasks[t].until > s.tasks[t].at + MARGIN)
  {
    RunKeeps(Init(configured, now), ops);
  }

  function MintCount(posts: seq<Post>): nat
    decreases |posts|
  {
    if posts == [] then 0
    else MintCount(posts[..|posts| - 1]) + if posts[|posts| - 1].outcome.Minted? then 1 else 0
  }

  function Times(n: nat, d: real): real {
    if n == 0 then 0.0 else Times(n - 1, d) + d
  }

  lemma {:induction false} SpacingAddsUp(posts: seq<Post>, spacing: real)
    requires Spaced(posts) && posts != [] && spacing >= 0.0
    requires forall i :: 0 <= i < |posts| && posts[i].outcome.Minted? ==>
      posts[i].outcome.until - MARGIN >= posts[i].start + spacing
    ensures Times(MintCount(posts), spacing) <=
      posts[|posts| - 1].start - posts[0].start + if posts[|posts| - 1].outcome.Minted? then spacing else 0.0
    decreases |posts|
  {
    var init, last := posts[..|posts| - 1], posts[|posts| - 1];
    if init != [] {
      SpacingAddsUp(init, spacing);
      assert init[|init| - 1] == posts[|posts| - 2];
    } else {
      assert MintCount(init) == 0;
    }
  }

  /** However many requests come in and however they interleave: when the authority's
      tokens outlive their request by at least 60 seconds plus `spacing`, `n` mints take
      at least `n - 1` spacings. */
  lemma MintRateIsBounded(configured: bool, now: real, ops: seq<Op>, spacing: real)
    requires spacing >= 0.0
    requires var posts := Run(Init(configured, now), ops).posts;
      posts != [] && forall i :: 0 <= i < |posts| && posts[i].outcome.Minted? ==>
        posts[i].outcome.until - MARGIN >= posts[i].start + spacing
    ensures var s := Run(Init(configured, now), ops);
      Times(MintCount(s.posts), spacing) <= s.now - s.posts[0].start + spacing
  {
    RunKeeps(Init(configured, now), ops);
    SpacingAddsUp(Run(Init(configured, now), ops).posts, spacing);
  }

  /** No schedule gets stuck: while a task is unfinished, some step changes the state. */
  lemma NeverStuck(configured: bool, now: real, ops: seq<Op>, t: int)
    requires var s := Run(Init(configured, now), ops);
      t in s.tasks && !s.tasks[t].Served? && !s.tasks[t].Failed?
    ensures var s := Run(Init(configured, now), ops);
      exists u :: u in s.tasks &&
        (Step(s, FirstLook(u)) != s || Step(s, Acquire(u)) != s || Step(s, SecondLook(u)) != s
          || Step(s, PostFails(u)) != s)
  {
    RunKeeps(Init(configured, now), ops);
    var s := Run(Init(configured, now), ops);
    if s.lock.Some? {
      var u := s.lock.value;
      assert s.tasks[u].Locked? || s.tasks[u].Posting?;
      if s.tasks[u].Locked? {
        assert Step(s, SecondLook(u)).tasks[u] != Locked;
      } else {
        assert Step(s, PostFails(u)).tasks[u] == Failed;
      }
    } else if s.tasks[t].Entered? {
      assert Step(s, FirstLook(t)).tasks[t] != Entered;
    } else {
      assert Step(s, Acquire(t)).tasks[t] == Locked;
    }
  }

  // What a look at the cache does, the one before the lock or the one inside.
  function Look(s: State, t: int): State {
    if At(s, t, Entered) then Step(s, FirstLook(t)) else Step(s, SecondLook(t))
  }

  /** The docstring promises five minutes. Either look breaks that promise, by serving a token
      with no more than five minutes left, exactly when the cached one has more than one. */
  lemma ServedWithinFiveMinutes(s: State, t: int)
    requires At(s, t, Entered) || At(s, t, Locked)
    ensures var task := Look(s, t).tasks[t];
      (task.Served? && task.until - task.at <= 300.0)
      <==> (s.cache.Some? && 60.0 < s.cache.value.until - s.now <= 300.0)
  {
  }

  // In the state some task was served from the cache a token with `left` seconds.
  ghost predicate ServesWith(s: State, left: real) {
    exists t :: t in s.tasks && s.tasks[t].Served? && !s.tasks[t].minted && s.tasks[t].until - s.tasks[t].at == left
  }

  // One task mints a token, and another looks when it has `left` seconds.
  function MintAndLook(lifetime: int, left: real): seq<Op> {
    [Arrive(0)] + ([FirstLook(0)] + ([Acquire(0)] + ([SecondLook(0)] + ([PostOk(0, "token", lifetime)]
      + ([Tick(lifetime as real - left)] + ([Arrive(1)] + ([FirstLook(1)] + [])))))))
  }

  lemma RunCons(s: State, op: Op, ops: seq<Op>)
    ensures Run(s, [op] + ops) == Run(Step(s, op), ops)
  {
    assert ([op] + ops)[1..] == ops;
  }

  lemma MintAndLookServes(lifetime: int, left: real)
    requires left > MARGIN && lifetime as real >= left
    ensures ServesWith(Run(Init(true, 0.0), MintAndLook(lifetime, left)), left)
  {
    var s0 := Init(true, 0.0);
    var tail := [Tick(lifetime as real - left)] + ([Arrive(1)] + ([FirstLook(1)] + []));
    var s1 := Step(s0, Arrive(0));
    RunCons(s0, Arrive(0), [FirstLook(0)]
      + ([Acquire(0)] + ([SecondLook(0)] + ([PostOk(0, "token", lifetime)] + tail))));
    var s2 := Step(s1, FirstLook(0));
    RunCons(s1, FirstLook(0), [Acquire(0)] + ([SecondLook(0)] + ([PostOk(0, "token", lifetime)] + tail)));
    var s3 := Step(s2, Acquire(0));
    RunCons(s2, Acquire(0), [SecondLook(0)] + ([PostOk(0, "token", lifetime)] + tail));
    var s4 := Step(s3, SecondLook(0));
    RunCons(s3, SecondLook(0), [PostOk(0, "token", lifetime)] + tail);
    var s5 := Step(s4, PostOk(0, "token", lifetime));
    RunCons(s4, PostOk(0, "token", lifetime), tail);
    assert s5.cache == Some(Cached("token", lifetime as real)) && s5.now == 0.0 && 1 !in s5.tasks;
    LookServes(s5, lifetime as real - left, left);
  }

  lemma LookServes(s: State, dt: real, left: real)
    requires s.cache.Some? && dt >= 0.0 && s.cache.value.until - (s.now + dt) == left > MARGIN && 1 !in s.tasks
    ensures ServesWith(Run(s, [Tick(dt)] + ([Arrive(1)] + ([FirstLook(1)] + []))), left)
  {
    var s1 := Step(s, Tick(dt));
    var s2 := Step(s1, Arrive(1));
    var s3 := Step(s2, FirstLook(1));
    RunCons(s, Tick(dt), [Arrive(1)] + ([FirstLook(1)] + []));
    RunCons(s1, Arrive(1), [FirstLook(1)] + []);
    RunCons(s2, FirstLook(1), []);
    assert s3.tasks[1] == Served(s.cache.value.token, s.cache.value.until, s.now + dt, false);
  }

  /** Over all schedules the lifetimes left with which tokens come out of the cache are exactly
      those of more than one minute; all of them occur, those below five minutes too. */
  lemma ServedLifetimesAreExactly(left: real)
    ensures (exists configured, now, ops :: ServesWith(Run(Init(configured, now), ops), left)) <==> left > MARGIN
  {
    if configured, now, ops :| ServesWith(Run(Init(configured, now), ops), left) {
      var s := Run(Init(configured, now), ops);
      var t :| t in s.tasks && s.tasks[t].Served? && !s.tasks[t].minted && s.tasks[t].until - s.tasks[t].at == left;
      ServedTokensAreGood(configured, now, ops, t);
    }
    if left > MARGIN {
      var lifetime := left.Floor + 1;
      MintAndLookServes(lifetime, left);
    }
  }
}
