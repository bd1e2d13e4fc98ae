/** Webhooks, replays and restarts of the access bridge against Keycloak. Any number of
    handlers run at once; a step is one request as Keycloak serves it. */
module Grants {
  import opened Common
  import opened GrantParser

  /** A realm role. Keycloak refuses a second role of one name. */
  datatype Role = Role(id: int, name: string)

  datatype Status = Granted | Duplicate | Replayed | Rejected

  datatype Handler = Handler(grant: Grant, replay: bool, at: Stage)
  datatype Stage =
    | NeedsUser
    | NeedsRole(uid: int)
    | RoleMissing(uid: int)              // the first GET answered 404
    | Created(uid: int)                  // the POST answered 201 or 409
    | HasRole(uid: int, rid: int)
    | Mapped(uid: int, rid: int)         // Keycloak has the mapping, the handler does not know yet
    | Answered(status: Status)
    | Dead(late: Late)                   // failed, or killed by a restart

  /** A request that a dead handler may have sent and Keycloak has not served yet. Only the
      two that change Keycloak matter. */
  datatype Late = Nothing | LateRole | LateMapping(uid: int, rid: int)

  /** `accepted`, `applied` and `completed` are bookkeeping: the grants of the events that
      were let in, of the mappings Keycloak stored, and of the handlers that ran to their end. */
  datatype State = State(users: map<string, int>, roles: set<Role>, nextRole: int, mappings: set<(int, int)>,
                         processed: set<string>, handlers: map<int, Handler>,
                         accepted: set<Grant>, applied: set<Grant>, completed: set<Grant>)

  datatype Op =
    | Webhook(h: int, signed: bool, event: Event)
    | Replay(h: int, path: string, event: Event)
    | FindUser(h: int)
    | GetRole(h: int)
    | PostRole(h: int)
    | GetRoleAgain(h: int)
    | PostMapping(h: int)
    | Finish(h: int)
    | Fail(h: int)
    | Restart
    | ServeLate(h: int)

  function Accept(s: State, h: int, grant: Grant, replay: bool): State {
    s.(handlers := s.handlers[h := Handler(grant, replay, NeedsUser)], accepted := s.accepted + {grant})
  }

  function Answer(s: State, h: int, status: Status, grant: Grant): State {
    s.(handlers := s.handlers[h := Handler(grant, status.Replayed?, Answered(status))])
  }

  const NO_GRANT := Grant("", "", "")

  function Move(s: State, h: int, stage: Stage): State
    requires h in s.handlers
  {
    s.(handlers := s.handlers[h := s.handlers[h].(at := stage)])
  }

  function RolesNamed(s: State, name: string): set<Role> {
    set r | r in s.roles && r.name == name
  }

  ghost function RoleNamed(s: State, name: string): (r: Role)
    requires RolesNamed(s, name) != {}
    ensures r in s.roles && r.name == name
  {
    var r :| r in RolesNamed(s, name); r
  }

  // What is left of a handler that fails or is killed.
  function Killed(at: Stage): Stage {
    match at
    case Answered(_) => at
    case Dead(_) => at
    case RoleMissing(_) => Dead(LateRole)
    case HasRole(uid, rid) => Dead(LateMapping(uid, rid))
    case _ => Dead(Nothing)
  }

  // POST of a role: 409, and nothing else, when Keycloak has one of that name.
  function WithRole(s: State, name: string): State {
    if RolesNamed(s, name) != {} then s
    else s.(roles := s.roles + {Role(s.nextRole, name)}, nextRole := s.nextRole + 1)
  }

  function WithMapping(s: State, uid: int, rid: int, grant: Grant): State {
    s.(mappings := s.mappings + {(uid, rid)}, applied := s.applied + {grant})
  }

  // A step that is not possible in `s` leaves `s` as it is.
  ghost function Step(s: State, op: Op): State {
    match op
    case Webhook(h, signed, event) =>
      if h in s.handlers then s
      else if !signed then Answer(s, h, Rejected, NO_GRANT)
      else
        (match ParseGrant(event)
         case Refused(_) => Answer(s, h, Rejected, NO_GRANT)
         case Ok(grant) =>
           if grant.taskId in s.processed then Answer(s, h, Duplicate, grant) else Accept(s, h, grant, false))
    case Replay(h, path, event) =>
      if h in s.handlers then s
      else
        var forgotten := s.(processed := s.processed - {path});
        (match ParseReplay(path, event)
         case Refused(_) => Answer(forgotten, h, Rejected, NO_GRANT)
         case Ok(grant) => Accept(forgotten, h, grant, true))
    case FindUser(h) =>
      if h !in s.handlers || !s.handlers[h].at.NeedsUser? then s
      else if s.handlers[h].grant.user in s.users then Move(s, h, NeedsRole(s.users[s.handlers[h].grant.user]))
      else Move(s, h, Dead(Nothing))
    case GetRole(h) =>
      if h !in s.handlers || !s.handlers[h].at.NeedsRole? then s
      else if RolesNamed(s, s.handlers[h].grant.role) == {} then Move(s, h, RoleMissing(s.handlers[h].at.uid))
      else Move(s, h, HasRole(s.handlers[h].at.uid, RoleNamed(s, s.handlers[h].grant.role).id))
    case PostRole(h) =>
      if h !in s.handlers || !s.handlers[h].at.RoleMissing? then s
      else WithRole(Move(s, h, Created(s.handlers[h].at.uid)), s.handlers[h].grant.role)
    case GetRoleAgain(h) =>
      if h !in s.handlers || !s.handlers[h].at.Created? then s
      else if RolesNamed(s, s.handlers[h].grant.role) == {} then Move(s, h, Dead(Nothing))
      else Move(s, h, HasRole(s.handlers[h].at.uid, RoleNamed(s, s.handlers[h].grant.role).id))
    case PostMapping(h) =>
      if h !in s.handlers || !s.handlers[h].at.HasRole? then s
      else
        var at := s.handlers[h].at;
        WithMapping(Move(s, h, Mapped(at.uid, at.rid)), at.uid, at.rid, s.handlers[h].grant)
    case Finish(h) =>
      if h !in s.handlers || !s.handlers[h].at.Mapped? then s
      else
        Move(s, h, Answered(if s.handlers[h].replay then Replayed else Granted))
          .(processed := s.processed + {s.handlers[h].grant.taskId}, completed := s.completed + {s.handlers[h].grant})
    case Fail(h) =>
      if h !in s.handlers then s else Move(s, h, Killed(s.handlers[h].at))
    case Restart =>
      s.(processed := {}, handlers := map h | h in s.handlers :: s.handlers[h].(at := Killed(s.handlers[h].at)))
    case ServeLate(h) =>
      if h !in s.handlers || !s.handlers[h].at.Dead? then s
      else
        var served := Move(s, h, Dead(Nothing));
        (match s.handlers[h].at.late
         case Nothing => s
         case LateRole => WithRole(served, s.handlers[h].grant.role)
         case LateMapping(uid, rid) => WithMapping(served, uid, rid, s.handlers[h].grant))
  }

  ghost function Run(s: State, ops: seq<Op>): State
    decreases |ops|
  {
    if ops == [] then s else Run(Step(s, ops[0]), ops[1..])
  }

  // ----- the invariant -----

  ghost predicate Holds(s: State, user: string, role: string) {
    user in s.users && exists r :: r in s.roles && r.name == role && (s.users[user], r.id) in s.mappings
  }

  ghost predicate RolesOk(s: State) {
    && (forall r :: r in s.roles ==> r.id < s.nextRole)
    && (forall r, q :: r in s.roles && q in s.roles && (r.id == q.id || r.name == q.name) ==> r == q)
  }

  predicate StageOk(s: State, h: Handler) {
    && ((h.at.NeedsRole? || h.at.RoleMissing? || h.at.Created? || h.at.HasRole? || h.at.Mapped?) ==>
          h.grant.user in s.users && h.at.uid == s.users[h.grant.user])
    && ((h.at.HasRole? || h.at.Mapped?) ==> Role(h.at.rid, h.grant.role) in s.roles)
    && (h.at.Dead? && h.at.late.LateMapping? ==>
          h.grant.user in s.users && h.at.late.uid == s.users[h.grant.user]
          && Role(h.at.late.rid, h.grant.role) in s.roles)
    && (h.at.Mapped? ==> h.grant in s.applied)
    && (!h.at.Answered? ==> h.grant in s.accepted)
    && (h.at.Answered? && (h.at.status.Granted? || h.at.status.Replayed?) ==> h.grant in s.completed)
  }

  ghost predicate Inv(s: State) {
    && RolesOk(s)
    && (forall h :: h in s.handlers ==> StageOk(s, s.handlers[h]))
    && s.completed <= s.applied <= s.accepted
    && (forall g :: g in s.applied ==> Holds(s, g.user, g.role))
    && (forall id :: id in s.processed ==> exists g :: g in s.completed && g.taskId == id)
  }

  // A start: user ids are unique, role ids and names too, and nothing happened yet.
  ghost predicate Init(s: State) {
    && RolesOk(s)
    && (forall m :: m in s.mappings ==> exists r :: r in s.roles && r.id == m.1)
    && (forall u, v :: u in s.users && v in s.users && s.users[u] == s.users[v] ==> u == v)
    && s.processed == {} && s.handlers == map[]
    && s.accepted == {} && s.applied == {} && s.completed == {}
  }

  // Nothing that Keycloak has is ever taken away.
  ghost predicate Grows(s: State, t: State) {
    t.users == s.users && s.roles <= t.roles && s.mappings <= t.mappings
  }

  lemma HoldsGrows(s: State, t: State, user: string, role: string)
    requires Grows(s, t) && Holds(s, user, role)
    ensures Holds(t, user, role)
  {
  }

  // Every mapping was there at the start or belongs to an applied grant.
  ghost predicate Exact(s0: State, s: State) {
    && Grows(s0, s)
    && forall m :: m in s.mappings ==> m in s0.mappings || FromApplied(s, m)
  }

  ghost predicate FromApplied(s: State, m: (int, int)) {
    exists g :: g in s.applied && g.user in s.users && s.users[g.user] == m.0 && Role(m.1, g.role) in s.roles
  }

  lemma FromAppliedGrows(s: State, t: State, m: (int, int))
    requires Grows(s, t) && s.applied <= t.applied && FromApplied(s, m)
    ensures FromApplied(t, m)
  {
    var g :| g in s.applied && g.user in s.users && s.users[g.user] == m.0 && Role(m.1, g.role) in s.roles;
    assert g in t.applied;
  }

  // The handlers keep their stage conditions when Keycloak and the bookkeeping only grow.
  lemma OthersStay(s: State, t: State)
    requires Inv(s) && Grows(s, t) && RolesOk(t)
    requires s.accepted <= t.accepted && s.applied <= t.applied && s.completed <= t.completed <= t.applied <= t.accepted
    requires forall g :: g in t.applied - s.applied ==> Holds(t, g.user, g.role)
    requires forall id :: id in t.processed - s.processed ==> exists g :: g in t.completed && g.taskId == id
    requires forall h :: h in t.handlers ==>
      (h in s.handlers && s.handlers[h] == t.handlers[h]) || StageOk(t, t.handlers[h])
    ensures Inv(t)
  {
    forall h | h in t.handlers ensures StageOk(t, t.handlers[h]) {
      if h in s.handlers && s.handlers[h] == t.handlers[h] {
        assert StageOk(s, s.handlers[h]);
      }
    }
    forall g | g in t.applied ensures Holds(t, g.user, g.role) {
      if g in s.applied {
        HoldsGrows(s, t, g.user, g.role);
      }
    }
    forall id | id in t.processed ensures exists g :: g in t.completed && g.taskId == id {
      if id in s.processed {
        var g :| g in s.completed && g.taskId == id;
        assert g in t.completed;
      } else {
        assert id in t.processed - s.processed;
      }
    }
  }

  lemma DeliveryKeeps(s: State, op: Op)
    requires Inv(s) && (op.Webhook? || op.Replay?)
    ensures Inv(Step(s, op)) && Grows(s, Step(s, op)) && s.applied <= Step(s, op).applied
  {
    OthersStay(s, Step(s, op));
  }

  // At most one role is added, under a new name and id.
  lemma WithRoleKeeps(s: State, name: string)
    requires RolesOk(s)
    ensures RolesOk(WithRole(s, name)) && Grows(s, WithRole(s, name))
  {
    assert forall r :: r in s.roles && r.name == name ==> r in RolesNamed(s, name);
  }

  // The steps up to the mapping leave every handler with what it needs to know.
  lemma RoleStepStage(s: State, op: Op)
    requires Inv(s) && (op.FindUser? || op.GetRole? || op.GetRoleAgain? || op.Fail?)
      && op.h in s.handlers
    ensures StageOk(Step(s, op), Step(s, op).handlers[op.h])
  {
    assert StageOk(s, s.handlers[op.h]);
  }

  lemma RoleStepKeeps(s: State, op: Op)
    requires Inv(s) && (op.FindUser? || op.GetRole? || op.GetRoleAgain? || op.Fail?)
    ensures Inv(Step(s, op)) && Grows(s, Step(s, op)) && s.applied <= Step(s, op).applied
  {
    if op.h in s.handlers {
      RoleStepStage(s, op);
    }
    OthersStay(s, Step(s, op));
  }

  // A handler moves to a stage that it has the knowledge for.
  lemma MoveKeeps(s: State, h: int, stage: Stage)
    requires Inv(s) && h in s.handlers && StageOk(s, s.handlers[h].(at := stage))
    ensures Inv(Move(s, h, stage))
  {
    OthersStay(s, Move(s, h, stage));
  }

  lemma AddRoleKeeps(s: State, name: string)
    requires Inv(s)
    ensures Inv(WithRole(s, name)) && Grows(s, WithRole(s, name))
  {
    WithRoleKeeps(s, name);
    OthersStay(s, WithRole(s, name));
  }

  lemma AddMappingKeeps(s: State, h: int, uid: int, rid: int)
    requires Inv(s) && h in s.handlers && s.handlers[h].grant in s.accepted
    requires var g := s.handlers[h].grant; g.user in s.users && uid == s.users[g.user] && Role(rid, g.role) in s.roles
    ensures var t := WithMapping(s, uid, rid, s.handlers[h].grant); Inv(t) && Grows(s, t)
  {
    var t := WithMapping(s, uid, rid, s.handlers[h].grant);
    assert Role(rid, s.handlers[h].grant.role) in t.roles && (uid, rid) in t.mappings;
    assert Holds(t, s.handlers[h].grant.user, s.handlers[h].grant.role);
    OthersStay(s, t);
  }

  lemma PostRoleKeeps(s: State, h: int)
    requires Inv(s)
    ensures Inv(Step(s, PostRole(h))) && Grows(s, Step(s, PostRole(h))) && s.applied <= Step(s, PostRole(h)).applied
  {
    if h in s.handlers && s.handlers[h].at.RoleMissing? {
      var moved := Move(s, h, Created(s.handlers[h].at.uid));
      assert StageOk(s, s.handlers[h]);
      MoveKeeps(s, h, Created(s.handlers[h].at.uid));
      AddRoleKeeps(moved, s.handlers[h].grant.role);
    }
  }

  lemma MappingKeeps(s: State, h: int)
    requires Inv(s)
    ensures Inv(Step(s, PostMapping(h))) && Grows(s, Step(s, PostMapping(h)))
      && s.applied <= Step(s, PostMapping(h)).applied
  {
    if h in s.handlers && s.handlers[h].at.HasRole? {
      var uid, rid := s.handlers[h].at.uid, s.handlers[h].at.rid;
      assert StageOk(s, s.handlers[h]);
      AddMappingKeeps(s, h, uid, rid);
      var mapped := WithMapping(s, uid, rid, s.handlers[h].grant);
      assert StageOk(mapped, mapped.handlers[h].(at := Mapped(uid, rid)));
      MoveKeeps(mapped, h, Mapped(uid, rid));
      assert Step(s, PostMapping(h)) == Move(mapped, h, Mapped(uid, rid));
    }
  }

  // A request of a dead handler does what the same request of a live one would.
  lemma LateKeeps(s: State, h: int)
    requires Inv(s)
    ensures Inv(Step(s, ServeLate(h))) && Grows(s, Step(s, ServeLate(h)))
      && s.applied <= Step(s, ServeLate(h)).applied
  {
    if h in s.handlers && s.handlers[h].at.Dead? && s.handlers[h].at.late != Nothing {
      var late, served := s.handlers[h].at.late, Move(s, h, Dead(Nothing));
      assert StageOk(s, s.handlers[h]);
      MoveKeeps(s, h, Dead(Nothing));
      if late.LateRole? {
        AddRoleKeeps(served, s.handlers[h].grant.role);
      } else {
        AddMappingKeeps(served, h, late.uid, late.rid);
      }
    }
  }

  lemma FinishKeeps(s: State, h: int)
    requires Inv(s)
    ensures Inv(Step(s, Finish(h))) && Grows(s, Step(s, Finish(h))) && s.applied <= Step(s, Finish(h)).applied
  {
    var t := Step(s, Finish(h));
    if h in s.handlers && s.handlers[h].at.Mapped? {
      assert StageOk(s, s.handlers[h]);
      assert s.handlers[h].grant in t.completed;
    }
    OthersStay(s, t);
  }

  lemma RestartKeeps(s: State)
    requires Inv(s)
    ensures Inv(Step(s, Restart))
  {
    var t := Step(s, Restart);
    forall h | h in t.handlers ensures StageOk(t, t.handlers[h]) {
      assert StageOk(s, s.handlers[h]);
    }
    OthersStay(s, t);
  }

  lemma StepKeeps(s: State, op: Op)
    requires Inv(s)
    ensures Inv(Step(s, op)) && Grows(s, Step(s, op)) && s.applied <= Step(s, op).applied
  {
    match op
    case Webhook(_, _, _) => DeliveryKeeps(s, op);
    case Replay(_, _, _) => DeliveryKeeps(s, op);
    case PostRole(h) => PostRoleKeeps(s, h);
    case PostMapping(h) => MappingKeeps(s, h);
    case ServeLate(h) => LateKeeps(s, h);
    case Finish(h) => FinishKeeps(s, h);
    case Restart => RestartKeeps(s);
    case _ => RoleStepKeeps(s, op);
  }

  // A mapping that a step adds is that of its handler's grant.
  lemma NewMapping(s: State, op: Op, m: (int, int))
    requires Inv(s) && m in Step(s, op).mappings && m !in s.mappings
    ensures !op.Restart? && op.h in s.handlers && s.handlers[op.h].grant in Step(s, op).applied
    ensures FromApplied(s.(applied := s.applied + {s.handlers[op.h].grant}), m)
  {
    var handler := s.handlers[op.h];
    assert StageOk(s, handler);
    assert m == if op.PostMapping? then (handler.at.uid, handler.at.rid)
                else (handler.at.late.uid, handler.at.late.rid);
    assert Role(m.1, handler.grant.role) in s.roles;
  }

  lemma StepExact(s0: State, s: State, op: Op)
    requires Inv(s) && Exact(s0, s)
    ensures Exact(s0, Step(s, op))
  {
    StepKeeps(s, op);
    var t := Step(s, op);
    forall m | m in t.mappings ensures m in s0.mappings || FromApplied(t, m) {
      if m in s.mappings {
        if FromApplied(s, m) {
          FromAppliedGrows(s, t, m);
        }
      } else {
        NewMapping(s, op, m);
        FromAppliedGrows(s.(applied := s.applied + {s.handlers[op.h].grant}), t, m);
      }
    }
  }

  lemma {:induction false} RunKeeps(s0: State, s: State, ops: seq<Op>)
    requires Inv(s) && Exact(s0, s)
    ensures Inv(Run(s, ops)) && Exact(s0, Run(s, ops)) && Grows(s, Run(s, ops))
    decreases |ops|
  {
    if ops != [] {
      StepKeeps(s, ops[0]);
      StepExact(s0, s, ops[0]);
      RunKeeps(s0, Step(s, ops[0]), ops[1..]);
    }
  }

  // ----- main results -----

  /** Through duplicated, concurrent and replayed deliveries, failures and restarts: a task
      id counts as processed only when a grant of that id is in Keycloak. */
  lemma ProcessedIsGranted(s: State, ops: seq<Op>, id: string)
    requires Init(s) && id in Run(s, ops).processed
    ensures exists g :: g in Run(s, ops).accepted && g.taskId == id && Holds(Run(s, ops), g.user, g.role)
  {
    RunKeeps(s, s, ops);
    var g :| g in Run(s, ops).completed && g.taskId == id;
  }

  /** What users hold is what they held at the start and what was applied, nothing else;
      everything applied comes from an accepted event and includes every completed grant. */
  lemma GrantsAreExactlyTheApplied(s: State, ops: seq<Op>, user: string, role: string)
    requires Init(s)
    ensures var t := Run(s, ops);
      && (Holds(t, user, role) <==>
            Holds(s, user, role) || exists g :: g in t.applied && g.user == user && g.role == role)
      && t.completed <= t.applied <= t.accepted
  {
    RunKeeps(s, s, ops);
    var t := Run(s, ops);
    if Holds(t, user, role) {
      var r :| r in t.roles && r.name == role && (t.users[user], r.id) in t.mappings;
      var m := (t.users[user], r.id);
      if m in s.mappings {
        var q :| q in s.roles && q.id == m.1;
        assert q in t.roles && q == r;
      } else {
        var g :| g in t.applied && g.user in t.users && t.users[g.user] == m.0 && Role(m.1, g.role) in t.roles;
        assert Role(m.1, g.role) == r;
      }
    } else if Holds(s, user, role) {
      HoldsGrows(s, t, user, role);
    }
  }

  // The handler got its role, and may have mapped it already.
  predicate HasRoleNow(s: State, h: int) {
    h in s.handlers && (s.handlers[h].at.HasRole? || s.handlers[h].at.Mapped?)
  }

  // Two handlers got a role of one name.
  predicate SameRole(s: State, h: int, k: int) {
    HasRoleNow(s, h) && HasRoleNow(s, k) && s.handlers[h].grant.role == s.handlers[k].grant.role
  }

  /** Concurrent GET/POST/GET runs never leave two roles of one name, and all handlers that
      got a role of some name got the same one, those that mapped it included. */
  lemma OneRolePerName(s: State, ops: seq<Op>)
    requires Init(s)
    ensures var t := Run(s, ops);
      && (forall r, q :: r in t.roles && q in t.roles && r.name == q.name ==> r == q)
      && (forall h, k :: SameRole(t, h, k) ==> t.handlers[h].at.rid == t.handlers[k].at.rid)
  {
    RunKeeps(s, s, ops);
    var t := Run(s, ops);
    forall h, k | SameRole(t, h, k)
      ensures t.handlers[h].at.rid == t.handlers[k].at.rid
    {
      assert StageOk(t, t.handlers[h]) && StageOk(t, t.handlers[k]);
    }
  }

  // Two accepted events with one task id ask for the same.
  ghost predicate IdsName(grants: set<Grant>) {
    forall g, k :: g in grants && k in grants && g.taskId == k.taskId ==> g == k
  }

  // Handlers answered as duplicate carry a grant that some handler completed.
  ghost predicate DuplicatesOk(s: State) {
    forall h :: h in s.handlers && s.handlers[h].at == Answered(Duplicate) ==>
      exists g :: g in s.completed && g.taskId == s.handlers[h].grant.taskId
  }

  lemma DuplicateStays(s: State, op: Op, h: int)
    requires Inv(s) && DuplicatesOk(s)
    requires h in Step(s, op).handlers && Step(s, op).handlers[h].at == Answered(Duplicate)
    ensures exists g :: g in s.completed && g.taskId == Step(s, op).handlers[h].grant.taskId
  {
    assert h in s.handlers ==> Step(s, op).handlers[h] == s.handlers[h];
  }

  lemma DuplicatesStay(s: State, op: Op)
    requires Inv(s) && DuplicatesOk(s)
    ensures DuplicatesOk(Step(s, op))
  {
    var t := Step(s, op);
    forall h | h in t.handlers && t.handlers[h].at == Answered(Duplicate)
      ensures exists g :: g in t.completed && g.taskId == t.handlers[h].grant.taskId
    {
      DuplicateStays(s, op, h);
      var g :| g in s.completed && g.taskId == t.handlers[h].grant.taskId;
      assert g in t.completed;
    }
  }

  lemma {:induction false} DuplicatesRun(s: State, ops: seq<Op>)
    requires Inv(s) && DuplicatesOk(s)
    ensures DuplicatesOk(Run(s, ops))
    decreases |ops|
  {
    if ops != [] {
      StepKeeps(s, ops[0]);
      DuplicatesStay(s, ops[0]);
      DuplicatesRun(Step(s, ops[0]), ops[1..]);
    }
  }

  /** Convergence: when a task id always names one grant, every delivery that was answered
      with success, as granted, as replayed or as a duplicate, has its grant in Keycloak,
      for good: whatever happens afterwards, restarts included. */
  lemma AnsweredMeansGranted(s: State, ops: seq<Op>, later: seq<Op>, h: int)
    requires Init(s)
    requires var t := Run(s, ops);
      h in t.handlers && t.handlers[h].at.Answered? && !t.handlers[h].at.status.Rejected? &&
      IdsName(t.accepted + {t.handlers[h].grant})
    ensures var g := Run(s, ops).handlers[h].grant; Holds(Run(Run(s, ops), later), g.user, g.role)
  {
    RunKeeps(s, s, ops);
    DuplicatesRun(s, ops);
    var t := Run(s, ops);
    var g := t.handlers[h].grant;
    assert StageOk(t, t.handlers[h]);
    if t.handlers[h].at == Answered(Duplicate) {
      var k :| k in t.completed && k.taskId == g.taskId;
      assert k == g;
    }
    assert Holds(t, g.user, g.role);
    RunKeeps(s, t, later);
    HoldsGrows(t, Run(t, later), g.user, g.role);
  }

  // An event under a processed id is answered as a duplicate, whatever it asks for: it
  // changes nothing in Keycloak, and its grant is held exactly if it was held before.
  lemma ReusedIdIsNotGranted(s: State, h: int, event: Event)
    requires h !in s.handlers && ParseGrant(event).Ok? && ParseGrant(event).grant.taskId in s.processed
    ensures var t := Step(s, Webhook(h, true, event)); var g := ParseGrant(event).grant;
      && t.handlers[h].at == Answered(Duplicate)
      && t.mappings == s.mappings && t.roles == s.roles && t.applied == s.applied
      && (Holds(t, g.user, g.role) <==> Holds(s, g.user, g.role))
  {
    var t := Step(s, Webhook(h, true, event));
    assert Grows(s, t) && Grows(t, s);
  }

  /** What a duplicate answer is worth, over whole runs: its user has the role it asked for
      exactly when that was so at the start or some applied grant, under whatever id, gave it. */
  lemma DuplicateIsGrantedIff(s: State, ops: seq<Op>, h: int, event: Event)
    requires Init(s) && h !in Run(s, ops).handlers
    requires ParseGrant(event).Ok? && ParseGrant(event).grant.taskId in Run(s, ops).processed
    ensures var t := Run(s, ops); var g := ParseGrant(event).grant;
      Holds(Step(t, Webhook(h, true, event)), g.user, g.role)
      <==> (Holds(s, g.user, g.role) || exists k :: k in t.applied && k.user == g.user && k.role == g.role)
  {
    var g := ParseGrant(event).grant;
    GrantsAreExactlyTheApplied(s, ops, g.user, g.role);
    ReusedIdIsNotGranted(Run(s, ops), h, event);
  }

  // Every refused replay forgets its path, whatever the reason, and changes nothing in
  // Keycloak. So the next signed delivery of that id is let in once more, while before the
  // replay it was answered as a duplicate exactly when the id was processed.
  lemma RefusedReplayForgets(s: State, h: int, path: string, event: Event, k: int, retry: Event)
    requires h !in s.handlers && k !in s.handlers && h != k
    requires ParseReplay(path, event).Refused?
    requires ParseGrant(retry).Ok? && ParseGrant(retry).grant.taskId == path
    ensures var t := Step(s, Replay(h, path, event));
      && t.handlers[h].at == Answered(Rejected)
      && t.processed == s.processed - {path} && t.mappings == s.mappings && t.roles == s.roles
      && Step(t, Webhook(k, true, retry)).handlers[k].at == NeedsUser
    ensures Step(s, Webhook(k, true, retry)).handlers[k].at == Answered(Duplicate) <==> path in s.processed
  {
    var t := Step(s, Replay(h, path, event));
    assert path !in t.processed;
  }

  // ----- which ids count as processed -----

  ghost predicate Finishes(s: State, op: Op, id: string) {
    op.Finish? && op.h in s.handlers && s.handlers[op.h].at.Mapped? && s.handlers[op.h].grant.taskId == id
  }

  ghost predicate Forgets(s: State, op: Op, id: string) {
    op.Restart? || (op.Replay? && op.path == id && op.h !in s.handlers)
  }

  lemma ProcessedStep(s: State, op: Op, id: string)
    ensures id in Step(s, op).processed <==> Finishes(s, op, id) || (id in s.processed && !Forgets(s, op, id))
  {
  }

  // Step `k` of a run finished the grant of that id, and no later one forgot it.
  ghost predicate FinishedLast(s: State, ops: seq<Op>, k: nat, id: string)
    requires k < |ops|
  {
    Finishes(Run(s, ops[..k]), ops[k], id)
    && forall j :: k < j < |ops| ==> !Forgets(Run(s, ops[..j]), ops[j], id)
  }

  lemma {:induction false} RunSnoc(s: State, ops: seq<Op>)
    requires ops != []
    ensures Run(s, ops) == Step(Run(s, ops[..|ops| - 1]), ops[|ops| - 1])
    decreases |ops|
  {
    if |ops| > 1 {
      RunSnoc(Step(s, ops[0]), ops[1..]);
      assert ops[..|ops| - 1][1..] == ops[1..][..|ops| - 2];
    }
  }

  lemma FinishedEarlier(s: State, ops: seq<Op>, k: nat, id: string)
    requires k < |ops| - 1
    ensures var init := ops[..|ops| - 1];
      FinishedLast(s, ops, k, id) <==> FinishedLast(s, init, k, id) && !Forgets(Run(s, init), ops[|ops| - 1], id)
  {
    var init := ops[..|ops| - 1];
    assert ops[..k] == init[..k] && ops[k] == init[k];
    forall j | k < j < |init| ensures ops[..j] == init[..j] && ops[j] == init[j] {
    }
  }

  lemma {:induction false} ProcessedSince(s: State, ops: seq<Op>, id: string)
    requires s.processed == {}
    ensures id in Run(s, ops).processed <==> exists k: nat :: k < |ops| && FinishedLast(s, ops, k, id)
    decreases |ops|
  {
    if ops != [] {
      var n := |ops| - 1;
      RunSnoc(s, ops);
      ProcessedSince(s, ops[..n], id);
      ProcessedStep(Run(s, ops[..n]), ops[n], id);
      forall k: nat | k < n
        ensures FinishedLast(s, ops, k, id) <==>
          FinishedLast(s, ops[..n], k, id) && !Forgets(Run(s, ops[..n]), ops[n], id)
      {
        FinishedEarlier(s, ops, k, id);
      }
      assert FinishedLast(s, ops, n, id) <==> Finishes(Run(s, ops[..n]), ops[n], id);
    }
  }

  /** Over whole runs: a signed delivery is let in, or answered as a duplicate, and the latter
      exactly when a grant of its id was finished since the last restart and the last replay
      of that id, refused ones included. */
  lemma DuplicateAnswerIff(s: State, ops: seq<Op>, h: int, event: Event)
    requires Init(s) && h !in Run(s, ops).handlers && ParseGrant(event).Ok?
    ensures var answer := Step(Run(s, ops), Webhook(h, true, event)).handlers[h].at;
      var id := ParseGrant(event).grant.taskId;
      && (answer == Answered(Duplicate) <==> exists k: nat :: k < |ops| && FinishedLast(s, ops, k, id))
      && (answer != Answered(Duplicate) ==> answer == NeedsUser)
  {
    ProcessedSince(s, ops, ParseGrant(event).grant.taskId);
  }

  // ----- when all handlers are through -----

  // The delivery was let in, and is not over.
  predicate LetIn(h: Handler) {
    h.at.Answered? ==> h.at.status.Granted? || h.at.status.Replayed?
  }

  // Every accepted grant has a handler.
  ghost predicate AcceptedHaveHandlers(s: State) {
    forall g :: g in s.accepted ==> exists h :: h in s.handlers && s.handlers[h].grant == g && LetIn(s.handlers[h])
  }

  lemma HandlersStay(s: State, op: Op, h: int)
    requires h in s.handlers && LetIn(s.handlers[h])
    ensures var t := Step(s, op); h in t.handlers && t.handlers[h].grant == s.handlers[h].grant && LetIn(t.handlers[h])
  {
  }

  lemma AcceptedStay(s: State, op: Op)
    requires AcceptedHaveHandlers(s)
    ensures AcceptedHaveHandlers(Step(s, op))
  {
    var t := Step(s, op);
    forall g | g in t.accepted ensures exists h :: h in t.handlers && t.handlers[h].grant == g && LetIn(t.handlers[h]) {
      if g in s.accepted {
        var h :| h in s.handlers && s.handlers[h].grant == g && LetIn(s.handlers[h]);
        HandlersStay(s, op, h);
      } else {
        assert op.h in t.handlers && t.handlers[op.h].grant == g;
      }
    }
  }

  lemma {:induction false} AcceptedRun(s: State, ops: seq<Op>)
    requires AcceptedHaveHandlers(s)
    ensures AcceptedHaveHandlers(Run(s, ops))
    decreases |ops|
  {
    if ops != [] {
      AcceptedStay(s, ops[0]);
      AcceptedRun(Step(s, ops[0]), ops[1..]);
    }
  }

  /** When every handler has its answer, none having failed or been killed: accepted, applied
      and completed are one set, and users hold what they held at the start and these grants. */
  lemma AllAnsweredMeansAllGranted(s: State, ops: seq<Op>, user: string, role: string)
    requires Init(s)
    requires forall h :: h in Run(s, ops).handlers ==> Run(s, ops).handlers[h].at.Answered?
    ensures var t := Run(s, ops);
      && t.completed == t.applied == t.accepted
      && (Holds(t, user, role) <==>
            Holds(s, user, role) || exists g :: g in t.completed && g.user == user && g.role == role)
  {
    var t := Run(s, ops);
    GrantsAreExactlyTheApplied(s, ops, user, role);
    RunKeeps(s, s, ops);
    AcceptedRun(s, ops);
    forall g | g in t.accepted ensures g in t.completed {
      var h :| h in t.handlers && t.handlers[h].grant == g && LetIn(t.handlers[h]);
      assert StageOk(t, t.handlers[h]);
    }
  }
}
