/** The handlers of the access bridge as programs: what one of them does, undisturbed, is
    the run of its steps. */
module Bridge {
  import opened Common
  import opened GrantParser
  import opened Grants

  lemma RunCons(s: State, op: Op, ops: seq<Op>)
    ensures Run(s, [op] + ops) == Run(Step(s, op), ops)
  {
    assert ([op] + ops)[1..] == ops;
  }

  // The requests of one handler after it was let in.
  function Requests(h: int): seq<Op> {
    [FindUser(h)] + ([GetRole(h)] + ([PostRole(h)] + ([GetRoleAgain(h)] + ([PostMapping(h)] + ([Finish(h)] + [])))))
  }

  ghost function RoleSteps(s: State, h: int): State {
    Step(Step(Step(s, GetRole(h)), PostRole(h)), GetRoleAgain(h))
  }

  lemma RunOfRequests(s: State, h: int)
    ensures Run(s, Requests(h)) == Step(Step(RoleSteps(Step(s, FindUser(h)), h), PostMapping(h)), Finish(h))
  {
    var found := Step(s, FindUser(h));
    RunCons(s, FindUser(h), [GetRole(h)]
      + ([PostRole(h)] + ([GetRoleAgain(h)] + ([PostMapping(h)] + ([Finish(h)] + [])))));
    RunCons(found, GetRole(h), [PostRole(h)] + ([GetRoleAgain(h)] + ([PostMapping(h)] + ([Finish(h)] + []))));
    var got := Step(found, GetRole(h));
    RunCons(got, PostRole(h), [GetRoleAgain(h)] + ([PostMapping(h)] + ([Finish(h)] + [])));
    var posted := Step(got, PostRole(h));
    RunCons(posted, GetRoleAgain(h), [PostMapping(h)] + ([Finish(h)] + []));
    var again := Step(posted, GetRoleAgain(h));
    RunCons(again, PostMapping(h), [Finish(h)] + []);
    RunCons(Step(again, PostMapping(h)), Finish(h), []);
  }

  // A handler that has its answer, or is dead, makes no more requests.
  lemma NoMoreRequests(s: State, h: int)
    requires h in s.handlers && (s.handlers[h].at.Answered? || s.handlers[h].at.Dead?)
    ensures Run(s, Requests(h)) == s
  {
    RunOfRequests(s, h);
  }

  // The role is there.
  lemma RoleFound(s: State, h: int, role: Role)
    requires RolesOk(s) && h in s.handlers && s.handlers[h].at.NeedsRole?
    requires role in s.roles && role.name == s.handlers[h].grant.role
    ensures RoleSteps(s, h) == Move(s, h, HasRole(s.handlers[h].at.uid, role.id))
  {
    assert role in RolesNamed(s, s.handlers[h].grant.role);
    assert RoleNamed(s, s.handlers[h].grant.role) == role;
  }

  // The role has to be made.
  lemma RoleMade(s: State, h: int)
    requires RolesOk(s) && h in s.handlers && s.handlers[h].at.NeedsRole?
    requires RolesNamed(s, s.handlers[h].grant.role) == {}
    ensures var role := Role(s.nextRole, s.handlers[h].grant.role);
      RoleSteps(s, h) == Move(s, h, HasRole(s.handlers[h].at.uid, role.id)).
        (roles := s.roles + {role}, nextRole := s.nextRole + 1)
    ensures RolesOk(RoleSteps(s, h))
  {
    var name, uid := s.handlers[h].grant.role, s.handlers[h].at.uid;
    var got := Step(s, GetRole(h));
    var posted := Step(got, PostRole(h));
    var role := Role(s.nextRole, name);
    assert got == Move(s, h, RoleMissing(uid));
    assert RolesNamed(got, name) == {};
    WithRoleKeeps(Move(got, h, Created(uid)), name);
    assert posted == Move(got, h, Created(uid)).(roles := s.roles + {role}, nextRole := s.nextRole + 1);
    assert role in RolesNamed(posted, name);
    assert RoleNamed(posted, name) == role;
  }

  // An unknown user ends the handler at once.
  lemma UnknownUser(s: State, h: int)
    requires h in s.handlers && s.handlers[h].at == NeedsUser && s.handlers[h].grant.user !in s.users
    ensures Step(RoleSteps(Step(s, FindUser(h)), h), PostMapping(h)) == Move(s, h, Dead(Nothing))
    ensures Run(s, Requests(h)) == Move(s, h, Dead(Nothing))
  {
    var dead := Move(s, h, Dead(Nothing));
    assert Step(s, FindUser(h)) == dead;
    assert RoleSteps(dead, h) == dead && Step(dead, PostMapping(h)) == dead && Step(dead, Finish(h)) == dead;
    RunOfRequests(s, h);
  }

  lemma KnownUser(s: State, h: int)
    requires h in s.handlers && s.handlers[h].at == NeedsUser && s.handlers[h].grant.user in s.users
    ensures Step(s, FindUser(h)) == Move(s, h, NeedsRole(s.users[s.handlers[h].grant.user]))
  {
  }

  lemma MappedHolds(s: State, user: string, role: Role)
    requires user in s.users && role in s.roles && (s.users[user], role.id) in s.mappings
    ensures Holds(s, user, role.name)
  {
  }

  class AccessBridge {
    var users: map<string, int>
    var roles: set<Role>
    var nextRole: int
    var mappings: set<(int, int)>
    var processed: set<string>
    ghost var handlers: map<int, Handler>
    ghost var accepted: set<Grant>
    ghost var applied: set<Grant>
    ghost var completed: set<Grant>

    ghost function View(): State
      reads this
    {
      State(users, roles, nextRole, mappings, processed, handlers, accepted, applied, completed)
    }

    /** GET, on 404 POST and GET again. */
    method EnsureRole(ghost h: int, name: string) returns (role: Role)
      requires RolesOk(View()) && h in handlers && handlers[h].at.NeedsRole? && handlers[h].grant.role == name
      modifies this`roles, this`nextRole, this`handlers
      ensures RolesOk(View()) && View() == RoleSteps(old(View()), h)
      ensures role in roles && role.name == name && h in handlers
      ensures handlers[h] == old(handlers)[h].(at := HasRole(old(handlers)[h].at.uid, role.id))
    {
      ghost var s, uid := View(), handlers[h].at.uid;
      var named := set r | r in roles && r.name == name;
      assert named == RolesNamed(s, name);
      if named != {} {
        role := AnyOf(named);
        RoleFound(s, h, role);
      } else {
        RoleMade(s, h);
        role := Role(nextRole, name);
        roles, nextRole := roles + {role}, nextRole + 1;
      }
      handlers := handlers[h := handlers[h].(at := HasRole(uid, role.id))];
    }

    /** Find the user, ensure the role, map the one to the other. */
    method GrantRole(ghost h: int, user: string, name: string) returns (ok: bool)
      requires RolesOk(View()) && h in handlers && handlers[h].at == NeedsUser
      requires handlers[h].grant.user == user && handlers[h].grant.role == name
      modifies this`roles, this`nextRole, this`mappings, this`handlers, this`applied
      ensures View() == Step(RoleSteps(Step(old(View()), FindUser(h)), h), PostMapping(h))
      ensures ok <==> user in users
      ensures ok ==> Holds(View(), user, name)
      ensures h in handlers && handlers[h].grant == old(handlers)[h].grant
        && handlers[h].replay == old(handlers)[h].replay
      ensures if ok then handlers[h].at.Mapped? else handlers[h].at == Dead(Nothing)
      ensures !ok ==> roles == old(roles) && mappings == old(mappings)
    {
      ghost var s := View();
      if user !in users {
        UnknownUser(s, h);
        handlers := handlers[h := handlers[h].(at := Dead(Nothing))];
        return false;
      }
      KnownUser(s, h);
      handlers := handlers[h := handlers[h].(at := NeedsRole(users[user]))];
      var role := GrantKnown(h, users[user], name);
      MappedHolds(View(), user, role);
      ok := true;
    }

    // The same for a user that was found.
    method GrantKnown(ghost h: int, uid: int, name: string) returns (role: Role)
      requires RolesOk(View()) && h in handlers && handlers[h].at == NeedsRole(uid)
      requires handlers[h].grant.role == name
      modifies this`roles, this`nextRole, this`mappings, this`handlers, this`applied
      ensures View() == Step(RoleSteps(old(View()), h), PostMapping(h))
      ensures role in roles && role.name == name && (uid, role.id) in mappings
      ensures h in handlers && handlers[h] == old(handlers)[h].(at := Mapped(uid, role.id))
    {
      role := EnsureRole(h, name);
      MapRole(h, uid, role);
    }

    method MapRole(ghost h: int, uid: int, role: Role)
      requires h in handlers && handlers[h].at == HasRole(uid, role.id)
      modifies this`mappings, this`handlers, this`applied
      ensures View() == Step(old(View()), PostMapping(h))
      ensures mappings == old(mappings) + {(uid, role.id)}
      ensures h in handlers && handlers[h] == old(handlers)[h].(at := Mapped(uid, role.id))
    {
      mappings := mappings + {(uid, role.id)};
      applied := applied + {handlers[h].grant};
      handlers := handlers[h := handlers[h].(at := Mapped(uid, role.id))];
    }

    // The id is remembered when the mapping is there.
    method Remember(ghost h: int, taskId: string, replay: bool)
      requires h in handlers && handlers[h].at.Mapped? && handlers[h].grant.taskId == taskId
        && handlers[h].replay == replay
      modifies this`processed, this`handlers, this`completed
      ensures View() == Step(old(View()), Finish(h))
      ensures processed == old(processed) + {taskId}
    {
      processed := processed + {taskId};
      completed := completed + {handlers[h].grant};
      handlers := handlers[h := handlers[h].(at := Answered(if replay then Replayed else Granted))];
    }

    /** The webhook: signature, parsing, de-duplication, grant, and only then remembering the
        id. What it does is the run of all its steps. */
    method WebhookOm(ghost h: int, signed: bool, event: Event) returns (status: Option<Status>)
      requires RolesOk(View()) && h !in handlers
      modifies this
      ensures View() == Run(old(View()), [Webhook(h, signed, event)] + Requests(h))
      ensures status == Some(Granted) <==>
        signed && ParseGrant(event).Ok? && ParseGrant(event).grant.taskId !in old(processed)
          && ParseGrant(event).grant.user in users
      ensures status == Some(Granted) ==>
        var grant := ParseGrant(event).grant;
        Holds(View(), grant.user, grant.role) && processed == old(processed) + {grant.taskId}
      ensures status != Some(Granted) ==>
        roles == old(roles) && mappings == old(mappings) && processed == old(processed)
    {
      ghost var s := View();
      RunCons(s, Webhook(h, signed, event), Requests(h));
      ghost var delivered := Step(s, Webhook(h, signed, event));
      if !signed || ParseGrant(event).Refused? {
        handlers := handlers[h := Handler(NO_GRANT, false, Answered(Rejected))];
        NoMoreRequests(delivered, h);
        return Some(Rejected);
      }
      var grant := ParseGrant(event).grant;
      if grant.taskId in processed {
        handlers := handlers[h := Handler(grant, false, Answered(Duplicate))];
        NoMoreRequests(delivered, h);
        return Some(Duplicate);
      }
      status := Process(h, grant, false);
    }

    // Grant and remember; None stands for the error of an unknown user.
    method Process(ghost h: int, grant: Grant, replay: bool) returns (status: Option<Status>)
      requires RolesOk(View()) && h !in handlers
      modifies this
      ensures View() == Run(Accept(old(View()), h, grant, replay), Requests(h))
      ensures status == (if grant.user in users then Some(if replay then Replayed else Granted) else None)
      ensures status.Some? ==> Holds(View(), grant.user, grant.role) && processed == old(processed) + {grant.taskId}
      ensures status.None? ==> roles == old(roles) && mappings == old(mappings) && processed == old(processed)
      ensures users == old(users)
    {
      ghost var s := Accept(View(), h, grant, replay);
      handlers := handlers[h := Handler(grant, replay, NeedsUser)];
      accepted := accepted + {grant};
      assert View() == s;
      var ok := GrantRole(h, grant.user, grant.role);
      if !ok {
        UnknownUser(s, h);
        return None;
      }
      RunOfRequests(s, h);
      Remember(h, grant.taskId, replay);
      status := Some(if replay then Replayed else Granted);
    }

    /** The replay: it forgets the id first, whatever comes of it. */
    method ReplayTask(ghost h: int, path: string, event: Event) returns (status: Option<Status>)
      requires RolesOk(View()) && h !in handlers
      modifies this
      ensures View() == Run(old(View()), [Replay(h, path, event)] + Requests(h))
      ensures status == Some(Replayed) <==> ParseReplay(path, event).Ok? && ParseReplay(path, event).grant.user in users
      ensures status == Some(Replayed) ==>
        var grant := ParseReplay(path, event).grant;
        Holds(View(), grant.user, grant.role) && processed == old(processed) - {path} + {grant.taskId}
      ensures status != Some(Replayed) ==> mappings == old(mappings) && processed == old(processed) - {path}
    {
      RunCons(View(), Replay(h, path, event), Requests(h));
      ghost var delivered := Step(View(), Replay(h, path, event));
      processed := processed - {path};
      match ParseReplay(path, event)
      case Refused(_) =>
        handlers := handlers[h := Handler(NO_GRANT, false, Answered(Rejected))];
        NoMoreRequests(delivered, h);
        status := Some(Rejected);
      case Ok(grant) =>
        status := Process(h, grant, true);
    }
  }
}
