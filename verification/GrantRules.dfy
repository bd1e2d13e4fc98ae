/** What the parser of the access bridge lets through, said without its steps: which events
    are granted, to whom, for which asset and under which id. */
module GrantRules {
  import opened Common
  import opened Text
  import opened GrantParser
  import opened Phrases

  // ----- what the asset reference names -----

  // A reference wrapped in the entity token, whatever the kind of entity.
  ghost predicate Wraps(about: string, kind: string, name: string) {
    && kind != "" && ':' !in kind && name != "" && '\n' !in name
    && (about == "<#E::" + (kind + ("::" + (name + ">"))) || about == "<#E::" + (kind + ("::" + (name + ">\n"))))
  }

  lemma {:induction false} ColonIs(kind: string, rest: string)
    requires ':' !in kind && rest != "" && rest[0] == ':'
    ensures Colon(kind + rest) == |kind|
  {
    if kind == "" {
      assert kind + rest == rest;
    } else {
      assert (kind + rest)[1..] == kind[1..] + rest;
      ColonIs(kind[1..], rest);
    }
  }

  lemma NameInIff(tail: string, name: string)
    ensures NameIn(tail) == Some(name) <==>
      name != "" && '\n' !in name && (tail == name + ">" || tail == name + ">\n")
  {
    if name != "" && '\n' !in name {
      if tail == name + ">" {
        assert tail[..|tail| - 1] == name;
      } else if tail == name + ">\n" {
        assert tail[..|tail| - 1] == name + ">" && (name + ">")[..|name|] == name;
      }
    }
    if NameIn(tail) == Some(name) {
      assert tail == name + ">" || tail == name + ">\n";
    }
  }

  lemma BehindKind(kind: string, tail: string)
    requires ':' !in kind
    ensures var rest := kind + ("::" + tail);
      Colon(rest) == |kind| && StartsWith(rest[|kind|..], "::") && rest[|kind| + 2..] == tail
  {
    ColonIs(kind, "::" + tail);
    var rest := kind + ("::" + tail);
    assert rest[|kind|..] == "::" + tail;
    assert ("::" + tail)[..2] == "::";
  }

  lemma BehindToken(rest: string)
    ensures StartsWith("<#E::" + rest, "<#E::") && ("<#E::" + rest)[5..] == rest
  {
    assert ("<#E::" + rest)[..5] == "<#E::";
  }

  lemma UnwrapParts(kind: string, tail: string)
    requires kind != "" && ':' !in kind
    ensures Unwrap("<#E::" + (kind + ("::" + tail))) == NameIn(tail)
  {
    BehindToken(kind + ("::" + tail));
    BehindKind(kind, tail);
  }

  lemma TwoColons(s: string, k: nat)
    requires k <= |s| && StartsWith(s[k..], "::")
    ensures s == s[..k] + ("::" + s[k + 2..])
  {
    assert s == s[..k] + s[k..] && s[k..] == s[k..][..2] + s[k..][2..] && s[k..][2..] == s[k + 2..];
  }

  lemma UnwrapNeedsParts(about: string) returns (kind: string, tail: string)
    requires Unwrap(about).Some?
    ensures kind != "" && ':' !in kind && about == "<#E::" + (kind + ("::" + tail))
  {
    var rest := about[5..];
    var k := Colon(rest);
    kind, tail := rest[..k], rest[k + 2..];
    TwoColons(rest, k);
    assert about == about[..5] + rest;
  }

  lemma UnwrapIff(about: string, name: string)
    ensures Unwrap(about) == Some(name) <==> exists kind :: Wraps(about, kind, name)
  {
    if Unwrap(about) == Some(name) {
      var kind, tail := UnwrapNeedsParts(about);
      UnwrapParts(kind, tail);
      NameInIff(tail, name);
      assert Wraps(about, kind, name);
    }
    if kind :| Wraps(about, kind, name) {
      var tail := if about == "<#E::" + (kind + ("::" + (name + ">"))) then name + ">" else name + ">\n";
      UnwrapParts(kind, tail);
      NameInIff(tail, name);
    }
  }

  // `name` is what the reference stands for: the wrapped name, or itself if it wraps none.
  ghost predicate RefersTo(about: string, name: string) {
    (exists kind :: Wraps(about, kind, name)) || (name == about && forall kind, inner :: !Wraps(about, kind, inner))
  }

  // The name starts with a service, a catalog and a schema; more may follow after a dot.
  ghost predicate StartsWithSchema(name: string, service: string, catalog: string, schema: string) {
    && '.' !in service && '.' !in catalog && '.' !in schema
    && (name == service + "." + (catalog + "." + schema)
        || exists rest :: name == service + "." + (catalog + "." + (schema + "." + rest)))
  }

  lemma OnePartMore(a: string, rest: string)
    requires '.' !in a
    ensures Split(a + "." + rest, '.') == [a] + Split(rest, '.')
  {
    SplitConcat(a, rest, '.');
    assert a + ['.'] + rest == a + "." + rest;
    SplitHead(a, "", '.');
    assert a + "" == a;
  }

  lemma SchemaParts(name: string, service: string, catalog: string, schema: string)
    requires StartsWithSchema(name, service, catalog, schema)
    ensures var parts := Split(name, '.');
      |parts| >= 3 && parts[0] == service && parts[1] == catalog && parts[2] == schema
  {
    var last := schema;
    if name != service + "." + (catalog + "." + schema) {
      var rest :| name == service + "." + (catalog + "." + (schema + "." + rest));
      last := schema + "." + rest;
      OnePartMore(schema, rest);
    } else {
      SplitHead(schema, "", '.');
      assert schema + "" == schema;
    }
    OnePartMore(service, catalog + "." + last);
    OnePartMore(catalog, last);
  }

  lemma JoinFirst(parts: seq<string>)
    requires |parts| > 1
    ensures Join(parts, '.') == parts[0] + "." + Join(parts[1..], '.')
  {
  }

  lemma PartsAreASchema(name: string)
    requires |Split(name, '.')| >= 3
    ensures var parts := Split(name, '.'); StartsWithSchema(name, parts[0], parts[1], parts[2])
  {
    var parts := Split(name, '.');
    JoinSplit(name, '.');
    SplitIsFree(name, '.');
    assert parts[0] in parts && parts[1] in parts && parts[2] in parts;
    var rest := parts[2..];
    assert parts[1..][1..] == rest && rest[0] == parts[2];
    JoinFirst(parts);
    JoinFirst(parts[1..]);
    if |rest| > 1 {
      JoinFirst(rest);
    } else {
      assert Join(rest, '.') == parts[2];
    }
  }

  // The role of the asset that a reference names.
  ghost predicate NamesRole(about: string, role: string) {
    exists name, service, catalog, schema ::
      IsRole(about, role, name, service, catalog, schema)
  }

  ghost predicate IsRole(about: string, role: string, name: string, service: string, catalog: string, schema: string) {
    && RefersTo(about, name) && StartsWithSchema(name, service, catalog, schema)
    && (service == "trino" || service == "uwv-trino")
    && role == "data_access:" + catalog + "." + schema
  }

  // There is always one name a reference stands for.
  function NameOf(about: string): string {
    match Unwrap(about) case Some(inner) => inner case None => about
  }

  lemma RefersIff(about: string, name: string)
    ensures RefersTo(about, name) <==> name == NameOf(about)
  {
    UnwrapIff(about, name);
    UnwrapIff(about, NameOf(about));
    if Unwrap(about).None? {
      forall kind, inner ensures !Wraps(about, kind, inner) {
        UnwrapIff(about, inner);
      }
    }
  }

  lemma RoleIff(about: string, role: string)
    ensures RoleOf(about) == Some(role) <==> NamesRole(about, role)
  {
    var name := NameOf(about);
    var parts := Split(name, '.');
    RefersIff(about, name);
    if RoleOf(about) == Some(role) {
      PartsAreASchema(name);
      assert IsRole(about, role, name, parts[0], parts[1], parts[2]);
    }
    if n, service, catalog, schema :| IsRole(about, role, n, service, catalog, schema) {
      RefersIff(about, n);
      SchemaParts(name, service, catalog, schema);
    }
  }

  // ----- which events are granted -----

  // Where the thread of an event is.
  predicate Carries(event: Event, thread: Thread) {
    || (event.entity == NoEntity && thread == event.flat)
    || event.entity == EntityText(Some(thread))
    || event.entity == EntityObject(thread)
  }

  // Where its task is: in the thread, else at the top level of the event.
  predicate HasTask(event: Event, thread: Thread, task: Task) {
    || thread.task == Some(task)
    || (thread.task == None && event.flat.task == Some(task))
    || (thread.task == None && event.flat.task == None && task == Task(NoId, "", "", "", "", "", "", ""))
  }

  // Who asked: the creator of the thread, else that of the event, else that of the task.
  predicate Requested(event: Event, thread: Thread, task: Task, user: string) {
    && user != ""
    && (thread.createdBy == user
        || (thread.createdBy == "" && event.flat.createdBy == user)
        || (thread.createdBy == "" && event.flat.createdBy == "" && task.createdBy == user))
  }

  ghost predicate AsksForAccess(thread: Thread, task: Task) {
    Says([Lower(thread.message), Lower(thread.description), Lower(task.description), Lower(task.message),
          Lower(task.taskName)], "request", "access")
  }

  ghost predicate AboutRole(thread: Thread, task: Task, role: string) {
    if thread.about != "" then NamesRole(thread.about, role) else NamesRole(task.about, role)
  }

  predicate HasId(task: Task, id: string) {
    (task.id.TextId? && task.id.s == id != "") || (task.id.IntId? && Decimal(task.id.n) == id)
  }

  lemma PhraseIff(texts: seq<string>)
    ensures Contains(Lower(Joined(texts)), "request access") <==> Says(Lowered(texts), "request", "access")
  {
    ContainsIff(Lower(Joined(texts)), "request access");
    LowerJoined(texts);
    assert "request" + " " + "access" == "request access";
    JoinedSays(Lowered(texts), "request", "access");
  }

  lemma AsksIff(thread: Thread, task: Task)
    ensures IsAccessRequest(thread, task) <==> AsksForAccess(thread, task)
  {
    var texts := [thread.message, thread.description, task.description, task.message, task.taskName];
    PhraseIff(texts);
    assert Lowered(texts) == [Lower(thread.message), Lower(thread.description), Lower(task.description),
                              Lower(task.message), Lower(task.taskName)];
  }

  lemma RequestedIff(event: Event, thread: Thread, task: Task, user: string)
    ensures Requested(event, thread, task, user)
      <==> user != "" && user == Or(thread.createdBy, Or(event.flat.createdBy, task.createdBy))
  {
  }

  lemma TaskIs(event: Event, thread: Thread, task: Task, grant: Grant)
    requires HasTask(event, thread, task)
    ensures GrantOf(thread, event.flat) == Ok(grant) <==>
      && (Lower(task.status) == "closed" || Lower(task.resolution) == "approved")
      && grant.user != "" && grant.user == Or(thread.createdBy, Or(event.flat.createdBy, task.createdBy))
      && IsAccessRequest(thread, task)
      && RoleOf(Or(thread.about, task.about)) == Some(grant.role)
      && HasId(task, grant.taskId)
  {
  }

  lemma ThreadIsGrantedIff(event: Event, thread: Thread, task: Task, grant: Grant)
    requires HasTask(event, thread, task)
    ensures GrantOf(thread, event.flat) == Ok(grant) <==>
      && (Lower(task.status) == "closed" || Lower(task.resolution) == "approved")
      && Requested(event, thread, task, grant.user)
      && AsksForAccess(thread, task)
      && AboutRole(thread, task, grant.role)
      && HasId(task, grant.taskId)
  {
    TaskIs(event, thread, task, grant);
    AsksIff(thread, task);
    RequestedIff(event, thread, task, grant.user);
    RoleIff(Or(thread.about, task.about), grant.role);
  }

  /** Which events the webhook grants, and what: exactly a resolved task or thread that is
      closed or approved, has a requester, asks for access in so many words, names a schema of a
      supported service and has an id; and then that requester, the role of that schema and
      that id. */
  lemma GrantedIff(event: Event, thread: Thread, task: Task, grant: Grant)
    requires Carries(event, thread) && HasTask(event, thread, task)
    ensures ParseGrant(event) == Ok(grant) <==>
      && event.eventType == "taskResolved"
      && (Lower(event.entityType) == "task" || Lower(event.entityType) == "thread")
      && (Lower(task.status) == "closed" || Lower(task.resolution) == "approved")
      && Requested(event, thread, task, grant.user)
      && AsksForAccess(thread, task)
      && AboutRole(thread, task, grant.role)
      && HasId(task, grant.taskId)
  {
    ThreadIsGrantedIff(event, thread, task, grant);
  }

  /** Every event carries a thread and a task, except that JSON text that does not parse
      carries none and is refused. */
  lemma EveryEventIsCovered(event: Event)
    ensures (exists thread, task :: Carries(event, thread) && HasTask(event, thread, task))
      <==> event.entity != EntityText(None)
    ensures event.entity == EntityText(None) ==> ParseGrant(event).Refused?
  {
    if event.entity != EntityText(None) {
      var thread := match event.entity
        case NoEntity => event.flat
        case EntityText(parsed) => parsed.value
        case EntityObject(t) => t;
      var task := if thread.task.Some? then thread.task.value
                  else if event.flat.task.Some? then event.flat.task.value
                  else Task(NoId, "", "", "", "", "", "", "");
      assert Carries(event, thread) && HasTask(event, thread, task);
    }
  }

  lemma {:induction false} AllOfThemEmpty(texts: seq<string>)
    requires forall i :: 0 <= i < |texts| ==> texts[i] == ""
    ensures NonEmpty(texts) == []
  {
    if texts != [] {
      AllOfThemEmpty(texts[1..]);
    }
  }

  lemma OneTextSays(message: string, more: seq<string>, a: string, b: string)
    requires a != "" && b != "" && Says([message] + more, a, b)
    requires forall i :: 0 <= i < |more| ==> more[i] == ""
    ensures Occurs(message, a + " " + b)
  {
    var texts := [message] + more;
    assert texts[1..] == more && texts[0 + 1..] == more;
    AllOfThemEmpty(more);
    EmptySaysNothing(more, a, b);
    AllEmpty(more, b);
    SaysFirst(texts, a, b);
  }

  lemma OnlyMessageAsks(thread: Thread, task: Task)
    requires AsksForAccess(thread, task)
    requires thread.description == task.description == task.message == task.taskName == ""
    ensures Occurs(Lower(thread.message), "request access")
  {
    var more := [Lower(thread.description), Lower(task.description), Lower(task.message), Lower(task.taskName)];
    assert [Lower(thread.message)] + more
      == [Lower(thread.message), Lower(thread.description), Lower(task.description), Lower(task.message),
          Lower(task.taskName)];
    assert more == ["", "", "", ""];
    assert Says([Lower(thread.message)] + more, "request", "access");
    OneTextSays(Lower(thread.message), more, "request", "access");
    assert "request" + " " + "access" == "request access";
  }

  /** A description task is not taken for a request: when the message is its only text, a grant
      means that "request access" stands in it, in any case of its letters. */
  lemma OnlyTheMessage(event: Event, thread: Thread, task: Task)
    requires Carries(event, thread) && HasTask(event, thread, task) && ParseGrant(event).Ok?
    requires thread.description == task.description == task.message == task.taskName == ""
    ensures Occurs(Lower(thread.message), "request access")
  {
    GrantNeedsWords(event, thread, task);
    OnlyMessageAsks(thread, task);
  }

  lemma GrantNeedsWords(event: Event, thread: Thread, task: Task)
    requires Carries(event, thread) && HasTask(event, thread, task) && ParseGrant(event).Ok?
    ensures AsksForAccess(thread, task)
  {
    GrantedIff(event, thread, task, ParseGrant(event).grant);
  }

  lemma StraddlingTexts(more: seq<string>)
    ensures Says(["change request", "access rules"] + more, "request", "access")
  {
    var texts := ["change request", "access rules"] + more;
    assert "change request"[7..] == "request" && "access rules"[..6] == "access";
    assert Leads(texts[1..], "access");
    assert SaysAt(texts, "request", "access", 0);
  }

  lemma NeitherSays()
    ensures !Occurs("change request", "request access") && !Occurs("access rules", "request access")
  {
    var message, words := "change request", "request access";
    assert |message| == 14 && |words| == 14 && |"access rules"| == 12;
    assert message[0..0 + 14] == message && message[0] == 'c' && words[0] == 'r';
    assert !OccursAt(message, words, 0);
  }

  lemma StraddlingRequest(thread: Thread, task: Task)
    requires Lower(thread.message) == "change request" && Lower(thread.description) == "access rules"
    ensures AsksForAccess(thread, task)
  {
    var more := [Lower(task.description), Lower(task.message), Lower(task.taskName)];
    StraddlingTexts(more);
    assert ["change request", "access rules"] + more
        == [Lower(thread.message), Lower(thread.description), Lower(task.description), Lower(task.message),
            Lower(task.taskName)];
  }

  /** The texts are joined before the search, so two of them that say nothing of the kind make
      a request together: a thread with the message "Change request" and the description
      "Access rules" is granted. */
  lemma TwoTextsMakeARequest(event: Event, thread: Thread, task: Task, user: string, role: string, id: string)
    requires event.eventType == "taskResolved" && Lower(event.entityType) == "thread"
    requires Carries(event, thread) && HasTask(event, thread, task) && Lower(task.status) == "closed"
    requires Requested(event, thread, task, user) && AboutRole(thread, task, role) && HasId(task, id)
    requires Lower(thread.message) == "change request" && Lower(thread.description) == "access rules"
    ensures ParseGrant(event) == Ok(Grant(user, role, id))
    ensures !Occurs("change request", "request access") && !Occurs("access rules", "request access")
  {
    NeitherSays();
    StraddlingRequest(thread, task);
    GrantedIff(event, thread, task, Grant(user, role, id));
  }
}
