/** From an OpenMetadata event to a grant, and from an access request to the event that
    comes back when it is approved. An empty string stands for an absent or null field. */
module GrantParser {
  import opened Common
  import opened Text

  datatype TaskId = NoId | IntId(n: int) | TextId(s: string)

  datatype Task = Task(id: TaskId, status: string, resolution: string, createdBy: string, about: string,
                       description: string, message: string, taskName: string)

  datatype Thread = Thread(task: Option<Task>, createdBy: string, about: string,
                           message: string, description: string)

  /** The `entity` field: absent (or text not starting with a brace), JSON text that parses
      or does not, or an object. */
  datatype Entity = NoEntity | EntityText(parsed: Option<Thread>) | EntityObject(thread: Thread)

  /** `flat` holds the thread fields at the top level of the event. */
  datatype Event = Event(eventType: string, entityType: string, entity: Entity, flat: Thread)

  datatype Grant = Grant(user: string, role: string, taskId: string)

  datatype Parsed = Ok(grant: Grant) | Refused(why: Reason)
  datatype Reason =
    | NotResolved | NotATask | BadEntity | NotApproved | NoRequester | NotAnAccessRequest | BadAsset | NoTaskId

  const EMPTY_TASK := Task(NoId, "", "", "", "", "", "", "")

  const SUPPORTED: set<string> := {"trino", "uwv-trino"}

  function Or(a: string, b: string): string {
    if a != "" then a else b
  }

  function NonEmpty(parts: seq<string>): seq<string> {
    if parts == [] then []
    else (if parts[0] == "" then [] else [parts[0]]) + NonEmpty(parts[1..])
  }

  // The first ':' of `s`, or |s|.
  function Colon(s: string): (k: nat)
    ensures k <= |s| && ':' !in s[..k] && (k < |s| ==> s[k] == ':')
  {
    if s == "" || s[0] == ':' then 0 else 1 + Colon(s[1..])
  }

  // What stands behind the kind of entity, up to the closing bracket.
  function NameIn(tail: string): Option<string> {
    var body := if tail != "" && tail[|tail| - 1] == '\n' then tail[..|tail| - 1] else tail;
    if |body| < 2 || body[|body| - 1] != '>' || '\n' in body then None else Some(body[..|body| - 1])
  }

  /** The group of the pattern for wrapped entity references; a line break ends a match,
      except one at the very end. */
  function Unwrap(about: string): Option<string> {
    if !StartsWith(about, "<#E::") then None
    else
      var rest := about[5..];
      var k := Colon(rest);
      if k == 0 || !StartsWith(rest[k..], "::") then None
      else NameIn(rest[k + 2..])
  }

  function RoleOfFqn(fqn: string): Option<string> {
    var parts := Split(fqn, '.');
    if |parts| < 3 || parts[0] !in SUPPORTED then None
    else Some("data_access:" + parts[1] + "." + parts[2])
  }

  function RoleOf(about: string): Option<string> {
    RoleOfFqn(match Unwrap(about) case Some(inner) => inner case None => about)
  }

  lemma SupportedName(service: string)
    requires service in SUPPORTED
    ensures service != "" && service[0] != '<' && '.' !in service
  {
  }

  lemma NotWrapped(about: string)
    requires about != "" && about[0] != '<'
    ensures RoleOf(about) == RoleOfFqn(about)
  {
  }

  function TextOf(id: TaskId): string {
    match id case NoId => "" case IntId(n) => Decimal(n) case TextId(s) => s
  }

  function ThreadOf(event: Event): Option<Thread> {
    match event.entity
    case NoEntity => Some(event.flat)
    case EntityText(parsed) => parsed
    case EntityObject(thread) => Some(thread)
  }

  predicate IsAccessRequest(thread: Thread, task: Task) {
    var texts := [thread.message, thread.description, task.description, task.message, task.taskName];
    Contains(Lower(Join(NonEmpty(texts), ' ')), "request access")
  }

  function ParseGrant(event: Event): Parsed {
    if event.eventType != "taskResolved" then Refused(NotResolved)
    else if Lower(event.entityType) != "task" && Lower(event.entityType) != "thread" then Refused(NotATask)
    else
      match ThreadOf(event)
      case None => Refused(BadEntity)
      case Some(thread) => GrantOf(thread, event.flat)
  }

  function GrantOf(thread: Thread, flat: Thread): Parsed {
    var task := if thread.task.Some? then thread.task.value
                else if flat.task.Some? then flat.task.value
                else EMPTY_TASK;
    if Lower(task.status) != "closed" && Lower(task.resolution) != "approved" then Refused(NotApproved)
    else
      var requester := Or(thread.createdBy, Or(flat.createdBy, task.createdBy));
      if requester == "" then Refused(NoRequester)
      else if !IsAccessRequest(thread, task) then Refused(NotAnAccessRequest)
      else
        match RoleOf(Or(thread.about, task.about))
        case None => Refused(BadAsset)
        case Some(role) =>
          if task.id.NoId? || task.id == TextId("") then Refused(NoTaskId)
          else Ok(Grant(requester, role, TextOf(task.id)))
  }

  // ----- the request endpoint -----

  /** The asset names `/api/request` accepts. */
  predicate AcceptsAsset(fqn: string) {
    |Split(fqn, '.')| >= 4 && Split(fqn, '.')[0] in SUPPORTED
  }

  /** The thread the bridge creates for a request, as it comes back once the task was
      resolved. `detail` is the part of the message after its first words. */
  function ResolvedThread(requester: string, fqn: string, detail: string, id: TaskId): Thread {
    Thread(Some(EMPTY_TASK.(id := id, status := "Closed")), requester,
           "<#E::table::" + fqn + ">", "Request Access" + detail, "")
  }

  /** The same as OpenMetadata sends it: with an integer id. */
  function ApprovedThread(requester: string, fqn: string, detail: string, id: int): Thread {
    ResolvedThread(requester, fqn, detail, IntId(id))
  }

  lemma WrapUnwrap(fqn: string)
    requires fqn != ""
    ensures Unwrap("<#E::table::" + fqn + ">") == if '\n' in fqn then None else Some(fqn)
  {
    var about := "<#E::table::" + fqn + ">";
    var rest := about[5..];
    assert rest == "table::" + fqn + ">";
    assert forall i :: 0 <= i < 5 ==> rest[i] == "table"[i];
    assert rest[5] == ':' && Colon(rest) == 5;
    assert rest[5..] == "::" + fqn + ">" && rest[7..] == fqn + ">";
    assert (fqn + ">")[..|fqn|] == fqn;
  }

  lemma WrappedIsNotSupported(fqn: string)
    requires fqn != "" && '\n' in fqn
    ensures RoleOf("<#E::table::" + fqn + ">") == None
  {
    WrapUnwrap(fqn);
    var about := "<#E::table::" + fqn + ">";
    SplitHead("<#E::table::", fqn + ">", '.');
    assert about == "<#E::table::" + (fqn + ">");
    assert Split(about, '.')[0][0] == '<';
    assert forall p :: p in SUPPORTED ==> p[0] != '<';
  }

  lemma OnlyOneText(message: string)
    requires message != ""
    ensures NonEmpty([message, "", "", "", ""]) == [message]
  {
    var rest := ["", "", "", ""];
    assert rest[1..] == ["", "", ""] && rest[1..][1..] == ["", ""] && rest[1..][1..][1..] == [""];
    assert NonEmpty(rest) == [];
    assert [message, "", "", "", ""][1..] == rest;
  }

  lemma RequestWords(detail: string)
    ensures Contains(Lower("Request Access" + detail), "request access")
  {
    assert Lower("Request Access" + detail)[..14] == "request access";
  }

  lemma AccessRequestIsRecognised(thread: Thread, task: Task, detail: string)
    requires thread.message == "Request Access" + detail && thread.description == ""
    requires task.description == task.message == task.taskName == ""
    ensures IsAccessRequest(thread, task)
  {
    OnlyOneText(thread.message);
    RequestWords(detail);
  }

  lemma AssetRole(fqn: string)
    requires AcceptsAsset(fqn)
    ensures RoleOf("<#E::table::" + fqn + ">") ==
      if '\n' in fqn then None else Some("data_access:" + Split(fqn, '.')[1] + "." + Split(fqn, '.')[2])
  {
    WrapUnwrap(fqn);
    if '\n' in fqn {
      WrappedIsNotSupported(fqn);
    }
  }

  predicate AboutTasks(entityType: string) {
    Lower(entityType) == "thread" || Lower(entityType) == "task"
  }

  // What the event of an approval must be parsed to.
  function Expected(requester: string, fqn: string, id: int): Parsed
    requires AcceptsAsset(fqn)
  {
    ExpectedFor(requester, fqn, IntId(id))
  }

  function ExpectedFor(requester: string, fqn: string, id: TaskId): Parsed
    requires AcceptsAsset(fqn)
  {
    if '\n' in fqn then Refused(BadAsset)
    else if id.NoId? || id == TextId("") then Refused(NoTaskId)
    else Ok(Grant(requester, "data_access:" + Split(fqn, '.')[1] + "." + Split(fqn, '.')[2], TextOf(id)))
  }

  lemma ClosedWord()
    ensures Lower("Closed") == "closed"
  {
  }

  lemma ResolvedThreadIsGranted(requester: string, fqn: string, detail: string, id: TaskId, flat: Thread)
    requires requester != "" && AcceptsAsset(fqn)
    ensures GrantOf(ResolvedThread(requester, fqn, detail, id), flat) == ExpectedFor(requester, fqn, id)
  {
    var thread := ResolvedThread(requester, fqn, detail, id);
    AccessRequestIsRecognised(thread, thread.task.value, detail);
    AssetRole(fqn);
    ClosedWord();
  }

  /** Request and approval fit together: for every asset the request endpoint accepts, the
      event of its approval, in either of its shapes, is parsed to a grant of the role of
      that asset's catalog and schema to the requester, exactly when its name has no line
      break; otherwise the webhook refuses it. */
  lemma ApprovedRequestIsGranted(requester: string, fqn: string, detail: string, id: int, entityType: string,
                                 flat: Thread)
    requires requester != "" && AcceptsAsset(fqn)
    requires AboutTasks(entityType)
    ensures var thread := ApprovedThread(requester, fqn, detail, id);
      && ParseGrant(Event("taskResolved", entityType, EntityText(Some(thread)), flat)) == Expected(requester, fqn, id)
      && ParseGrant(Event("taskResolved", entityType, NoEntity, thread)) == Expected(requester, fqn, id)
  {
    ResolvedThreadIsGranted(requester, fqn, detail, IntId(id), flat);
    ResolvedThreadIsGranted(requester, fqn, detail, IntId(id), ApprovedThread(requester, fqn, detail, id));
  }

  // ----- the replay endpoint -----

  /** What `/replay/{path}` answers: it looks for the id in the flat task only. */
  function ParseReplay(path: string, event: Event): Parsed {
    if event.flat.task.None? || event.flat.task.value.id != TextId(path) then Refused(NoTaskId) else ParseGrant(event)
  }

  // A replay reads the id of the flat task, and the event as a webhook would.
  lemma ReplayAcceptsIff(path: string, event: Event)
    ensures ParseReplay(path, event).Ok? <==>
      event.flat.task.Some? && event.flat.task.value.id == TextId(path) && ParseGrant(event).Ok?
    ensures (event.flat.task.None? || event.flat.task.value.id.IntId?) ==> !ParseReplay(path, event).Ok?
  {
  }

  /** The approvals the webhook grants can not be replayed as they are: the event of every
      approval, in the flat shape and with its thread in `entity` only, is refused by the
      replay on every path. */
  lemma ApprovalIsNeverReplayed(requester: string, fqn: string, detail: string, id: int, entityType: string,
                                path: string)
    requires requester != "" && AcceptsAsset(fqn) && '\n' !in fqn
    requires AboutTasks(entityType)
    ensures var thread := ApprovedThread(requester, fqn, detail, id);
      var flat := Event("taskResolved", entityType, NoEntity, thread);
      var inEntity := Event("taskResolved", entityType, EntityText(Some(thread)), Thread(None, "", "", "", ""));
      && ParseGrant(flat).Ok? && ParseGrant(inEntity).Ok?
      && ParseReplay(path, flat).Refused? && ParseReplay(path, inEntity).Refused?
  {
    var thread, none := ApprovedThread(requester, fqn, detail, id), Thread(None, "", "", "", "");
    ApprovedRequestIsGranted(requester, fqn, detail, id, entityType, none);
    ReplayAcceptsIff(path, Event("taskResolved", entityType, NoEntity, thread));
    ReplayAcceptsIff(path, Event("taskResolved", entityType, EntityText(Some(thread)), none));
  }

  lemma EntityIsParsed(entityType: string, thread: Thread, outer: Thread)
    requires AboutTasks(entityType)
    ensures ParseGrant(Event("taskResolved", entityType, EntityText(Some(thread)), outer)) == GrantOf(thread, outer)
    ensures ParseGrant(Event("taskResolved", entityType, NoEntity, thread)) == GrantOf(thread, thread)
  {
  }

  // What a replay answers to an event that is parsed to `parsed`.
  lemma ReplayOf(path: string, event: Event, parsed: Parsed)
    requires ParseGrant(event) == parsed
    ensures ParseReplay(path, event) ==
      if event.flat.task.Some? && event.flat.task.value.id == TextId(path) then parsed else Refused(NoTaskId)
  {
  }

  /** The edit that makes a flat event pass: its id must be replaced by the text of the path,
      and the grant then has that id. A name with a line break stays refused. */
  lemma FlatApprovalIsReplayedIff(requester: string, fqn: string, detail: string, id: TaskId, entityType: string,
                                  path: string)
    requires requester != "" && AcceptsAsset(fqn) && path != ""
    requires AboutTasks(entityType)
    ensures var event := Event("taskResolved", entityType, NoEntity, ResolvedThread(requester, fqn, detail, id));
      && (ParseReplay(path, event).Ok? <==> id == TextId(path) && '\n' !in fqn)
      && (ParseReplay(path, event).Ok? ==> ParseReplay(path, event).grant.taskId == path)
  {
    var thread := ResolvedThread(requester, fqn, detail, id);
    ResolvedThreadIsGranted(requester, fqn, detail, id, thread);
    EntityIsParsed(entityType, thread, thread);
    ReplayOf(path, Event("taskResolved", entityType, NoEntity, thread), ExpectedFor(requester, fqn, id));
  }

  /** With the thread in `entity` a flat task with that id must be added, and the grant keeps
      the id of the thread, so that is the id that counts as processed. */
  lemma EntityApprovalIsReplayedIff(requester: string, fqn: string, detail: string, id: int, entityType: string,
                                    outer: Thread, path: string)
    requires requester != "" && AcceptsAsset(fqn)
    requires AboutTasks(entityType)
    ensures var thread := ApprovedThread(requester, fqn, detail, id);
      var event := Event("taskResolved", entityType, EntityText(Some(thread)), outer);
      && (ParseReplay(path, event).Ok? <==>
            outer.task.Some? && outer.task.value.id == TextId(path) && '\n' !in fqn)
      && (ParseReplay(path, event).Ok? ==> ParseReplay(path, event).grant.taskId == Decimal(id))
  {
    var thread := ApprovedThread(requester, fqn, detail, id);
    ResolvedThreadIsGranted(requester, fqn, detail, IntId(id), outer);
    EntityIsParsed(entityType, thread, outer);
    ReplayOf(path, Event("taskResolved", entityType, EntityText(Some(thread)), outer), Expected(requester, fqn, id));
  }
}
