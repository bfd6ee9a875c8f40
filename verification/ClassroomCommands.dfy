/** Instructor requests to a student's IDE: queued, delivered to one client, answered by it or
    expired, with an audit trail, caps, and replies that may be repeated. */
module ClassroomCommands {
  import opened Common

  type Id = nat

  const TTL_SECONDS := 600
  const HOUR := 3600
  const MAX_PENDING := 5
  const MAX_PER_HOUR := 30
  const POLL_LIMIT := 5

  datatype Kind = Notice | OpenAssignment | SyncMaterials | CheckEnvironment | SaveSubmit
  datatype Status = Queued | Received | Accepted | Completed | Declined | Failed | Expired
  datatype Code = Done(kind: Kind) | StudentDeclined | Failure(reason: Id) | TimedOut
  datatype Check = ServerOk | Workspace | Compiler | Os | Remote
  datatype Result = Result(submission: Option<Id>, checks: Option<set<Check>>)
  datatype Request = Request(kind: Kind, assignment: Option<Id>, message: string)
  datatype Reply = Reply(client: Id, status: Status, code: Option<Code>, result: Option<Result>)

  datatype Row = Row(course: Id, student: Id, requestKey: Id, request: Request, createdBy: Id, status: Status,
                     createdAt: int, expiresAt: int, client: Option<Id>, receivedAt: Option<int>,
                     acceptedAt: Option<int>, finishedAt: Option<int>, code: Option<Code>, result: Option<Result>,
                     last: Option<Reply>)
  datatype Actor = Instructor(name: Id) | Ide | Learner | Server
  datatype Entry = Entry(status: Status, actor: Actor, at: int)
  datatype Session = Session(id: Id, course: Id, student: Id)
  datatype Client = Client(session: Session, closed: bool, assignment: Option<Id>)
  datatype Receipt = Receipt(course: Id, student: Id, assignment: Option<Id>, receivedAt: int)

  /** A `respond` call between its two transactions. */
  datatype Call = Call(session: Session, command: Id, reply: Reply, now: int)

  datatype World = World(commands: map<Id, Row>, audit: map<Id, seq<Entry>>, clients: map<Id, Client>,
                         receipts: map<Id, Receipt>, calls: map<Id, Call>, clock: int)

  function Empty(clock: int): World {
    World(map[], map[], map[], map[], map[], clock)
  }

  datatype Step =
    | Tick(elapsed: nat)
    | SetClient(client: Id, state: Client)
    | AddReceipt(submission: Id, receipt: Receipt)
    | Create(id: Id, course: Id, student: Id, requestKey: Id, request: Request, actor: Id, now: int, allowed: bool)
    | Expire(course: Id, now: int)
    | Poll(session: Session, client: Id, now: int, allowed: bool, rows: set<Id>)
    | StartReply(call: Id, session: Session, command: Id, reply: Reply, now: int, checked: int)
    | FinishReply(call: Id, allowed: bool)
    | DropCall(call: Id)

  datatype Outcome = Fine | Duplicate | Refused

  predicate Pending(s: Status) { s.Queued? || s.Received? || s.Accepted? }

  /** The status changes the audit trail may show. */
  predicate Allowed(from: Status, to: Status) {
    match from
    case Queued => to.Received? || to.Expired?
    case Received => to.Accepted? || to.Declined? || to.Failed? || to.Expired?
    case Accepted => to.Completed? || to.Failed? || to.Expired?
    case _ => false
  }

  /** `_create_payload`. */
  predicate RequestOk(r: Request) {
    && (if r.kind.Notice? then exists i :: 0 <= i < |r.message| && r.message[i] !in " \n\t" else r.assignment.Some?)
    && |r.message| <= 1000
    && forall i :: 0 <= i < |r.message| ==> r.message[i] as int >= 32 || r.message[i] in "\n\t"
  }

  /** `_response_payload`. */
  predicate ReplyOk(r: Reply) {
    match r.status
    case Accepted => r.code.None? && r.result.None?
    case Declined => r.code == Some(StudentDeclined) && r.result.None?
    case Failed => r.code.Some? && r.code.value.Failure?
    case Completed => r.code.Some? && r.code.value.Done?
    case _ => false
  }

  predicate Due(row: Row, course: Id, now: int) {
    row.course == course && Pending(row.status) && row.expiresAt <= now
  }

  function ExpiredRow(row: Row, now: int): Row {
    row.(status := Expired, finishedAt := Some(now), code := Some(TimedOut))
  }

  /** `_expire`, all due commands of a course at once. */
  function ExpireAll(w: World, course: Id, now: int): World {
    w.(commands := map c | c in w.commands ::
        if Due(w.commands[c], course, now) then ExpiredRow(w.commands[c], now) else w.commands[c],
       audit := map c | c in w.audit :: if c in w.commands && Due(w.commands[c], course, now)
                                        then w.audit[c] + [Entry(Expired, Server, now)] else w.audit[c])
  }

  function PendingOf(w: World, course: Id, student: Id): set<Id> {
    set c | c in w.commands && w.commands[c].course == course && w.commands[c].student == student
        && Pending(w.commands[c].status)
  }

  function CreatedFrom(w: World, course: Id, student: Id, from: int): set<Id> {
    set c | c in w.commands && w.commands[c].course == course && w.commands[c].student == student
        && w.commands[c].createdAt >= from
  }

  predicate SameKey(row: Row, course: Id, student: Id, actor: Id, requestKey: Id) {
    row.course == course && row.student == student && row.createdBy == actor && row.requestKey == requestKey
  }

  ghost predicate KeyUsed(w: World, course: Id, student: Id, actor: Id, requestKey: Id) {
    exists c :: c in w.commands && SameKey(w.commands[c], course, student, actor, requestKey)
  }

  function NewRow(s: Step): Row
    requires s.Create?
  {
    Row(s.course, s.student, s.requestKey, s.request, s.actor, Queued, s.now, s.now + TTL_SECONDS,
        None, None, None, None, None, None, None)
  }

  /** `create`: expiry, the request key, both caps, the row. */
  ghost function CreateStep(w: World, s: Step): (World, Outcome)
    requires s.Create?
  {
    if !s.allowed || !RequestOk(s.request) || s.now > w.clock then (w, Refused)
    else
      var e := ExpireAll(w, s.course, s.now);
      if KeyUsed(e, s.course, s.student, s.actor, s.requestKey) then
        if exists c :: c in e.commands && SameKey(e.commands[c], s.course, s.student, s.actor, s.requestKey)
                       && e.commands[c].request == s.request then (e, Duplicate) else (w, Refused)
      else if |PendingOf(e, s.course, s.student)| >= MAX_PENDING then (w, Refused)
      else if |CreatedFrom(e, s.course, s.student, s.now - HOUR)| >= MAX_PER_HOUR then (w, Refused)
      else if s.id in e.commands || s.id in e.audit then (w, Refused)
      else (Created(e, s), Fine)
  }

  predicate OwnsClient(w: World, session: Session, client: Id) {
    client in w.clients && !w.clients[client].closed && w.clients[client].session == session
  }

  predicate Eligible(row: Row, session: Session, client: Id, assignment: Option<Id>) {
    && row.course == session.course && row.student == session.student
    && (row.request.assignment.None? || row.request.assignment == assignment)
    && (row.status.Queued? || (row.client == Some(client) && (row.status.Received? || row.status.Accepted?)))
  }

  predicate Before(a: Row, aId: Id, b: Row, bId: Id) {
    a.createdAt < b.createdAt || (a.createdAt == b.createdAt && aId < bId)
  }

  /** The first five eligible commands by age. */
  ghost predicate FirstFive(w: World, session: Session, client: Id, assignment: Option<Id>, rows: set<Id>) {
    && (forall c :: c in rows ==> c in w.commands && Eligible(w.commands[c], session, client, assignment))
    && |rows| <= POLL_LIMIT
    && forall c :: c in w.commands && c !in rows && Eligible(w.commands[c], session, client, assignment) ==>
         |rows| == POLL_LIMIT && forall d :: d in rows ==> Before(w.commands[d], d, w.commands[c], c)
  }

  /** Queued commands among `rows` are delivered to the client. */
  function Deliver(w: World, rows: set<Id>, client: Id, now: int): World {
    w.(commands := map c | c in w.commands ::
         if c in rows && w.commands[c].status.Queued?
         then w.commands[c].(status := Received, client := Some(client), receivedAt := Some(now)) else w.commands[c],
       audit := map c | c in w.audit ::
         if c in rows && c in w.commands && w.commands[c].status.Queued? then w.audit[c] + [Entry(Received, Ide, now)]
             else w.audit[c])
  }

  ghost function PollStep(w: World, session: Session, client: Id, now: int, allowed: bool, rows: set<Id>)
    : (World, Outcome)
  {
    if !allowed || !OwnsClient(w, session, client) || now > w.clock then (w, Refused)
    else
      var e := ExpireAll(w, session.course, now);
      if !FirstFive(e, session, client, w.clients[client].assignment, rows) then (w, Refused)
      else (Deliver(e, rows, client, now), Fine)
  }

  predicate HasReceipt(w: World, row: Row, submission: Option<Id>) {
    && submission.Some? && submission.value in w.receipts
    && var r := w.receipts[submission.value];
       && r.course == row.course && r.student == row.student && r.assignment == row.request.assignment
       && row.acceptedAt.Some? && r.receivedAt >= row.acceptedAt.value
  }

  function Submission(reply: Reply): Option<Id> {
    if reply.result.Some? then reply.result.value.submission else None
  }

  function Checks(reply: Reply): Option<set<Check>> {
    if reply.result.Some? then reply.result.value.checks else None
  }

  const ALL_CHECKS: set<Check> := {ServerOk, Workspace, Compiler, Os, Remote}

  /** What `respond` demands of a completion. */
  predicate CompletionOk(w: World, row: Row, reply: Reply) {
    && reply.code == Some(Done(row.request.kind))
    && (row.request.kind.SaveSubmit? ==> HasReceipt(w, row, Submission(reply)))
    && (row.request.kind.CheckEnvironment? ==> Checks(reply) == Some(ALL_CHECKS))
  }

  function Answered(row: Row, reply: Reply, now: int): Row {
    row.(status := reply.status, acceptedAt := if reply.status.Accepted? then Some(now) else row.acceptedAt,
         finishedAt := if Pending(reply.status) then None else Some(now),
         code := reply.code, result := reply.result, last := Some(reply))
  }

  /** The second transaction of `respond`. */
  function ReplyStep(w: World, call: Call, allowed: bool): (World, Outcome) {
    var reply, session := call.reply, call.session;
    if !allowed || !OwnsClient(w, session, reply.client) then (w, Refused)
    else if call.command !in w.commands || call.command !in w.audit then (w, Refused)
    else
      var row := w.commands[call.command];
      if row.course != session.course || row.student != session.student
          || row.client != Some(reply.client) then (w, Refused)
      else if row.request.assignment.Some?
          && row.request.assignment != w.clients[reply.client].assignment then (w, Refused)
      else if Submission(reply).Some? && !(row.request.kind.SaveSubmit? && reply.status.Completed?) then (w, Refused)
      else if row.status == reply.status && row.last == Some(reply) then (w, Duplicate)
      else if row.status.Queued? || reply.status.Expired? || !Allowed(row.status, reply.status) then (w, Refused)
      else if reply.status.Completed? && !CompletionOk(w, row, reply) then (w, Refused)
      else if Checks(reply).Some? && !row.request.kind.CheckEnvironment? then (w, Refused)
      else (w.(commands := w.commands[call.command := Answered(row, reply, call.now)],
               audit := w.audit[call.command := w.audit[call.command] + [Entry(reply.status, Learner, call.now)]]),
            Fine)
  }

  ghost function Next(w: World, step: Step): (World, Outcome) {
    match step
    case Tick(elapsed) => (w.(clock := w.clock + elapsed), Fine)
    case SetClient(client, state) => (w.(clients := w.clients[client := state]), Fine)
    case AddReceipt(submission, receipt) =>
      if submission in w.receipts then (w, Refused) else (w.(receipts := w.receipts[submission := receipt]), Fine)
    case Create(_, _, _, _, _, _, _, _) => CreateStep(w, step)
    case Expire(course, now) => if now > w.clock then (w, Refused) else (ExpireAll(w, course, now), Fine)
    case Poll(session, client, now, allowed, rows) => PollStep(w, session, client, now, allowed, rows)
    case StartReply(call, session, command, reply, now, checked) =>
      if !ReplyOk(reply) || call in w.calls || !(now <= checked <= w.clock) then (w, Refused)
      else (ExpireAll(w, session.course, checked).(calls := w.calls[call := Call(session, command, reply, now)]), Fine)
    case FinishReply(call, allowed) =>
      if call !in w.calls then (w, Refused)
      else var n := ReplyStep(w, w.calls[call], allowed); (n.0.(calls := w.calls - {call}), n.1)
    case DropCall(call) => (w.(calls := w.calls - {call}), Fine)
  }

  /** Any interleaving of requests by instructors, clients and streams. */
  ghost function Run(w: World, steps: seq<Step>): World
    decreases |steps|
  {
    if steps == [] then w else Run(Next(w, steps[0]).0, steps[1..])
  }

  // ------------------------------------------------------------------- invariant

  /** The audit trail spells a legal path that ends in `status`. */
  ghost predicate Spells(trail: seq<Entry>, status: Status) {
    && trail != [] && trail[0].status.Queued? && trail[|trail| - 1].status == status
    && forall i :: 0 <= i < |trail| - 1 ==> Allowed(trail[i].status, trail[i + 1].status)
  }

  /** Expiry entries are written at or after the deadline, all others before it. */
  ghost predicate OnTime(trail: seq<Entry>, deadline: int) {
    forall i :: 0 <= i < |trail| ==> (trail[i].status.Expired? <==> trail[i].at >= deadline)
  }

  ghost predicate RowOk(w: World, c: Id) {
    c in w.commands && c in w.audit &&
    var row := w.commands[c];
    && Spells(w.audit[c], row.status) && RequestOk(row.request)
    && row.expiresAt == row.createdAt + TTL_SECONDS
    && (row.status.Queued? ==> row.client.None?)
    && (!row.status.Queued? && !row.status.Expired? ==> row.client.Some?)
    && (row.finishedAt.Some? <==> !Pending(row.status))
    && (row.acceptedAt.Some? ==> Entry(Accepted, Learner, row.acceptedAt.value) in w.audit[c])
    && (Pending(row.status) ==> (row.status.Accepted? <==> row.acceptedAt.Some?))
    && (row.last.Some? && !row.status.Expired? ==>
          row.last.value.status == row.status && row.client == Some(row.last.value.client))
    && (row.status.Completed? ==> row.last.Some? && CompletionOk(w, row, row.last.value))
  }

  ghost predicate TrailOk(w: World, c: Id) {
    c in w.commands && c in w.audit && OnTime(w.audit[c], w.commands[c].expiresAt)
  }

  ghost predicate KeyOk(w: World, c: Id, d: Id) {
    c in w.commands && d in w.commands &&
    var row := w.commands[c];
    (SameKey(w.commands[d], row.course, row.student, row.createdBy, row.requestKey) ==> c == d)
  }

  ghost predicate CapsOk(w: World, course: Id, student: Id) {
    && |PendingOf(w, course, student)| <= MAX_PENDING
    && forall from {:trigger CreatedWithin(w, course, student, from)} ::
         |CreatedWithin(w, course, student, from)| <= MAX_PER_HOUR
  }

  /** Commands of a student created in the closed hour that starts at `from`. */
  function CreatedWithin(w: World, course: Id, student: Id, from: int): set<Id> {
    set c | c in CreatedFrom(w, course, student, from) && w.commands[c].createdAt <= from + HOUR
  }

  /** The reply can fit the request: nothing in it will be refused whatever the row's status, and
      a receipt it names, if already there, is one for this student and assignment. */
  predicate Admissible(w: World, row: Row, reply: Reply) {
    && (Submission(reply).Some? ==> row.request.kind.SaveSubmit? && reply.status.Completed?)
    && (Checks(reply).Some? ==> row.request.kind.CheckEnvironment?)
    && (reply.status.Completed? ==>
          && reply.code == Some(Done(row.request.kind))
          && (row.request.kind.SaveSubmit? ==> Submission(reply).Some? && ReceiptFits(w, row, Submission(reply).value))
          && (row.request.kind.CheckEnvironment? ==> Checks(reply) == Some(ALL_CHECKS)))
  }

  predicate ReceiptFits(w: World, row: Row, id: Id) {
    id in w.receipts ==>
      var r := w.receipts[id];
      r.course == row.course && r.student == row.student && r.assignment == row.request.assignment
  }

  /** The reply `k` could still change row `row` of the command it names. */
  predicate Answers(w: World, k: Call, row: Row) {
    row.course == k.session.course && row.student == k.session.student && Pending(row.status)
        && Admissible(w, row, k.reply)
  }

  /** A reply that is under way is earlier than the deadline of its command, if that is pending. */
  ghost predicate CallOk(w: World, call: Id) {
    call in w.calls &&
    var k := w.calls[call];
    && ReplyOk(k.reply) && k.now <= w.clock
    && (k.command in w.commands && Answers(w, k, w.commands[k.command]) ==> k.now < w.commands[k.command].expiresAt)
  }

  ghost predicate InvRows(w: World) {
    && (forall c {:trigger RowOk(w, c)} :: c in w.commands || c in w.audit ==> RowOk(w, c))
    && (forall c, d {:trigger KeyOk(w, c, d)} :: c in w.commands && d in w.commands ==> KeyOk(w, c, d))
    && (forall k, st {:trigger CapsOk(w, k, st)} :: CapsOk(w, k, st))
    && (forall r {:trigger r in w.calls} :: r in w.calls ==> ReplyOk(w.calls[r].reply))
  }

  /** What needs that no reply guessed the id of a command to come. */
  ghost predicate InvTimes(w: World) {
    && (forall c {:trigger TrailOk(w, c)} :: c in w.commands ==> TrailOk(w, c))
    && (forall k {:trigger CallOk(w, k)} :: k in w.calls ==> CallOk(w, k))
  }

  // ------------------------------------------------------- every step keeps it

  lemma SubsetSize(a: set<Id>, b: set<Id>)
    requires a <= b
    ensures |a| <= |b|
  {
    assert b == a + (b - a);
  }

  /** What identifies a command and dates it never changes. */
  ghost predicate SameIdentity(a: Row, b: Row) {
    && b.course == a.course && b.student == a.student && b.requestKey == a.requestKey && b.request == a.request
    && b.createdBy == a.createdBy && b.createdAt == a.createdAt && b.expiresAt == a.expiresAt
  }

  /** Commands move on; none appears or disappears. */
  ghost predicate Evolves(w: World, w': World) {
    && (forall c {:trigger c in w'.commands} :: c in w.commands <==> c in w'.commands)
    && forall c :: c in w.commands && c in w'.commands ==>
         SameIdentity(w.commands[c], w'.commands[c])
             && (Pending(w'.commands[c].status) ==> Pending(w.commands[c].status))
  }

  lemma EvolvingCaps(w: World, w': World, course: Id, student: Id)
    requires Evolves(w, w') && CapsOk(w, course, student)
    ensures CapsOk(w', course, student)
  {
    SubsetSize(PendingOf(w', course, student), PendingOf(w, course, student));
    forall from ensures |CreatedWithin(w', course, student, from)| <= MAX_PER_HOUR {
      assert CreatedWithin(w', course, student, from) == CreatedWithin(w, course, student, from);
    }
  }

  lemma EvolvingKeys(w: World, w': World)
    requires InvRows(w) && Evolves(w, w')
    ensures forall c, d {:trigger KeyOk(w', c, d)} :: c in w'.commands && d in w'.commands ==> KeyOk(w', c, d)
    ensures forall k, st {:trigger CapsOk(w', k, st)} :: CapsOk(w', k, st)
  {
    forall c, d | c in w'.commands && d in w'.commands ensures KeyOk(w', c, d) {
      assert KeyOk(w, c, d);
    }
    forall k, st ensures CapsOk(w', k, st) {
      assert CapsOk(w, k, st);
      EvolvingCaps(w, w', k, st);
    }
  }

  lemma SpellsOn(trail: seq<Entry>, from: Status, e: Entry)
    requires Spells(trail, from) && Allowed(from, e.status)
    ensures Spells(trail + [e], e.status)
  {
  }

  lemma CallStays(w: World, w': World, k: Id)
    requires CallOk(w, k) && Evolves(w, w') && w'.calls == w.calls && w'.receipts == w.receipts && w'.clock == w.clock
    ensures CallOk(w', k)
  {
    var c := w.calls[k].command;
    if c in w'.commands {
      assert SameIdentity(w.commands[c], w'.commands[c]);
    }
  }

  lemma ExpireRow(w: World, course: Id, now: int, c: Id)
    requires InvRows(w) && c in w.commands
    ensures RowOk(ExpireAll(w, course, now), c)
    ensures TrailOk(w, c) ==> TrailOk(ExpireAll(w, course, now), c)
  {
    assert RowOk(w, c);
    if Due(w.commands[c], course, now) {
      SpellsOn(w.audit[c], w.commands[c].status, Entry(Expired, Server, now));
    }
  }

  lemma ExpireKeeps(w: World, course: Id, now: int)
    requires InvRows(w)
    ensures InvRows(ExpireAll(w, course, now)) && Evolves(w, ExpireAll(w, course, now))
    ensures InvTimes(w) ==> InvTimes(ExpireAll(w, course, now))
  {
    var w' := ExpireAll(w, course, now);
    EvolvingKeys(w, w');
    forall c | c in w'.commands || c in w'.audit ensures RowOk(w', c) && (TrailOk(w, c) ==> TrailOk(w', c)) {
      assert RowOk(w, c);
      ExpireRow(w, course, now, c);
    }
    forall k | k in w'.calls && CallOk(w, k) ensures CallOk(w', k) {
      CallStays(w, w', k);
    }
  }

  lemma DeliverRow(w: World, rows: set<Id>, client: Id, now: int, c: Id)
    requires InvRows(w) && c in w.commands
    requires c in rows && w.commands[c].status.Queued? ==> now < w.commands[c].expiresAt
    ensures RowOk(Deliver(w, rows, client, now), c)
    ensures TrailOk(w, c) ==> TrailOk(Deliver(w, rows, client, now), c)
  {
    assert RowOk(w, c);
    if c in rows && w.commands[c].status.Queued? {
      SpellsOn(w.audit[c], Queued, Entry(Received, Ide, now));
    }
  }

  lemma DeliverKeeps(w: World, rows: set<Id>, client: Id, now: int)
    requires InvRows(w)
    requires forall c :: c in rows ==>
               c in w.commands && (w.commands[c].status.Queued? ==> now < w.commands[c].expiresAt)
    ensures InvRows(Deliver(w, rows, client, now)) && Evolves(w, Deliver(w, rows, client, now))
    ensures InvTimes(w) ==> InvTimes(Deliver(w, rows, client, now))
  {
    var w' := Deliver(w, rows, client, now);
    EvolvingKeys(w, w');
    forall c | c in w'.commands || c in w'.audit ensures RowOk(w', c) && (TrailOk(w, c) ==> TrailOk(w', c)) {
      assert RowOk(w, c);
      DeliverRow(w, rows, client, now, c);
    }
    forall k | k in w'.calls && CallOk(w, k) ensures CallOk(w', k) {
      CallStays(w, w', k);
    }
  }

  lemma PollKeeps(w: World, session: Session, client: Id, now: int, allowed: bool, rows: set<Id>)
    requires InvRows(w)
    ensures var w' := PollStep(w, session, client, now, allowed, rows).0;
            InvRows(w') && Evolves(w, w') && (InvTimes(w) ==> InvTimes(w'))
  {
    var e := ExpireAll(w, session.course, now);
    ExpireKeeps(w, session.course, now);
    if allowed && OwnsClient(w, session, client) && now <= w.clock
        && FirstFive(e, session, client, w.clients[client].assignment, rows) {
      DeliverKeeps(e, rows, client, now);
    }
  }

  lemma AnswerRow(w: World, call: Call, allowed: bool)
    requires InvRows(w) && ReplyOk(call.reply) && ReplyStep(w, call, allowed).1.Fine?
    ensures var w' := ReplyStep(w, call, allowed).0;
            RowOk(w', call.command)
                && (TrailOk(w, call.command) && call.now < w.commands[call.command].expiresAt ==>
                TrailOk(w', call.command))
  {
    assert RowOk(w, call.command);
    SpellsOn(w.audit[call.command], w.commands[call.command].status, Entry(call.reply.status, Learner, call.now));
  }

  lemma ReplyKeeps(w: World, call: Call, allowed: bool)
    requires InvRows(w) && ReplyOk(call.reply)
    ensures var w' := ReplyStep(w, call, allowed).0; InvRows(w') && Evolves(w, w')
  {
    var n := ReplyStep(w, call, allowed);
    EvolvingKeys(w, n.0);
    forall c | c in n.0.commands || c in n.0.audit ensures RowOk(n.0, c) {
      assert RowOk(w, c) || c == call.command;
      if n.1.Fine? && c == call.command {
        AnswerRow(w, call, allowed);
      }
    }
  }

  lemma ReplyOnTime(w: World, k: Id, allowed: bool)
    requires InvRows(w) && InvTimes(w) && k in w.calls
    ensures InvTimes(ReplyStep(w, w.calls[k], allowed).0)
  {
    var n := ReplyStep(w, w.calls[k], allowed);
    assert CallOk(w, k);
    forall c | c in n.0.commands ensures TrailOk(n.0, c) {
      assert TrailOk(w, c);
      if n.1.Fine? && c == w.calls[k].command {
        AnswerRow(w, w.calls[k], allowed);
      }
    }
    forall j | j in n.0.calls ensures CallOk(n.0, j) {
      assert CallOk(w, j);
    }
  }

  function Created(e: World, s: Step): World
    requires s.Create?
  {
    e.(commands := e.commands[s.id := NewRow(s)], audit := e.audit[s.id := [Entry(Queued, Instructor(s.actor), s.now)]])
  }

  /** At most one more than those before, and none more for another student. */
  lemma OneMore(before: set<Id>, after: set<Id>, id: Id)
    requires forall c :: c in after ==> c in before || c == id
    ensures |after| <= |before| + 1
    ensures id !in after ==> |after| <= |before|
  {
    if id in after {
      SubsetSize(after - {id}, before);
    } else {
      SubsetSize(after, before);
    }
  }

  lemma CreatePending(e: World, s: Step, course: Id, student: Id)
    requires s.Create? && s.id !in e.commands
    ensures |PendingOf(Created(e, s), course, student)| <= |PendingOf(e, course, student)| + 1
    ensures !(course == s.course && student == s.student) ==>
              |PendingOf(Created(e, s), course, student)| <= |PendingOf(e, course, student)|
  {
    var before, after := PendingOf(e, course, student), PendingOf(Created(e, s), course, student);
    forall c | c in after ensures c in before || c == s.id {
      assert c != s.id ==> Created(e, s).commands[c] == e.commands[c];
    }
    OneMore(before, after, s.id);
  }

  /** The last command created in a closed hour found fewer than thirty others in it. */
  lemma CreateWithin(e: World, s: Step, course: Id, student: Id, from: int)
    requires s.Create? && s.id !in e.commands
    requires |CreatedFrom(e, s.course, s.student, s.now - HOUR)| < MAX_PER_HOUR
    requires |CreatedWithin(e, course, student, from)| <= MAX_PER_HOUR
    ensures |CreatedWithin(Created(e, s), course, student, from)| <= MAX_PER_HOUR
  {
    var before, after := CreatedWithin(e, course, student, from), CreatedWithin(Created(e, s), course, student, from);
    forall c | c in after ensures c in before || c == s.id {
      assert c != s.id ==> Created(e, s).commands[c] == e.commands[c];
    }
    OneMore(before, after, s.id);
    if s.id in after {
      SubsetSize(before, CreatedFrom(e, course, student, s.now - HOUR));
    }
  }

  lemma CreateCaps(e: World, s: Step, course: Id, student: Id)
    requires s.Create? && s.id !in e.commands && CapsOk(e, course, student)
    requires |PendingOf(e, s.course, s.student)| < MAX_PENDING
    requires |CreatedFrom(e, s.course, s.student, s.now - HOUR)| < MAX_PER_HOUR
    ensures CapsOk(Created(e, s), course, student)
  {
    CreatePending(e, s, course, student);
    forall from ensures |CreatedWithin(Created(e, s), course, student, from)| <= MAX_PER_HOUR {
      assert |CreatedWithin(e, course, student, from)| <= MAX_PER_HOUR;
      CreateWithin(e, s, course, student, from);
    }
  }

  lemma CreatedRows(e: World, s: Step)
    requires s.Create? && InvRows(e) && s.id !in e.commands && s.id !in e.audit && RequestOk(s.request)
    requires !KeyUsed(e, s.course, s.student, s.actor, s.requestKey)
    requires |PendingOf(e, s.course, s.student)| < MAX_PENDING
    requires |CreatedFrom(e, s.course, s.student, s.now - HOUR)| < MAX_PER_HOUR
    ensures InvRows(Created(e, s))
  {
    var w' := Created(e, s);
    forall k, st ensures CapsOk(w', k, st) {
      assert CapsOk(e, k, st);
      CreateCaps(e, s, k, st);
    }
    forall c, d | c in w'.commands && d in w'.commands ensures KeyOk(w', c, d) {
      assert c != s.id && d != s.id ==> KeyOk(e, c, d);
    }
    forall c | c in w'.commands || c in w'.audit ensures RowOk(w', c) {
      assert c != s.id ==> RowOk(e, c);
    }
  }

  /** Reply `k`, under way before the new command exists, names its id, from a clock at or
      after the command's deadline. */
  ghost predicate GuessedBy(w: World, s: Step, k: Id)
    requires s.Create?
  {
    && k in w.calls && w.calls[k].command == s.id && s.id !in w.commands
    && Answers(w, w.calls[k], NewRow(s)) && w.calls[k].now >= s.now + TTL_SECONDS
  }

  ghost predicate Guessed(w: World, s: Step) {
    s.Create? && exists k :: GuessedBy(w, s, k)
  }

  lemma CreatedTimes(e: World, s: Step)
    requires s.Create? && InvTimes(e) && s.id !in e.commands && !Guessed(e, s)
    ensures InvTimes(Created(e, s))
  {
    var w' := Created(e, s);
    forall c | c in w'.commands ensures TrailOk(w', c) {
      assert c != s.id ==> TrailOk(e, c);
    }
    forall k | k in w'.calls ensures CallOk(w', k) {
      assert CallOk(e, k) && !GuessedBy(e, s, k);
    }
  }

  lemma CreateKeeps(w: World, s: Step)
    requires InvRows(w) && s.Create?
    ensures InvRows(CreateStep(w, s).0)
    ensures InvTimes(w) && !Guessed(w, s) ==> InvTimes(CreateStep(w, s).0)
  {
    var e := ExpireAll(w, s.course, s.now);
    ExpireKeeps(w, s.course, s.now);
    if CreateStep(w, s).1.Fine? {
      CreatedRows(e, s);
      if InvTimes(w) && !Guessed(w, s) {
        forall k ensures !GuessedBy(e, s, k) {
          assert !GuessedBy(w, s, k);
        }
        CreatedTimes(e, s);
      }
    }
  }

  lemma CallAddedRows(e: World, call: Id, k: Call)
    requires InvRows(e) && ReplyOk(k.reply)
    ensures InvRows(e.(calls := e.calls[call := k]))
  {
    var w' := e.(calls := e.calls[call := k]);
    EvolvingKeys(e, w');
    forall c | c in w'.commands || c in w'.audit ensures RowOk(w', c) {
      assert RowOk(e, c);
    }
  }

  lemma CallAdded(e: World, call: Id, k: Call)
    requires InvRows(e) && ReplyOk(k.reply) && k.now <= e.clock
    requires k.command in e.commands && Answers(e, k, e.commands[k.command]) ==> k.now < e.commands[k.command].expiresAt
    ensures var w' := e.(calls := e.calls[call := k]); InvRows(w') && (InvTimes(e) ==> InvTimes(w'))
  {
    var w' := e.(calls := e.calls[call := k]);
    CallAddedRows(e, call, k);
    if InvTimes(e) {
      forall c | c in w'.commands ensures TrailOk(w', c) {
        assert TrailOk(e, c);
      }
      forall j | j in w'.calls ensures CallOk(w', j) {
        assert j in e.calls ==> CallOk(e, j);
      }
    }
  }

  lemma StartKeeps(w: World, s: Step)
    requires InvRows(w) && s.StartReply?
    ensures InvRows(Next(w, s).0) && (InvTimes(w) ==> InvTimes(Next(w, s).0))
  {
    if ReplyOk(s.reply) && s.call !in w.calls && s.now <= s.checked <= w.clock {
      ExpireKeeps(w, s.session.course, s.checked);
      CallAdded(ExpireAll(w, s.session.course, s.checked), s.call, Call(s.session, s.command, s.reply, s.now));
    }
  }

  /** Clients, receipts, the clock and the end of a call leave every row as it is. */
  lemma QuietKeeps(w: World, w': World)
    requires InvRows(w) && w'.commands == w.commands && w'.audit == w.audit && w'.clock >= w.clock
    requires forall r :: r in w.receipts ==> r in w'.receipts && w'.receipts[r] == w.receipts[r]
    requires forall k :: k in w'.calls ==> k in w.calls && w'.calls[k] == w.calls[k]
    ensures InvRows(w') && (InvTimes(w) ==> InvTimes(w'))
  {
    EvolvingKeys(w, w');
    forall c | c in w'.commands || c in w'.audit ensures RowOk(w', c) {
      assert RowOk(w, c);
    }
    if InvTimes(w) {
      forall c | c in w'.commands ensures TrailOk(w', c) {
        assert TrailOk(w, c);
      }
      forall k | k in w'.calls ensures CallOk(w', k) {
        assert CallOk(w, k);
      }
    }
  }

  lemma FinishKeeps(w: World, call: Id, allowed: bool)
    requires InvRows(w)
    ensures var w' := Next(w, FinishReply(call, allowed)).0;
            InvRows(w') && (InvTimes(w) ==> InvTimes(w'))
  {
    if call in w.calls {
      var n := ReplyStep(w, w.calls[call], allowed).0;
      ReplyKeeps(w, w.calls[call], allowed);
      if InvTimes(w) {
        ReplyOnTime(w, call, allowed);
      }
      QuietKeeps(n, n.(calls := w.calls - {call}));
    }
  }

  lemma StepKeeps(w: World, step: Step)
    requires InvRows(w)
    ensures InvRows(Next(w, step).0)
    ensures InvTimes(w) && !Guessed(w, step) ==> InvTimes(Next(w, step).0)
  {
    match step
    case Tick(_) => QuietKeeps(w, Next(w, step).0);
    case SetClient(_, _) => QuietKeeps(w, Next(w, step).0);
    case AddReceipt(_, _) => QuietKeeps(w, Next(w, step).0);
    case Create(_, _, _, _, _, _, _, _) => CreateKeeps(w, step);
    case Expire(course, now) => ExpireKeeps(w, course, now);
    case Poll(session, client, now, allowed, rows) => PollKeeps(w, session, client, now, allowed, rows);
    case StartReply(_, _, _, _, _, _) => StartKeeps(w, step);
    case FinishReply(call, allowed) => FinishKeeps(w, call, allowed);
    case DropCall(_) => QuietKeeps(w, Next(w, step).0);
  }

  /** No creation of the run was guessed. */
  ghost predicate NoneGuessed(w: World, steps: seq<Step>)
    decreases |steps|
  {
    steps == [] || (!Guessed(w, steps[0]) && NoneGuessed(Next(w, steps[0]).0, steps[1..]))
  }

  lemma {:induction false} RunKeeps(w: World, steps: seq<Step>)
    requires InvRows(w)
    ensures InvRows(Run(w, steps))
    ensures InvTimes(w) && NoneGuessed(w, steps) ==> InvTimes(Run(w, steps))
    decreases |steps|
  {
    if steps != [] {
      StepKeeps(w, steps[0]);
      RunKeeps(Next(w, steps[0]).0, steps[1..]);
    }
  }

  lemma EmptyIsFine(clock: int)
    ensures InvRows(Empty(clock)) && InvTimes(Empty(clock))
  {
    var w := Empty(clock);
    forall k, st ensures CapsOk(w, k, st) {
      assert PendingOf(w, k, st) == {};
      forall from ensures CreatedWithin(w, k, st, from) == {} {
      }
    }
  }

  // ----------------------------------------------------------------- what never changes

  /** A command keeps its identity, its client once it has one, its trail so far, and all of
      its row once it is finished. */
  ghost predicate Kept(w: World, w': World, c: Id) {
    && c in w.commands && c in w.audit && c in w'.commands && c in w'.audit
    && SameIdentity(w.commands[c], w'.commands[c])
    && (w.commands[c].client.Some? ==> w'.commands[c].client == w.commands[c].client)
    && w.audit[c] <= w'.audit[c]
    && (!Pending(w.commands[c].status) ==> w'.commands[c] == w.commands[c] && w'.audit[c] == w.audit[c])
  }

  lemma ExpireKept(w: World, course: Id, now: int, c: Id)
    requires InvRows(w) && c in w.commands
    ensures Kept(w, ExpireAll(w, course, now), c)
  {
    assert RowOk(w, c);
  }

  lemma PollKept(w: World, session: Session, client: Id, now: int, allowed: bool, rows: set<Id>, c: Id)
    requires InvRows(w) && c in w.commands
    ensures Kept(w, PollStep(w, session, client, now, allowed, rows).0, c)
  {
    var e := ExpireAll(w, session.course, now);
    ExpireKept(w, session.course, now, c);
    ExpireKeeps(w, session.course, now);
    assert RowOk(w, c);
    assert RowOk(e, c);
    assert Kept(e, Deliver(e, rows, client, now), c);
  }

  lemma CreateKept(w: World, s: Step, c: Id)
    requires InvRows(w) && c in w.commands && s.Create?
    ensures Kept(w, CreateStep(w, s).0, c)
  {
    assert RowOk(w, c);
    ExpireKept(w, s.course, s.now, c);
  }

  lemma ReplyKept(w: World, call: Call, allowed: bool, c: Id)
    requires InvRows(w) && c in w.commands
    ensures Kept(w, ReplyStep(w, call, allowed).0, c)
  {
    assert RowOk(w, c);
  }

  lemma ReplyStepKept(w: World, call: Id, allowed: bool, c: Id)
    requires InvRows(w) && c in w.commands
    ensures Kept(w, Next(w, FinishReply(call, allowed)).0, c)
  {
    assert RowOk(w, c);
    if call in w.calls {
      ReplyKept(w, w.calls[call], allowed, c);
    }
  }

  lemma StepKept(w: World, step: Step, c: Id)
    requires InvRows(w) && c in w.commands
    ensures Kept(w, Next(w, step).0, c)
  {
    assert RowOk(w, c);
    match step
    case Create(_, _, _, _, _, _, _, _) => CreateKept(w, step, c);
    case Expire(course, now) => ExpireKept(w, course, now, c);
    case Poll(session, client, now, allowed, rows) => PollKept(w, session, client, now, allowed, rows, c);
    case StartReply(_, session, _, _, _, checked) => ExpireKept(w, session.course, checked, c);
    case FinishReply(call, allowed) => ReplyStepKept(w, call, allowed, c);
    case _ =>
  }

  // ---------------------------------------------------------------- the main results

  /** In every run a command's audit rows spell a legal path ending in its status. */
  lemma TrailSpellsPath(clock: int, steps: seq<Step>, c: Id)
    ensures var w := Run(Empty(clock), steps);
            c in w.commands ==> c in w.audit && Spells(w.audit[c], w.commands[c].status)
  {
    EmptyIsFine(clock);
    RunKeeps(Empty(clock), steps);
    assert c in Run(Empty(clock), steps).commands ==> RowOk(Run(Empty(clock), steps), c);
  }

  lemma NextIsAllowed(trail: seq<Entry>, status: Status, i: nat)
    requires Spells(trail, status) && i < |trail| - 1
    ensures Allowed(trail[i].status, trail[i + 1].status)
  {
  }

  /** Legal paths, written out: a completion was queued, received and accepted, in that order;
      a refusal was received; expiry came after at most those three; nothing follows the end. */
  lemma PathShapes(trail: seq<Entry>, status: Status)
    requires Spells(trail, status)
    ensures |trail| <= 4
    ensures match status
            case Queued => |trail| == 1
            case Received => |trail| == 2
            case Accepted => |trail| == 3 && trail[1].status.Received?
            case Completed => |trail| == 4 && trail[1].status.Received? && trail[2].status.Accepted?
            case Declined => |trail| == 3 && trail[1].status.Received?
            case Failed => |trail| >= 3 && trail[1].status.Received? && (|trail| == 4 ==> trail[2].status.Accepted?)
            case Expired =>
              && |trail| >= 2 && (|trail| >= 3 ==> trail[1].status.Received?)
              && (|trail| == 4 ==> trail[2].status.Accepted?)
  {
    if |trail| > 1 {
      NextIsAllowed(trail, status, 0);
    }
    if |trail| > 2 {
      NextIsAllowed(trail, status, 1);
    }
    if |trail| > 3 {
      NextIsAllowed(trail, status, 2);
    }
    if |trail| > 4 {
      NextIsAllowed(trail, status, 3);
    }
  }

  /** Once delivered, a command's client never changes; once finished, nothing does. */
  lemma {:induction false} SettledStaysSettled(w: World, steps: seq<Step>, c: Id)
    requires InvRows(w) && c in w.commands
    ensures Kept(w, Run(w, steps), c)
    decreases |steps|
  {
    assert RowOk(w, c);
    if steps != [] {
      StepKept(w, steps[0], c);
      StepKeeps(w, steps[0]);
      SettledStaysSettled(Next(w, steps[0]).0, steps[1..], c);
    }
  }

  lemma SettledInEveryRun(clock: int, before: seq<Step>, after: seq<Step>, c: Id)
    requires c in Run(Empty(clock), before).commands
    ensures Kept(Run(Empty(clock), before), Run(Run(Empty(clock), before), after), c)
  {
    EmptyIsFine(clock);
    RunKeeps(Empty(clock), before);
    SettledStaysSettled(Run(Empty(clock), before), after, c);
  }

  /** Repeating the last reply changes nothing, and is not refused while the client may reply. */
  lemma RepeatChangesNothing(clock: int, steps: seq<Step>, call: Call, allowed: bool)
    requires var w := Run(Empty(clock), steps);
             && call.command in w.commands && ReplyOk(call.reply) && w.commands[call.command].last == Some(call.reply)
    ensures var w := Run(Empty(clock), steps);
            var row := w.commands[call.command];
            var n := ReplyStep(w, call, allowed);
            && n.0 == w
            && (row.status.Expired? ==> n.1.Refused?)
            && (!row.status.Expired? && allowed && OwnsClient(w, call.session, call.reply.client)
                && row.course == call.session.course && row.student == call.session.student
                && (row.request.assignment.None? || row.request.assignment == w.clients[call.reply.client].assignment)
                && (Submission(call.reply).None? || (row.request.kind.SaveSubmit? && row.status.Completed?))
                ==> n.1.Duplicate?)
  {
    EmptyIsFine(clock);
    RunKeeps(Empty(clock), steps);
    assert RowOk(Run(Empty(clock), steps), call.command);
  }

  /** A completed save-and-submit names a receipt of the same student and assignment, dated
      no earlier than the recorded acceptance. */
  lemma SubmissionHasReceipt(clock: int, steps: seq<Step>, c: Id)
    requires var w := Run(Empty(clock), steps);
             c in w.commands && w.commands[c].status.Completed? && w.commands[c].request.kind.SaveSubmit?
    ensures var w := Run(Empty(clock), steps);
            var row := w.commands[c];
            && c in w.audit && row.acceptedAt.Some? && Entry(Accepted, Learner, row.acceptedAt.value) in w.audit[c]
            && exists id ::
                 id in w.receipts && w.receipts[id].course == row.course && w.receipts[id].student == row.student
                 && w.receipts[id].assignment == row.request.assignment
                      && w.receipts[id].receivedAt >= row.acceptedAt.value
  {
    EmptyIsFine(clock);
    RunKeeps(Empty(clock), steps);
    var w := Run(Empty(clock), steps);
    assert RowOk(w, c);
    assert HasReceipt(w, w.commands[c], Submission(w.commands[c].last.value));
  }

  /** At most five commands of a student are pending and at most thirty were created in any
      closed hour, whatever the clocks of the callers say. */
  lemma CapsHold(clock: int, steps: seq<Step>, course: Id, student: Id, from: int)
    ensures var w := Run(Empty(clock), steps);
            |PendingOf(w, course, student)| <= MAX_PENDING && |CreatedWithin(w, course, student, from)| <= MAX_PER_HOUR
  {
    EmptyIsFine(clock);
    RunKeeps(Empty(clock), steps);
    var w := Run(Empty(clock), steps);
    assert CapsOk(w, course, student);
    assert |CreatedWithin(w, course, student, from)| <= MAX_PER_HOUR;
  }

  /** A request key names at most one command. */
  lemma KeyNamesOne(clock: int, steps: seq<Step>, c: Id, d: Id)
    requires var w := Run(Empty(clock), steps);
             && c in w.commands && d in w.commands
             && SameKey(w.commands[d], w.commands[c].course, w.commands[c].student, w.commands[c].createdBy,
                  w.commands[c].requestKey)
    ensures c == d
  {
    EmptyIsFine(clock);
    RunKeeps(Empty(clock), steps);
    assert KeyOk(Run(Empty(clock), steps), c, d);
  }
}
