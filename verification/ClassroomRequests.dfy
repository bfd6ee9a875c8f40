/** What a request from an instructor comes to: exactly one of a new command, the one its key
    already names, or a refusal that leaves no trace. */
module ClassroomRequests {
  import opened Common
  import opened ClassroomCommands

  /** The command whose creation this request would be repeating. */
  predicate Named(w: World, s: Step, c: Id)
    requires s.Create?
  {
    && c in w.commands && w.commands[c].course == s.course && w.commands[c].student == s.student
    && w.commands[c].createdBy == s.actor && w.commands[c].requestKey == s.requestKey
  }

  /** Commands of the student that wait and are not due for expiry at `now`. */
  function Waiting(w: World, course: Id, student: Id, now: int): set<Id> {
    set c | c in w.commands && w.commands[c].course == course && w.commands[c].student == student
            && w.commands[c].status in {Queued, Received, Accepted} && now < w.commands[c].expiresAt
  }

  /** Commands of the student created within the hour that ends at `now`, or later. */
  function Recent(w: World, course: Id, student: Id, now: int): set<Id> {
    set c | c in w.commands && w.commands[c].course == course && w.commands[c].student == student
            && w.commands[c].createdAt >= now - 3600
  }

  /** Rows and trails as they were, except that due commands of the course have expired. */
  ghost predicate OnlyExpiries(w: World, w': World, course: Id, now: int, c: Id)
    requires c in w.commands && c in w.audit
  {
    && c in w'.commands && c in w'.audit
    && var row := w.commands[c];
    if row.course == course && row.status in {Queued, Received, Accepted} && row.expiresAt <= now then
      && w'.commands[c] == row.(status := Expired, finishedAt := Some(now), code := Some(TimedOut))
      && w'.audit[c] == w.audit[c] + [Entry(Expired, Server, now)]
    else w'.commands[c] == row && w'.audit[c] == w.audit[c]
  }

  lemma CountsAgree(w: World, course: Id, student: Id, now: int)
    ensures PendingOf(ExpireAll(w, course, now), course, student) == Waiting(w, course, student, now)
    ensures CreatedFrom(ExpireAll(w, course, now), course, student, now - HOUR) == Recent(w, course, student, now)
  {
  }

  lemma KeysAgree(w: World, s: Step)
    requires s.Create?
    ensures var e := ExpireAll(w, s.course, s.now);
            && (KeyUsed(e, s.course, s.student, s.actor, s.requestKey) <==> exists c :: Named(w, s, c))
            && forall c :: c in e.commands && SameKey(e.commands[c], s.course, s.student, s.actor, s.requestKey) <==>
                 Named(w, s, c)
  {
    var e := ExpireAll(w, s.course, s.now);
    forall c ensures c in e.commands && SameKey(e.commands[c], s.course, s.student, s.actor, s.requestKey) <==>
                       Named(w, s, c) {
    }
  }

  /** In every run: a request whose key names a command is answered with that command if it is the
      same request, and refused without a trace if it is a different one; in neither case is there
      a new command. */
  lemma UsedKeyDecides(clock: int, steps: seq<Step>, s: Step, c: Id)
    requires s.Create? && Named(Run(Empty(clock), steps), s, c)
    requires s.allowed && RequestOk(s.request) && s.now <= Run(Empty(clock), steps).clock
    ensures var w := Run(Empty(clock), steps);
            var n := Next(w, s);
            && n.0.commands.Keys == w.commands.Keys
            && (w.commands[c].request == s.request ==> n.1 == Duplicate)
            && (w.commands[c].request != s.request ==> n == (w, Refused))
  {
    EmptyIsFine(clock);
    RunKeeps(Empty(clock), steps);
    var w := Run(Empty(clock), steps);
    var e := ExpireAll(w, s.course, s.now);
    KeysAgree(w, s);
    forall d | Named(w, s, d) ensures d == c {
      assert KeyOk(w, c, d);
    }
    assert e.commands[c].request == w.commands[c].request;
  }

  /** In every run: a request with a new key makes a command exactly if it is well formed and
      allowed, the clock has been read before, fewer than five commands of the student wait and
      fewer than thirty were created within the hour.  A refusal leaves no trace. */
  lemma NewKeyCreatesIff(clock: int, steps: seq<Step>, s: Step)
    requires s.Create? && (forall c :: !Named(Run(Empty(clock), steps), s, c))
    requires s.id !in Run(Empty(clock), steps).commands
    ensures var w := Run(Empty(clock), steps);
            var n := Next(w, s);
            && (n.1 == Fine <==>
                  && s.allowed && RequestOk(s.request) && s.now <= w.clock
                  && |Waiting(w, s.course, s.student, s.now)| < 5 && |Recent(w, s.course, s.student, s.now)| < 30)
            && (n.1 != Fine ==> n == (w, Refused))
  {
    EmptyIsFine(clock);
    RunKeeps(Empty(clock), steps);
    var w := Run(Empty(clock), steps);
    KeysAgree(w, s);
    CountsAgree(w, s.course, s.student, s.now);
    assert s.id in w.audit ==> RowOk(w, s.id);
  }

  /** The command that appears is queued, carries the request and lives for ten minutes; all others
      are as they were, except that due ones of the course have expired. */
  lemma CreatedAsAsked(clock: int, steps: seq<Step>, s: Step, c: Id)
    requires s.Create? && Next(Run(Empty(clock), steps), s).1 == Fine
    ensures var w := Run(Empty(clock), steps);
            var w' := Next(w, s).0;
            && s.id !in w.commands && w'.commands.Keys == w.commands.Keys + {s.id}
            && var row := w'.commands[s.id];
            && Named(w', s, s.id) && row.request == s.request && row.status == Queued
            && row.createdAt == s.now && row.expiresAt == s.now + TTL_SECONDS && row.client.None?
            && row.receivedAt.None? && row.acceptedAt.None? && row.finishedAt.None? && row.last.None?
            && s.id in w'.audit && |w'.audit[s.id]| == 1 && w'.audit[s.id][0].status == Queued
            && w'.audit[s.id][0].at == s.now
            && (c in w.commands && c in w.audit ==> OnlyExpiries(w, w', s.course, s.now, c))
            && w'.clients == w.clients && w'.receipts == w.receipts && w'.calls == w.calls && w'.clock == w.clock
  {
    var w := Run(Empty(clock), steps);
    var w' := Next(w, s).0;
    assert w'.commands.Keys == w.commands.Keys + {s.id};
  }

  // ------------------------------------------------------------------------ polls

  /** Waiting commands a client may be shown: its own, or queued ones it suits. */
  predicate MayShow(w: World, session: Session, client: Id, now: int, c: Id)
    requires client in w.clients
  {
    && c in w.commands
    && var row := w.commands[c];
    && row.course == session.course && row.student == session.student && now < row.expiresAt
    && (row.request.assignment.None? || row.request.assignment == w.clients[client].assignment)
    && (row.status == Queued || (row.client == Some(client) && row.status in {Received, Accepted}))
  }

  /** Those among them that are older, by creation and then by id. */
  function OlderShown(w: World, session: Session, client: Id, now: int, c: Id): set<Id>
    requires client in w.clients && c in w.commands
  {
    set d | d in w.commands && MayShow(w, session, client, now, d)
            && (w.commands[d].createdAt < w.commands[c].createdAt
                || (w.commands[d].createdAt == w.commands[c].createdAt && d < c))
  }

  lemma EligibleIff(w: World, session: Session, client: Id, now: int, c: Id)
    requires client in w.clients && c in w.commands
    ensures var e := ExpireAll(w, session.course, now);
            && e.commands[c].createdAt == w.commands[c].createdAt
            && (Eligible(e.commands[c], session, client, w.clients[client].assignment) <==>
                  MayShow(w, session, client, now, c))
  {
  }

  lemma SubsetIsSmaller(a: set<Id>, b: set<Id>)
    requires a <= b
    ensures |a| <= |b|
    decreases a
  {
    if a != {} {
      var x :| x in a;
      SubsetIsSmaller(a - {x}, b - {x});
    }
  }

  /** A poll takes exactly the commands it may show that have fewer than five older ones. */
  lemma PollTakesTheFiveOldest(w: World, session: Session, client: Id, now: int, rows: set<Id>, c: Id)
    requires Next(w, Poll(session, client, now, true, rows)).1 == Fine
    ensures client in w.clients
    ensures c in rows <==>
              c in w.commands && MayShow(w, session, client, now, c) && |OlderShown(w, session, client, now, c)| < 5
  {
    var e := ExpireAll(w, session.course, now);
    forall d | d in w.commands
      ensures e.commands[d].createdAt == w.commands[d].createdAt
      ensures Eligible(e.commands[d], session, client, w.clients[client].assignment) <==>
                MayShow(w, session, client, now, d)
    {
      EligibleIff(w, session, client, now, d);
    }
    if c in rows {
      OlderAreTaken(w, e, session, client, now, rows, c);
      SubsetIsSmaller(OlderShown(w, session, client, now, c), rows - {c});
    } else if c in w.commands && MayShow(w, session, client, now, c) {
      assert rows <= OlderShown(w, session, client, now, c) by {
        forall d | d in rows ensures d in OlderShown(w, session, client, now, c) {
          assert Before(e.commands[d], d, e.commands[c], c);
        }
      }
      SubsetIsSmaller(rows, OlderShown(w, session, client, now, c));
    }
  }

  lemma OlderAreTaken(w: World, e: World, session: Session, client: Id, now: int, rows: set<Id>, c: Id)
    requires client in w.clients && e.commands.Keys == w.commands.Keys && c in rows
    requires FirstFive(e, session, client, w.clients[client].assignment, rows)
    requires forall d :: d in w.commands ==>
               && e.commands[d].createdAt == w.commands[d].createdAt
               && (Eligible(e.commands[d], session, client, w.clients[client].assignment) <==>
                     MayShow(w, session, client, now, d))
    ensures c in w.commands && OlderShown(w, session, client, now, c) <= rows - {c}
  {
    forall d | d in OlderShown(w, session, client, now, c) ensures d in rows - {c} {
      assert Eligible(e.commands[d], session, client, w.clients[client].assignment);
      assert !Before(e.commands[c], c, e.commands[d], d);
    }
  }

  /** The queued ones among them go to the client, each with its audit row; every other command is
      as it was, except that due ones of the course have expired. */
  lemma PollDelivers(w: World, session: Session, client: Id, now: int, rows: set<Id>, c: Id)
    requires Next(w, Poll(session, client, now, true, rows)).1 == Fine
    requires c in w.commands && c in w.audit
    ensures var w' := Next(w, Poll(session, client, now, true, rows)).0;
            && w'.commands.Keys == w.commands.Keys && w'.clients == w.clients && w'.receipts == w.receipts
            && if c in rows && w.commands[c].status == Queued then
                 && c in w'.commands && c in w'.audit
                 && w'.commands[c]
                    == w.commands[c].(status := Received, client := Some(client), receivedAt := Some(now))
                 && w'.audit[c] == w.audit[c] + [Entry(Received, Ide, now)]
               else OnlyExpiries(w, w', session.course, now, c)
  {
    var e := ExpireAll(w, session.course, now);
    assert c in rows ==> Eligible(e.commands[c], session, client, w.clients[client].assignment);
    assert Next(w, Poll(session, client, now, true, rows)).0.commands.Keys == w.commands.Keys;
  }

  // ---------------------------------------------------------------------- replies

  /** What a reply that takes effect writes, and what a completion must come with. */
  lemma ReplyWrites(w: World, k: Id, allowed: bool)
    requires k in w.calls && Next(w, FinishReply(k, allowed)).1 == Fine
    ensures var call := w.calls[k];
            var w' := Next(w, FinishReply(k, allowed)).0;
            && call.command in w.commands && call.command in w.audit
            && var row, reply := w.commands[call.command], call.reply;
            && w'.commands == w.commands[call.command := row.(
                 status := reply.status, code := reply.code, result := reply.result, last := Some(reply),
                 acceptedAt := if reply.status == Accepted then Some(call.now) else row.acceptedAt,
                 finishedAt := if reply.status in {Queued, Received, Accepted} then None else Some(call.now))]
            && w'.audit == w.audit[call.command := w.audit[call.command] + [Entry(reply.status, Learner, call.now)]]
            && w'.clients == w.clients && w'.receipts == w.receipts && w'.calls == w.calls - {k}
            && (reply.status == Completed ==>
                  && reply.code == Some(Done(row.request.kind))
                  && (row.request.kind == CheckEnvironment ==>
                        reply.result.Some?
                        && reply.result.value.checks == Some({ServerOk, Workspace, Compiler, Os, Remote})))
  {
  }

  /** Only an open client of the very session polls or replies with any effect. */
  lemma OnlyOpenClientsAct(w: World, step: Step)
    requires step.Poll? || step.FinishReply?
    requires Next(w, step).1 != Refused
    ensures step.FinishReply? ==> step.call in w.calls
    ensures var session := if step.Poll? then step.session else w.calls[step.call].session;
            var client := if step.Poll? then step.client else w.calls[step.call].reply.client;
            client in w.clients && !w.clients[client].closed && w.clients[client].session == session
  {
  }

  /** A reply counts as a repetition only if it is the very reply recorded last. */
  lemma RepeatedIsTheSame(w: World, k: Id, allowed: bool)
    requires k in w.calls && Next(w, FinishReply(k, allowed)).1 == Duplicate
    ensures var call := w.calls[k];
            && call.command in w.commands && w.commands[call.command].last == Some(call.reply)
            && w.commands[call.command].status == call.reply.status
            && Next(w, FinishReply(k, allowed)).0 == w.(calls := w.calls - {k})
  {
  }

  // ------------------------------------------------------------- what rows look like

  /** A notice says something; any other request names an assignment; no message is too long. */
  predicate Sensible(r: Request) {
    && |r.message| <= 1000
    && (r.kind != Notice ==> r.assignment.Some?)
    && (r.kind == Notice ==> exists i :: 0 <= i < |r.message| && r.message[i] !in {' ', '\n', '\t'})
  }

  /** The code tells how a command ended, and is there exactly if it has ended. */
  predicate CodeFits(row: Row) {
    match row.status
    case Queued => row.code == None
    case Received => row.code == None
    case Accepted => row.code == None
    case Completed => row.code == Some(Done(row.request.kind))
    case Declined => row.code == Some(StudentDeclined)
    case Failed => row.code.Some? && row.code.value.Failure?
    case Expired => row.code == Some(TimedOut)
  }

  ghost predicate RowReads(w: World, c: Id) {
    c in w.commands ==> Sensible(w.commands[c].request) && CodeFits(w.commands[c])
  }

  lemma ExpiryReads(w: World, course: Id, now: int, c: Id)
    requires RowReads(w, c)
    ensures RowReads(ExpireAll(w, course, now), c)
  {
  }

  lemma CreatedReads(w: World, s: Step, c: Id)
    requires s.Create? && RowReads(w, c) && RequestOk(s.request)
    ensures RowReads(Created(w, s), c)
  {
  }

  lemma CreateReads(w: World, s: Step, c: Id)
    requires s.Create? && RowReads(w, c)
    ensures RowReads(CreateStep(w, s).0, c)
  {
    ExpiryReads(w, s.course, s.now, c);
    if CreateStep(w, s).1 == Fine {
      CreatedReads(ExpireAll(w, s.course, s.now), s, c);
    }
  }

  lemma PollReads(w: World, session: Session, client: Id, now: int, allowed: bool, rows: set<Id>, c: Id)
    requires RowReads(w, c)
    ensures RowReads(PollStep(w, session, client, now, allowed, rows).0, c)
  {
    ExpiryReads(w, session.course, now, c);
  }

  lemma ReplyReads(w: World, k: Id, allowed: bool, c: Id)
    requires InvRows(w) && RowReads(w, c)
    ensures RowReads(Next(w, FinishReply(k, allowed)).0, c)
  {
    if k in w.calls {
      assert ReplyOk(w.calls[k].reply);
      if Next(w, FinishReply(k, allowed)).1 == Fine {
        ReplyWrites(w, k, allowed);
      }
    }
  }

  lemma {:induction false} RunReads(w: World, steps: seq<Step>, c: Id)
    requires InvRows(w) && RowReads(w, c)
    ensures RowReads(Run(w, steps), c)
    decreases |steps|
  {
    if steps != [] {
      StepKeeps(w, steps[0]);
      StepReads(w, steps[0], c);
      RunReads(Next(w, steps[0]).0, steps[1..], c);
    }
  }

  lemma StepReads(w: World, step: Step, c: Id)
    requires InvRows(w) && RowReads(w, c)
    ensures RowReads(Next(w, step).0, c)
  {
    match step
    case Create(_, _, _, _, _, _, _, _) => CreateReads(w, step, c);
    case Poll(session, client, now, allowed, rows) => PollReads(w, session, client, now, allowed, rows, c);
    case FinishReply(call, allowed) => ReplyReads(w, call, allowed, c);
    case _ =>
  }

  /** In every run, every command's request is sensible and its code tells how it ended. */
  lemma CommandsReadWell(clock: int, steps: seq<Step>, c: Id)
    requires c in Run(Empty(clock), steps).commands
    ensures var row := Run(Empty(clock), steps).commands[c];
            Sensible(row.request) && CodeFits(row)
  {
    EmptyIsFine(clock);
    RunReads(Empty(clock), steps, c);
  }
}
