/** What the deadline of an instructor's request guarantees: for the times recorded in its audit
    trail, and for the clock at the moment a delivery or a reply takes effect. */
module ClassroomDeadlines {
  import opened Common
  import opened ClassroomCommands

  // ---------------------------------------------------------------- recorded times

  /** No delivery or reply is recorded with a time at or after the deadline, and no expiry with
      one before it, unless a reply guessed the command's id.  The time of a reply is the one
      its call began with. */
  lemma StampsRespectDeadline(clock: int, steps: seq<Step>, c: Id)
    requires NoneGuessed(Empty(clock), steps)
    ensures var w := Run(Empty(clock), steps);
            c in w.commands ==> c in w.audit && OnTime(w.audit[c], w.commands[c].expiresAt)
  {
    EmptyIsFine(clock);
    RunKeeps(Empty(clock), steps);
    assert c in Run(Empty(clock), steps).commands ==> TrailOk(Run(Empty(clock), steps), c);
  }

  /** Every reply of the run names a command that exists when the reply begins. */
  ghost predicate AllKnown(w: World, steps: seq<Step>)
    decreases |steps|
  {
    steps == [] || ((steps[0].StartReply? ==> steps[0].command in w.commands)
        && AllKnown(Next(w, steps[0]).0, steps[1..]))
  }

  ghost predicate CallsKnown(w: World) {
    forall k :: k in w.calls ==> w.calls[k].command in w.commands
  }

  lemma KnownStep(w: World, step: Step)
    requires CallsKnown(w) && (step.StartReply? ==> step.command in w.commands)
    ensures CallsKnown(Next(w, step).0) && !Guessed(w, step)
  {
  }

  lemma {:induction false} KnownRun(w: World, steps: seq<Step>)
    requires CallsKnown(w) && AllKnown(w, steps)
    ensures NoneGuessed(w, steps)
    decreases |steps|
  {
    if steps != [] {
      KnownStep(w, steps[0]);
      KnownRun(Next(w, steps[0]).0, steps[1..]);
    }
  }

  /** Clients answer commands they were given; then every recorded time respects the deadline,
      however late calls are recorded. */
  lemma KnownRepliesRespectDeadline(clock: int, steps: seq<Step>, c: Id)
    requires AllKnown(Empty(clock), steps)
    ensures var w := Run(Empty(clock), steps);
            c in w.commands ==> c in w.audit && OnTime(w.audit[c], w.commands[c].expiresAt)
  {
    KnownRun(Empty(clock), steps);
    StampsRespectDeadline(clock, steps, c);
  }

  /** Something other than expiry is recorded at or after the deadline of `c`, or expiry before it. */
  ghost predicate LateStamp(w: World, c: Id) {
    c in w.commands && c in w.audit && !OnTime(w.audit[c], w.commands[c].expiresAt)
  }

  ghost predicate MayBeLate(w: World, c: Id) {
    exists steps {:trigger Run(w, steps)} :: NoneGuessed(w, steps) && LateStamp(Run(w, steps), c)
  }

  /** The condition is exact: a new command can get a late entry just when some reply is already
      under way that names its id, fits its request and began at or after its deadline. */
  lemma LateStampIffGuessed(clock: int, steps: seq<Step>, s: Step)
    requires NoneGuessed(Empty(clock), steps) && s.Create? && CreateStep(Run(Empty(clock), steps), s).1.Fine?
    ensures var w := Run(Empty(clock), steps);
            MayBeLate(Next(w, s).0, s.id) <==> Guessed(w, s)
  {
    EmptyIsFine(clock);
    RunKeeps(Empty(clock), steps);
    var w := Run(Empty(clock), steps);
    StepKeeps(w, s);
    var w1 := Next(w, s).0;
    if Guessed(w, s) {
      var k :| GuessedBy(w, s, k);
      assert Admissible(w1, NewRow(s), w1.calls[k].reply);
      GuessComesThrough(w1, s, k);
    } else {
      forall more | NoneGuessed(w1, more) ensures !LateStamp(Run(w1, more), s.id) {
        NeverLate(w1, more, s.id);
      }
    }
  }

  lemma NeverLate(w: World, steps: seq<Step>, c: Id)
    requires InvRows(w) && InvTimes(w) && NoneGuessed(w, steps)
    ensures !LateStamp(Run(w, steps), c)
  {
    RunKeeps(w, steps);
    assert c in Run(w, steps).commands ==> TrailOk(Run(w, steps), c);
  }

  lemma RunFirst(w: World, step: Step, rest: seq<Step>)
    ensures Run(w, [step] + rest) == Run(Next(w, step).0, rest)
  {
    assert ([step] + rest)[1..] == rest;
  }

  lemma LateNow(w: World, c: Id)
    requires LateStamp(w, c)
    ensures MayBeLate(w, c)
  {
    assert Run(w, []) == w && NoneGuessed(w, []);
  }

  lemma LateLater(w: World, step: Step, c: Id)
    requires !step.Create? && MayBeLate(Next(w, step).0, c)
    ensures MayBeLate(w, c)
  {
    var more :| NoneGuessed(Next(w, step).0, more) && LateStamp(Run(Next(w, step).0, more), c);
    RunFirst(w, step, more);
    assert ([step] + more)[1..] == more && NoneGuessed(w, [step] + more);
    assert LateStamp(Run(w, [step] + more), c);
  }

  /** The command `s` made is with the client of the late reply `k`, which may answer it. */
  ghost predicate Held(w: World, s: Step, k: Id)
    requires s.Create?
  {
    && s.now <= w.clock && k in w.calls && s.id in w.commands && s.id in w.audit && w.calls[k].command == s.id &&
    var row, call := w.commands[s.id], w.calls[k];
    && row.course == s.course == call.session.course && row.student == s.student == call.session.student
    && row.request == s.request && row.expiresAt == s.now + TTL_SECONDS <= call.now
    && row.client == Some(call.reply.client) && OwnsClient(w, call.session, call.reply.client)
    && w.clients[call.reply.client].assignment == s.request.assignment
    && ReplyOk(call.reply) && Admissible(w, row, call.reply)
  }

  /** A client connects, is given the command, and the reply comes through: at once, or after an
      acceptance if it is a completion. */
  lemma GuessComesThrough(w: World, s: Step, k: Id)
    requires InvRows(w) && s.Create? && s.now <= w.clock && s.id in w.commands && w.commands[s.id] == NewRow(s)
    requires k in w.calls && w.calls[k].command == s.id
    requires Answers(w, w.calls[k], NewRow(s)) && w.calls[k].now >= s.now + TTL_SECONDS
    ensures MayBeLate(w, s.id)
  {
    var call := w.calls[k];
    var client := call.reply.client;
    var connect := SetClient(client, Client(call.session, false, s.request.assignment));
    var w1 := Next(w, connect).0;
    QuietKeeps(w, w1);
    var rows := Everything(w1, call.session, client, s.request.assignment, s.now);
    var poll := Poll(call.session, client, s.now, true, rows);
    Delivered(w1, s, k, rows);
    var w2 := Next(w1, poll).0;
    if call.reply.status.Completed? {
      CompletionComesThrough(w2, s, k);
    } else {
      FirstReplyIsLate(w2, s, k);
      LateNow(Next(w2, FinishReply(k, true)).0, s.id);
      LateLater(w2, FinishReply(k, true), s.id);
    }
    LateLater(w1, poll, s.id);
    LateLater(w, connect, s.id);
  }

  /** A student never has more pending commands than one poll takes. */
  lemma Everything(w: World, session: Session, client: Id, assignment: Option<Id>, now: int) returns (rows: set<Id>)
    requires InvRows(w)
    ensures var e := ExpireAll(w, session.course, now);
            && FirstFive(e, session, client, assignment, rows)
            && forall c :: c in e.commands && Eligible(e.commands[c], session, client, assignment) ==> c in rows
  {
    var e := ExpireAll(w, session.course, now);
    ExpireKeeps(w, session.course, now);
    rows := set c | c in e.commands && Eligible(e.commands[c], session, client, assignment);
    assert CapsOk(e, session.course, session.student);
    SubsetSize(rows, PendingOf(e, session.course, session.student));
  }

  lemma Delivered(w: World, s: Step, k: Id, rows: set<Id>)
    requires InvRows(w) && s.Create? && s.now <= w.clock && s.id in w.commands && w.commands[s.id] == NewRow(s)
    requires k in w.calls && w.calls[k].command == s.id
    requires Answers(w, w.calls[k], NewRow(s)) && w.calls[k].now >= s.now + TTL_SECONDS
    requires var call := w.calls[k];
             && OwnsClient(w, call.session, call.reply.client)
             && w.clients[call.reply.client].assignment == s.request.assignment
             && FirstFive(ExpireAll(w, s.course, s.now), call.session, call.reply.client, s.request.assignment, rows)
             && s.id in rows
    ensures var call := w.calls[k];
            var w' := Next(w, Poll(call.session, call.reply.client, s.now, true, rows)).0;
            Held(w', s, k) && w'.commands[s.id].status.Received?
  {
    assert RowOk(w, s.id) && ReplyOk(w.calls[k].reply);
  }

  /** The last entry of the trail of `c` is late. */
  lemma LastIsLate(w: World, c: Id, before: seq<Entry>, e: Entry)
    requires c in w.commands && c in w.audit && w.audit[c] == before + [e]
    requires !e.status.Expired? && e.at >= w.commands[c].expiresAt
    ensures LateStamp(w, c)
  {
    assert w.audit[c][|before|] == e;
  }

  lemma FirstReplyIsLate(w: World, s: Step, k: Id)
    requires s.Create? && Held(w, s, k) && w.commands[s.id].status.Received? && !w.calls[k].reply.status.Completed?
    ensures LateStamp(Next(w, FinishReply(k, true)).0, s.id)
  {
    var call := w.calls[k];
    assert ReplyStep(w, call, true).1.Fine?;
    LastIsLate(Next(w, FinishReply(k, true)).0, s.id, w.audit[s.id], Entry(call.reply.status, Learner, call.now));
  }

  lemma {:induction false} Above(ids: set<Id>) returns (n: Id)
    ensures forall i :: i in ids ==> i < n
    decreases |ids|
  {
    n := 0;
    if ids != {} {
      var i :| i in ids;
      var m := Above(ids - {i});
      n := if m <= i then i + 1 else m;
      forall j | j in ids ensures j < n {
        assert j != i ==> j in ids - {i};
      }
    }
  }

  lemma CompletionComesThrough(w: World, s: Step, k: Id)
    requires s.Create? && Held(w, s, k) && w.commands[s.id].status.Received? && w.calls[k].reply.status.Completed?
    ensures MayBeLate(w, s.id)
  {
    var call := w.calls[k];
    var second := Above(w.calls.Keys);
    var receipt := Submission(call.reply);
    var at := if receipt.Some? && receipt.value in w.receipts && w.receipts[receipt.value].receivedAt < s.now
              then w.receipts[receipt.value].receivedAt else s.now;
    var start := StartReply(second, call.session, s.id, Reply(call.reply.client, Accepted, None, None), at, s.now);
    AcceptFirst(w, s, k, second, at);
    var w1 := Next(w, start).0;
    var w2 := Next(w1, FinishReply(second, true)).0;
    if receipt.Some? && receipt.value !in w2.receipts {
      var add := AddReceipt(receipt.value, Receipt(s.course, s.student, s.request.assignment, at));
      CompletionIsLate(Next(w2, add).0, s, k);
      LateNow(Next(Next(w2, add).0, FinishReply(k, true)).0, s.id);
      LateLater(Next(w2, add).0, FinishReply(k, true), s.id);
      LateLater(w2, add, s.id);
    } else {
      CompletionIsLate(w2, s, k);
      LateNow(Next(w2, FinishReply(k, true)).0, s.id);
      LateLater(w2, FinishReply(k, true), s.id);
    }
    LateLater(w1, FinishReply(second, true), s.id);
    LateLater(w, start, s.id);
  }

  lemma AcceptFirst(w: World, s: Step, k: Id, second: Id, at: int)
    requires s.Create? && Held(w, s, k) && w.commands[s.id].status.Received? && second !in w.calls && at <= s.now
    ensures var accept := Reply(w.calls[k].reply.client, Accepted, None, None);
            var w1 := Next(w, StartReply(second, w.calls[k].session, s.id, accept, at, s.now)).0;
            var w2 := Next(w1, FinishReply(second, true)).0;
            && Held(w2, s, k) && w2.calls[k] == w.calls[k] && w2.receipts == w.receipts
            && w2.commands[s.id].status.Accepted? && w2.commands[s.id].acceptedAt == Some(at)
  {
    var call := w.calls[k];
    var accept := Reply(call.reply.client, Accepted, None, None);
    var w1 := Next(w, StartReply(second, call.session, s.id, accept, at, s.now)).0;
    assert w1.commands[s.id] == w.commands[s.id] && w1.calls[second] == Call(call.session, s.id, accept, at);
    assert ReplyStep(w1, w1.calls[second], true).1.Fine?;
  }

  lemma CompletionIsLate(w: World, s: Step, k: Id)
    requires s.Create? && Held(w, s, k) && w.commands[s.id].status.Accepted? && w.calls[k].reply.status.Completed?
    requires s.request.kind.SaveSubmit? ==> HasReceipt(w, w.commands[s.id], Submission(w.calls[k].reply))
    ensures LateStamp(Next(w, FinishReply(k, true)).0, s.id)
  {
    var call := w.calls[k];
    assert CompletionOk(w, w.commands[s.id], call.reply);
    assert ReplyStep(w, call, true).1.Fine?;
    LastIsLate(Next(w, FinishReply(k, true)).0, s.id, w.audit[s.id], Entry(Completed, Learner, call.now));
  }

  const LATE_SESSION := Session(1, 1, 1)
  const LATE_REPLY := Reply(7, Accepted, None, None)
  const LATE_CREATE := Create(5, 1, 1, 9, Request(Notice, None, "hi"), 2, 400, true)

  /** A reply under way at 1000 and no command yet. */
  function BeforeLate(): World {
    World(map[], map[], map[7 := Client(LATE_SESSION, false, None)], map[],
        map[1 := Call(LATE_SESSION, 5, LATE_REPLY, 1000)], 1000)
  }

  lemma LateStart()
    ensures Next(Next(Empty(1000), SetClient(7, Client(LATE_SESSION, false, None))).0,
                 StartReply(1, LATE_SESSION, 5, LATE_REPLY, 1000, 1000)).0 == BeforeLate()
  {
    var w0 := Next(Empty(1000), SetClient(7, Client(LATE_SESSION, false, None))).0;
    assert ExpireAll(w0, 1, 1000) == w0;
  }

  lemma LateInsert()
    ensures Next(BeforeLate(), LATE_CREATE) == (Created(BeforeLate(), LATE_CREATE), Fine)
  {
    var w := BeforeLate();
    var e := ExpireAll(w, 1, 400);
    assert e == w;
    assert PendingOf(e, 1, 1) == {} && CreatedFrom(e, 1, 1, 400 - HOUR) == {};
    assert LATE_CREATE.request.message[0] == 'h';
  }

  lemma LatePoll()
    ensures var w := Created(BeforeLate(), LATE_CREATE);
            Next(w, Poll(LATE_SESSION, 7, 999, true, {5})) == (Deliver(w, {5}, 7, 999), Fine)
  {
    var w := Created(BeforeLate(), LATE_CREATE);
    var e := ExpireAll(w, 1, 999);
    assert e.commands == w.commands;
    assert e.audit == w.audit;
  }

  lemma LateReply()
    ensures var w := Next(Deliver(Created(BeforeLate(), LATE_CREATE), {5}, 7, 999), FinishReply(1, true)).0;
            5 in w.commands && 5 in w.audit && !OnTime(w.audit[5], w.commands[5].expiresAt)
  {
    var w := Deliver(Created(BeforeLate(), LATE_CREATE), {5}, 7, 999);
    var end := Next(w, FinishReply(1, true)).0;
    assert w.commands[5].status.Received? && w.commands[5].client == Some(7);
    assert end.audit[5] == w.audit[5] + [Entry(Accepted, Learner, 1000)];
    assert end.audit[5][|w.audit[5]|] == Entry(Accepted, Learner, 1000);
  }

  lemma LateEnd()
    ensures Run(BeforeLate(), [LATE_CREATE] + ([Poll(LATE_SESSION, 7, 999, true, {5})] + ([FinishReply(1, true)] + [])))
            == Next(Deliver(Created(BeforeLate(), LATE_CREATE), {5}, 7, 999), FinishReply(1, true)).0
  {
    var s3, s4 := Poll(LATE_SESSION, 7, 999, true, {5}), FinishReply(1, true);
    LateInsert();
    LatePoll();
    RunFirst(BeforeLate(), LATE_CREATE, [s3] + ([s4] + []));
    RunFirst(Created(BeforeLate(), LATE_CREATE), s3, [s4] + []);
    RunFirst(Deliver(Created(BeforeLate(), LATE_CREATE), {5}, 7, 999), s4, []);
  }

  /** One such run: a creation recorded a lifetime after its clock was read, between the two
      transactions of a reply that guessed the id, lets that reply in at the deadline. */
  lemma LateCreation()
    ensures exists steps {:trigger Run(Empty(1000), steps)} :: var w := Run(Empty(1000), steps);
              5 in w.commands && 5 in w.audit && !OnTime(w.audit[5], w.commands[5].expiresAt)
  {
    var s0, s1 := SetClient(7, Client(LATE_SESSION, false, None)),
        StartReply(1, LATE_SESSION, 5, LATE_REPLY, 1000, 1000);
    var rest := [LATE_CREATE] + ([Poll(LATE_SESSION, 7, 999, true, {5})] + ([FinishReply(1, true)] + []));
    LateStart();
    LateEnd();
    LateReply();
    RunFirst(Empty(1000), s0, [s1] + rest);
    RunFirst(Next(Empty(1000), s0).0, s1, rest);
  }

  // ------------------------------------------------------------------- the clock

  /** The transaction of this step expires what is due in the course at some time past `deadline`. */
  ghost predicate Sweeps(w: World, step: Step, course: Id, deadline: int) {
    !Next(w, step).1.Refused? &&
    match step
    case Create(_, k, _, _, _, _, now, _) => k == course && now >= deadline
    case Expire(k, now) => k == course && now >= deadline
    case Poll(session, _, now, _, _) => session.course == course && now >= deadline
    case StartReply(_, session, _, _, _, checked) => session.course == course && checked >= deadline
    case _ => false
  }

  /** The step is a reply that finishes the command. */
  ghost predicate Ends(w: World, step: Step, c: Id) {
    && step.FinishReply? && step.call in w.calls && w.calls[step.call].command == c
    && Next(w, step).1.Fine? && !Pending(w.calls[step.call].reply.status)
  }

  /** No expiry of the course dated at or past the deadline has run, and no reply has finished
      the command. */
  ghost predicate Untouched(w: World, steps: seq<Step>, c: Id, course: Id, deadline: int)
    decreases |steps|
  {
    steps == []
    || (!Sweeps(w, steps[0], course, deadline) && !Ends(w, steps[0], c)
        && Untouched(Next(w, steps[0]).0, steps[1..], c, course, deadline))
  }

  lemma SweepStep(w: World, course: Id, now: int, c: Id)
    requires InvRows(w) && c in w.commands && Pending(w.commands[c].status)
    ensures var w' := ExpireAll(w, course, now);
            Pending(w'.commands[c].status) <==> !(w.commands[c].course == course && now >= w.commands[c].expiresAt)
  {
  }

  lemma IdentityStep(w: World, step: Step, c: Id)
    requires InvRows(w) && c in w.commands
    ensures var w' := Next(w, step).0;
            c in w'.commands && SameIdentity(w.commands[c], w'.commands[c])
  {
    StepKept(w, step, c);
  }

  ghost predicate SweptOrEnded(w: World, step: Step, c: Id)
    requires c in w.commands
  {
    Sweeps(w, step, w.commands[c].course, w.commands[c].expiresAt) || Ends(w, step, c)
  }

  /** The four transactions that begin with an expiry of the course. */
  lemma SweepingStepIff(w: World, step: Step, c: Id)
    requires InvRows(w) && c in w.commands && Pending(w.commands[c].status) && c in Next(w, step).0.commands
    requires step.Create? || step.Expire? || step.Poll? || step.StartReply?
    ensures Pending(Next(w, step).0.commands[c].status) <==> !SweptOrEnded(w, step, c)
  {
    match step
    case Create(_, _, _, _, _, _, _, _) => CreateSweeps(w, step, c);
    case Expire(k, now) => SweepStep(w, k, now, c);
    case Poll(session, client, now, allowed, rows) => PollSweeps(w, session, client, now, allowed, rows, c);
    case StartReply(_, session, _, _, _, checked) => SweepStep(w, session.course, checked, c);
  }

  lemma CreateSweeps(w: World, s: Step, c: Id)
    requires InvRows(w) && c in w.commands && Pending(w.commands[c].status)
    requires s.Create? && c in CreateStep(w, s).0.commands
    ensures Pending(CreateStep(w, s).0.commands[c].status)
            <==> !(!CreateStep(w, s).1.Refused? && w.commands[c].course == s.course && s.now >= w.commands[c].expiresAt)
  {
    SweepStep(w, s.course, s.now, c);
  }

  lemma PollSweeps(w: World, session: Session, client: Id, now: int, allowed: bool, rows: set<Id>, c: Id)
    requires InvRows(w) && c in w.commands && Pending(w.commands[c].status)
    requires c in PollStep(w, session, client, now, allowed, rows).0.commands
    ensures var n := PollStep(w, session, client, now, allowed, rows);
            Pending(n.0.commands[c].status)
            <==> !(!n.1.Refused? && w.commands[c].course == session.course && now >= w.commands[c].expiresAt)
  {
    SweepStep(w, session.course, now, c);
  }

  lemma PendingStepIff(w: World, step: Step, c: Id)
    requires InvRows(w) && c in w.commands && Pending(w.commands[c].status) && c in Next(w, step).0.commands
    ensures Pending(Next(w, step).0.commands[c].status) <==> !SweptOrEnded(w, step, c)
  {
    if step.Create? || step.Expire? || step.Poll? || step.StartReply? {
      SweepingStepIff(w, step, c);
    } else if step.FinishReply? {
      ReplyLeavesPending(w, step.call, step.allowed, c);
    }
  }

  lemma PendingStep(w: World, step: Step, c: Id)
    requires InvRows(w) && c in w.commands && Pending(w.commands[c].status)
    ensures var w' := Next(w, step).0;
            var row := w.commands[c];
            && c in w'.commands && SameIdentity(row, w'.commands[c])
            && (Pending(w'.commands[c].status) <==> !Sweeps(w, step, row.course, row.expiresAt) && !Ends(w, step, c))
  {
    IdentityStep(w, step, c);
    PendingStepIff(w, step, c);
  }

  lemma ReplyLeavesPending(w: World, call: Id, allowed: bool, c: Id)
    requires InvRows(w) && c in w.commands && Pending(w.commands[c].status)
    ensures var w' := Next(w, FinishReply(call, allowed)).0;
            c in w'.commands && (Pending(w'.commands[c].status) <==> !Ends(w, FinishReply(call, allowed), c))
  {
  }

  /** A command that is pending stays so exactly until an expiry of its course dated at or past
      its deadline runs, or a reply finishes it.  The clock has no say in it. */
  lemma {:induction false} StillPendingIff(w: World, steps: seq<Step>, c: Id)
    requires InvRows(w) && c in w.commands && Pending(w.commands[c].status)
    ensures var w' := Run(w, steps);
            && InvRows(w') && c in w'.commands && SameIdentity(w.commands[c], w'.commands[c])
            && (Pending(w'.commands[c].status) <==>
                  Untouched(w, steps, c, w.commands[c].course, w.commands[c].expiresAt))
    decreases |steps|
  {
    if steps != [] {
      var w1 := Next(w, steps[0]).0;
      PendingStep(w, steps[0], c);
      StepKeeps(w, steps[0]);
      if Pending(w1.commands[c].status) {
        StillPendingIff(w1, steps[1..], c);
      } else {
        SettledStaysSettled(w1, steps[1..], c);
        RunKeeps(w1, steps[1..]);
      }
    }
  }

  /** All that a reply has to satisfy, apart from the command being pending. */
  predicate Fits(w: World, call: Call, allowed: bool)
    requires call.command in w.commands
  {
    var row, reply := w.commands[call.command], call.reply;
    && allowed && OwnsClient(w, call.session, reply.client)
    && row.course == call.session.course && row.student == call.session.student && row.client == Some(reply.client)
    && (row.request.assignment.Some? ==> row.request.assignment == w.clients[reply.client].assignment)
    && (Submission(reply).Some? ==> row.request.kind.SaveSubmit? && reply.status.Completed?)
    && (if row.acceptedAt.Some? then reply.status.Completed? || reply.status.Failed? else !reply.status.Completed?)
    && (reply.status.Completed? ==> CompletionOk(w, row, reply))
    && (Checks(reply).Some? ==> row.request.kind.CheckEnvironment?)
  }

  lemma TakesEffectIff(w: World, call: Call, allowed: bool)
    requires InvRows(w) && ReplyOk(call.reply) && call.command in w.commands
    ensures ReplyStep(w, call, allowed).1.Fine? <==> Pending(w.commands[call.command].status) && Fits(w, call, allowed)
  {
    assert RowOk(w, call.command);
  }

  /** A reply takes effect if and only if no expiry dated at or past the command's deadline has run
      since it was pending, no reply has finished it, and the reply fits.  The second transaction
      of a reply looks at no clock, so nothing else decides it for a command long overdue. */
  lemma ReplyEffectIff(clock: int, before: seq<Step>, steps: seq<Step>, k: Id, allowed: bool)
    requires var w := Run(Empty(clock), before);
             && k in Run(w, steps).calls
             && var c := Run(w, steps).calls[k].command; c in w.commands && Pending(w.commands[c].status)
    ensures var w := Run(Empty(clock), before);
            var w' := Run(w, steps);
            var c := w'.calls[k].command;
            && c in w'.commands
            && (Next(w', FinishReply(k, allowed)).1.Fine? <==>
                  Untouched(w, steps, c, w.commands[c].course, w.commands[c].expiresAt)
                  && Fits(w', w'.calls[k], allowed))
  {
    EmptyIsFine(clock);
    RunKeeps(Empty(clock), before);
    var w := Run(Empty(clock), before);
    var w' := Run(w, steps);
    StillPendingIff(w, steps, w'.calls[k].command);
    TakesEffectIff(w', w'.calls[k], allowed);
  }

  /** The command suits the client, delivered to nobody yet. */
  predicate Suits(row: Row, session: Session, assignment: Option<Id>) {
    && row.course == session.course && row.student == session.student && row.client.None?
    && (row.request.assignment.None? || row.request.assignment == assignment)
  }

  /** A poll delivers a command if and only if the poll's own time is before the deadline, no
      expiry dated at or past it has run, and the command suits the client and is among the five
      taken.  The poll's time may lag behind the clock, which decides nothing: an overdue command
      is delivered by the same rule. */
  lemma DeliveryIff(clock: int, before: seq<Step>, steps: seq<Step>, c: Id, session: Session, client: Id, now: int,
                    rows: set<Id>)
    requires var w := Run(Empty(clock), before);
             && c in w.commands && Pending(w.commands[c].status)
             && Next(Run(w, steps), Poll(session, client, now, true, rows)).1.Fine?
    ensures var w := Run(Empty(clock), before);
            var w' := Run(w, steps);
            var end := Next(w', Poll(session, client, now, true, rows)).0;
            && c in w'.commands && c in end.commands && client in w'.clients
            && (w'.commands[c].status.Queued? && end.commands[c].status.Received? <==>
                  Untouched(w, steps, c, w.commands[c].course, w.commands[c].expiresAt)
                  && now < w.commands[c].expiresAt && Suits(w'.commands[c], session, w'.clients[client].assignment)
                       && c in rows)
  {
    EmptyIsFine(clock);
    RunKeeps(Empty(clock), before);
    var w := Run(Empty(clock), before);
    StillPendingIff(w, steps, c);
    DeliversIff(Run(w, steps), c, session, client, now, rows);
  }

  lemma DeliversIff(w: World, c: Id, session: Session, client: Id, now: int, rows: set<Id>)
    requires InvRows(w) && c in w.commands && Next(w, Poll(session, client, now, true, rows)).1.Fine?
    ensures var end := Next(w, Poll(session, client, now, true, rows)).0;
            && c in end.commands && client in w.clients
            && (w.commands[c].status.Queued? && end.commands[c].status.Received? <==>
                  Pending(w.commands[c].status) && now < w.commands[c].expiresAt
                  && Suits(w.commands[c], session, w.clients[client].assignment) && c in rows)
  {
    assert RowOk(w, c);
  }

  // --------------------------------------------------------------- late by the clock

  ghost predicate Overdue(w: World, c: Id) {
    c in w.commands && w.clock >= w.commands[c].expiresAt
  }

  ghost predicate KnownReach(w: World, w': World) {
    exists steps {:trigger Run(w, steps)} :: AllKnown(w, steps) && Run(w, steps) == w'
  }

  lemma {:induction false} KnownConcat(w: World, a: seq<Step>, step: Step)
    requires AllKnown(w, a) && (step.StartReply? ==> step.command in Run(w, a).commands)
    ensures AllKnown(w, a + [step]) && Run(w, a + [step]) == Next(Run(w, a), step).0
    decreases |a|
  {
    if a == [] {
      assert a + [step] == [step] && [step][1..] == [];
    } else {
      assert (a + [step])[1..] == a[1..] + [step];
      KnownConcat(Next(w, a[0]).0, a[1..], step);
    }
  }

  lemma KnownNext(w: World, w': World, step: Step)
    requires KnownReach(w, w') && (step.StartReply? ==> step.command in w'.commands)
    ensures KnownReach(w, Next(w', step).0)
  {
    var steps :| AllKnown(w, steps) && Run(w, steps) == w';
    KnownConcat(w, steps, step);
    assert Run(w, steps + [step]) == Next(w', step).0;
  }

  const PROMPT_CREATE := Create(5, 1, 1, 9, Request(Notice, None, "hi"), 2, 0, true)

  /** Command 5, made at 0, is with client 7, and client 7's acceptance, begun at 599, is under way. */
  function Accepting(clock: int): World {
    var row := NewRow(PROMPT_CREATE).(status := Received, client := Some(7), receivedAt := Some(0));
    World(map[5 := row], map[5 := [Entry(Queued, Instructor(2), 0), Entry(Received, Ide, 0)]],
          map[7 := Client(LATE_SESSION, false, None)], map[], map[1 := Call(LATE_SESSION, 5, LATE_REPLY, 599)], clock)
  }

  lemma AcceptingIsReached(elapsed: nat)
    ensures KnownReach(Empty(0), Accepting(599 + elapsed))
  {
    var w0 := Empty(0);
    assert Run(w0, []) == w0 && AllKnown(w0, []);
    var w1 := w0.(clients := map[7 := Client(LATE_SESSION, false, None)]);
    KnownNext(w0, w0, SetClient(7, Client(LATE_SESSION, false, None)));
    var w2 := Created(w1, PROMPT_CREATE);
    PromptCreation(w1);
    KnownNext(w0, w1, PROMPT_CREATE);
    var w3 := Accepting(0).(calls := map[]);
    PromptDelivery(w2);
    KnownNext(w0, w2, Poll(LATE_SESSION, 7, 0, true, {5}));
    KnownNext(w0, w3, Tick(599));
    var w4 := Accepting(599).(calls := map[]);
    var start := StartReply(1, LATE_SESSION, 5, LATE_REPLY, 599, 599);
    PromptStart(w4);
    KnownNext(w0, w4, start);
    KnownNext(w0, Accepting(599), Tick(elapsed));
  }

  lemma PromptCreation(w: World)
    requires w == Empty(0).(clients := map[7 := Client(LATE_SESSION, false, None)])
    ensures Next(w, PROMPT_CREATE) == (Created(w, PROMPT_CREATE), Fine)
  {
    var e := ExpireAll(w, 1, 0);
    assert e == w;
    assert PendingOf(e, 1, 1) == {} && CreatedFrom(e, 1, 1, 0 - HOUR) == {};
    assert PROMPT_CREATE.request.message[0] == 'h';
  }

  lemma PromptDelivery(w: World)
    requires w == Created(Empty(0).(clients := map[7 := Client(LATE_SESSION, false, None)]), PROMPT_CREATE)
    ensures Next(w, Poll(LATE_SESSION, 7, 0, true, {5})) == (Accepting(0).(calls := map[]), Fine)
  {
    var e := ExpireAll(w, 1, 0);
    assert e.commands == w.commands;
    assert e.audit == w.audit;
    var d := Deliver(e, {5}, 7, 0);
    assert d.commands == Accepting(0).commands;
    assert w.audit[5] == [Entry(Queued, Instructor(2), 0)];
    assert d.audit[5] == w.audit[5] + [Entry(Received, Ide, 0)] == Accepting(0).audit[5];
    assert d.audit == Accepting(0).audit;
  }

  lemma PromptStart(w: World)
    requires w == Accepting(599).(calls := map[])
    ensures Next(w, StartReply(1, LATE_SESSION, 5, LATE_REPLY, 599, 599)) == (Accepting(599), Fine)
  {
    var e := ExpireAll(w, 1, 599);
    assert e.commands == w.commands;
    assert e.audit == w.audit;
  }

  /** Replies know their command, and still: an acceptance begun a second before the deadline may
      take effect any time after it, while the recorded time is the one it began with. */
  lemma AcceptedAfterDeadline()
    ensures exists w {:trigger KnownReach(Empty(0), w)} ::
              && KnownReach(Empty(0), w) && 1 in w.calls && w.calls[1].command == 5 && Overdue(w, 5)
              && w.commands[5].status.Received? && w.commands[5].expiresAt == 600 && w.clock == 1000599
              && Next(w, FinishReply(1, true)).1.Fine? && Next(w, FinishReply(1, true)).0.commands[5].status.Accepted?
  {
    AcceptingIsReached(1000000);
    assert Overdue(Accepting(1000599), 5);
  }
}
