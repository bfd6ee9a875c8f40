/** The command service as it runs: tables updated row by row inside transactions, each method
    proved to take exactly the protocol's step and to keep its invariant. */
module ClassroomService {
  import opened Common
  import opened ClassroomCommands

  /** The older of two commands, by creation and then by id. */
  ghost predicate OldestOf(commands: map<Id, Row>, among: set<Id>, c: Id) {
    c in among && c in commands && forall d :: d in among && d in commands && d != c ==>
        Before(commands[c], c, commands[d], d)
  }

  method Oldest(commands: map<Id, Row>, among: set<Id>) returns (c: Id)
    requires among != {} && among <= commands.Keys
    ensures OldestOf(commands, among, c)
  {
    c :| c in among;
    var rest := among - {c};
    while rest != {}
      invariant rest <= among && c in among && c !in rest
      invariant forall d :: d in among && d !in rest && d != c ==> Before(commands[c], c, commands[d], d)
      decreases |rest|
    {
      var d :| d in rest;
      rest := rest - {d};
      if Before(commands[d], d, commands[c], c) {
        c := d;
      }
    }
  }

  /** Some of the due rows expired. */
  ghost function ExpireSet(w: World, rows: set<Id>, now: int): World {
    w.(commands := map c | c in w.commands :: if c in rows then ExpiredRow(w.commands[c], now) else w.commands[c],
       audit := map c | c in w.audit ::
           if c in w.commands && c in rows then w.audit[c] + [Entry(Expired, Server, now)] else w.audit[c])
  }

  lemma ExpireNone(w: World, now: int)
    ensures ExpireSet(w, {}, now) == w
  {
    var e := ExpireSet(w, {}, now);
    assert e.commands == w.commands;
    assert e.audit == w.audit;
  }

  lemma ExpireMore(w: World, rows: set<Id>, c: Id, now: int)
    requires c in w.commands && c in w.audit && c !in rows
    ensures var e := ExpireSet(w, rows, now);
            && e.commands[c] == w.commands[c] && e.audit[c] == w.audit[c]
            && ExpireSet(w, rows + {c}, now)
               == e.(commands := e.commands[c := ExpiredRow(w.commands[c], now)],
                     audit := e.audit[c := w.audit[c] + [Entry(Expired, Server, now)]])
  {
    var e, e' := ExpireSet(w, rows, now), ExpireSet(w, rows + {c}, now);
    assert e'.commands == e.commands[c := ExpiredRow(w.commands[c], now)];
    assert e'.audit == e.audit[c := w.audit[c] + [Entry(Expired, Server, now)]];
  }

  lemma ExpireSetIsAll(w: World, due: set<Id>, course: Id, now: int)
    requires forall c :: c in due <==> c in w.commands && Due(w.commands[c], course, now)
    ensures ExpireSet(w, due, now) == ExpireAll(w, course, now)
  {
    var e, e' := ExpireSet(w, due, now), ExpireAll(w, course, now);
    assert e.commands == e'.commands;
    assert e.audit == e'.audit;
  }

  lemma DeliverNone(w: World, client: Id, now: int)
    ensures Deliver(w, {}, client, now) == w
  {
    var e := Deliver(w, {}, client, now);
    assert e.commands == w.commands;
    assert e.audit == w.audit;
  }

  lemma DeliverMore(w: World, rows: set<Id>, c: Id, client: Id, now: int)
    requires c in w.commands && c in w.audit && c !in rows
    ensures var e := Deliver(w, rows, client, now);
            && e.commands[c] == w.commands[c] && e.audit[c] == w.audit[c]
            && Deliver(w, rows + {c}, client, now)
               == if !w.commands[c].status.Queued? then e
                  else e.(commands := e.commands[c := w.commands[c].(status := Received, client := Some(client),
                      receivedAt := Some(now))],
                          audit := e.audit[c := w.audit[c] + [Entry(Received, Ide, now)]])
  {
    var e, e' := Deliver(w, rows, client, now), Deliver(w, rows + {c}, client, now);
    if w.commands[c].status.Queued? {
      assert e'.commands == e.commands[c := w.commands[c].(status := Received, client := Some(client),
          receivedAt := Some(now))];
      assert e'.audit == e.audit[c := w.audit[c] + [Entry(Received, Ide, now)]];
    } else {
      assert e'.commands == e.commands;
      assert e'.audit == e.audit;
    }
  }

  class ClassroomService {
    var commands: map<Id, Row>
    var audit: map<Id, seq<Entry>>
    var clients: map<Id, Client>
    var receipts: map<Id, Receipt>
    var calls: map<Id, Call>
    var clock: int

    ghost function State(): World reads this {
      World(commands, audit, clients, receipts, calls, clock)
    }

    ghost predicate Valid() reads this {
      InvRows(State())
    }

    constructor (clock: int)
      ensures Valid() && State() == Empty(clock)
    {
      commands, audit, clients, receipts, calls := map[], map[], map[], map[], map[];
      this.clock := clock;
      new;
      EmptyIsFine(clock);
    }

    method ExpireOne(c: Id, now: int)
      requires c in commands && c in audit
      modifies `commands, `audit
      ensures State() == old(State()).(commands := old(commands)[c := ExpiredRow(old(commands)[c], now)],
                                       audit := old(audit)[c := old(audit)[c] + [Entry(Expired, Server, now)]])
    {
      commands := commands[c := ExpiredRow(commands[c], now)];
      audit := audit[c := audit[c] + [Entry(Expired, Server, now)]];
    }

    /** `_expire`: every due row of the course, one by one. */
    method ExpireDue(course: Id, now: int)
      requires forall c :: c in commands ==> c in audit
      modifies `commands, `audit
      ensures State() == ExpireAll(old(State()), course, now)
    {
      ghost var start := State();
      var due := set c | c in commands && Due(commands[c], course, now);
      var rest := due;
      ghost var done: set<Id> := {};
      ExpireNone(start, now);
      while rest != {}
        invariant forall c :: c in rest ==> c in due && c !in done
        invariant forall c :: c in done <==> c in due && c !in rest
        invariant State() == ExpireSet(start, done, now)
        decreases |rest|
      {
        var c :| c in rest;
        ExpireMore(start, done, c, now);
        done, rest := done + {c}, rest - {c};
        ExpireOne(c, now);
      }
      ExpireSetIsAll(start, done, course, now);
    }

    method FindKey(course: Id, student: Id, actor: Id, requestKey: Id) returns (found: Option<Id>)
      ensures match found
              case Some(c) => c in commands && SameKey(commands[c], course, student, actor, requestKey)
              case None => !KeyUsed(State(), course, student, actor, requestKey)
    {
      var rest := commands.Keys;
      while rest != {}
        invariant rest <= commands.Keys
        invariant forall c :: c in commands && c !in rest ==> !SameKey(commands[c], course, student, actor, requestKey)
        decreases |rest|
      {
        var c :| c in rest;
        if SameKey(commands[c], course, student, actor, requestKey) {
          return Some(c);
        }
        rest := rest - {c};
      }
      return None;
    }

    /** One transaction: expire, find the key, count, insert; a refusal rolls all of it back. */
    method Create(s: Step) returns (outcome: Outcome)
      requires Valid() && s.Create? && s.id !in commands && s.id !in audit
      modifies `commands, `audit
      ensures Valid() && (State(), outcome) == CreateStep(old(State()), s)
    {
      CreateKeeps(State(), s);
      ExpireKeeps(State(), s.course, s.now);
      forall c | c in commands ensures c in audit {
        assert RowOk(State(), c);
      }
      outcome := Insert(s);
    }

    method Insert(s: Step) returns (outcome: Outcome)
      requires s.Create? && s.id !in commands && s.id !in audit && (forall c :: c in commands ==> c in audit)
      requires InvRows(ExpireAll(State(), s.course, s.now))
      modifies `commands, `audit
      ensures (State(), outcome) == CreateStep(old(State()), s)
    {
      if !s.allowed || !RequestOk(s.request) || s.now > clock {
        return Refused;
      }
      var rows, trail := commands, audit;
      ExpireDue(s.course, s.now);
      var existing := FindKey(s.course, s.student, s.actor, s.requestKey);
      if existing.Some? {
        ghost var e := State();
        forall c | c in e.commands && SameKey(e.commands[c], s.course, s.student, s.actor, s.requestKey)
            ensures c == existing.value {
          assert KeyOk(e, existing.value, c);
        }
        if commands[existing.value].request != s.request {
          commands, audit := rows, trail;
          return Refused;
        }
        return Duplicate;
      }
      var pending := set c | c in commands && commands[c].course == s.course && commands[c].student == s.student
                             && Pending(commands[c].status);
      var recent := set c | c in commands && commands[c].course == s.course && commands[c].student == s.student
                            && commands[c].createdAt >= s.now - HOUR;
      assert pending == PendingOf(State(), s.course, s.student)
          && recent == CreatedFrom(State(), s.course, s.student, s.now - HOUR);
      if |pending| >= MAX_PENDING || |recent| >= MAX_PER_HOUR {
        commands, audit := rows, trail;
        return Refused;
      }
      commands := commands[s.id := NewRow(s)];
      audit := audit[s.id := [Entry(Queued, Instructor(s.actor), s.now)]];
      return Fine;
    }

    method Expire(course: Id, now: int) returns (outcome: Outcome)
      requires Valid()
      modifies `commands, `audit
      ensures Valid() && (State(), outcome) == Next(old(State()), Step.Expire(course, now))
    {
      ExpireKeeps(State(), course, now);
      forall c | c in commands ensures c in audit {
        assert RowOk(State(), c);
      }
      if now > clock {
        return Refused;
      }
      ExpireDue(course, now);
      return Fine;
    }

    /** The query of `poll`: the five oldest commands this client may see. */
    method Select(session: Session, client: Id, assignment: Option<Id>) returns (rows: set<Id>)
      ensures FirstFive(State(), session, client, assignment, rows)
    {
      var rest := set c | c in commands && Eligible(commands[c], session, client, assignment);
      rows := {};
      while rest != {} && |rows| < POLL_LIMIT
        invariant |rows| <= POLL_LIMIT && rest !! rows && rest <= commands.Keys
        invariant forall c :: c in rows || c in rest <==>
                    c in commands && Eligible(commands[c], session, client, assignment)
        invariant forall c, d :: c in rest && d in rows ==> Before(commands[d], d, commands[c], c)
        decreases |rest|
      {
        var c := Oldest(commands, rest);
        rows, rest := rows + {c}, rest - {c};
      }
    }

    method ReceiveOne(c: Id, client: Id, now: int)
      requires c in commands && c in audit
      modifies `commands, `audit
      ensures State() == old(State()).(commands := old(commands)[c := old(commands)[c].(status := Received,
                client := Some(client), receivedAt := Some(now))],
                                       audit := old(audit)[c := old(audit)[c] + [Entry(Received, Ide, now)]])
    {
      commands := commands[c := commands[c].(status := Received, client := Some(client), receivedAt := Some(now))];
      audit := audit[c := audit[c] + [Entry(Received, Ide, now)]];
    }

    /** Mark the queued ones among the selected rows as received, one by one. */
    method MarkReceived(rows: set<Id>, client: Id, now: int)
      requires rows <= commands.Keys && forall c :: c in commands ==> c in audit
      modifies `commands, `audit
      ensures State() == Deliver(old(State()), rows, client, now)
    {
      ghost var start := State();
      var rest := rows;
      ghost var done: set<Id> := {};
      DeliverNone(start, client, now);
      while rest != {}
        invariant forall c :: c in rest ==> c in rows && c !in done
        invariant forall c :: c in done <==> c in rows && c !in rest
        invariant State() == Deliver(start, done, client, now)
        decreases |rest|
      {
        var c :| c in rest;
        DeliverMore(start, done, c, client, now);
        done, rest := done + {c}, rest - {c};
        if commands[c].status.Queued? {
          ReceiveOne(c, client, now);
        }
      }
      assert done == rows;
    }

    method Poll(session: Session, client: Id, now: int, allowed: bool) returns (rows: set<Id>, outcome: Outcome)
      requires Valid()
      modifies `commands, `audit
      ensures Valid() && (State(), outcome) == Next(old(State()), Step.Poll(session, client, now, allowed, rows))
      ensures outcome.Fine? ==>
                FirstFive(ExpireAll(old(State()), session.course, now), session, client, clients[client].assignment,
                rows)
    {
      ghost var start := State();
      forall c | c in commands ensures c in audit {
        assert RowOk(start, c);
      }
      if !allowed || client !in clients || clients[client].closed || clients[client].session != session || now > clock {
        return {}, Refused;
      }
      rows := ExpireAndDeliver(session, client, now);
      PollKeeps(start, session, client, now, allowed, rows);
      outcome := Fine;
    }

    /** The rest of `poll`, for a client that may poll. */
    method ExpireAndDeliver(session: Session, client: Id, now: int) returns (rows: set<Id>)
      requires client in clients && forall c :: c in commands ==> c in audit
      modifies `commands, `audit
      ensures var e := ExpireAll(old(State()), session.course, now);
              FirstFive(e, session, client, clients[client].assignment, rows)
                  && State() == Deliver(e, rows, client, now)
    {
      ExpireDue(session.course, now);
      rows := Select(session, client, clients[client].assignment);
      MarkReceived(rows, client, now);
    }

    /** The first transaction of `respond`. */
    method StartReply(call: Id, session: Session, command: Id, reply: Reply, now: int, checked: int)
      returns (outcome: Outcome)
      requires Valid()
      modifies `commands, `audit, `calls
      ensures Valid()
      ensures (State(), outcome) == Next(old(State()), Step.StartReply(call, session, command, reply, now, checked))
    {
      StartKeeps(State(), Step.StartReply(call, session, command, reply, now, checked));
      forall c | c in commands ensures c in audit {
        assert RowOk(State(), c);
      }
      if !ReplyOk(reply) || call in calls || !(now <= checked <= clock) {
        return Refused;
      }
      ExpireDue(session.course, checked);
      calls := calls[call := Call(session, command, reply, now)];
      return Fine;
    }

    /** The second transaction of `respond`. */
    method FinishReply(call: Id, allowed: bool) returns (outcome: Outcome)
      requires Valid() && call in calls
      modifies `commands, `audit, `calls
      ensures Valid() && (State(), outcome) == Next(old(State()), Step.FinishReply(call, allowed))
    {
      FinishKeeps(State(), call, allowed);
      outcome := Answer(calls[call], allowed);
      calls := calls - {call};
    }

    method Answer(k: Call, allowed: bool) returns (outcome: Outcome)
      modifies `commands, `audit
      ensures (State(), outcome) == ReplyStep(old(State()), k, allowed)
    {
      var reply := k.reply;
      if !allowed || reply.client !in clients || clients[reply.client].closed
          || clients[reply.client].session != k.session {
        return Refused;
      }
      if k.command !in commands || k.command !in audit {
        return Refused;
      }
      var row := commands[k.command];
      if row.course != k.session.course || row.student != k.session.student || row.client != Some(reply.client) {
        return Refused;
      }
      if row.request.assignment.Some? && row.request.assignment != clients[reply.client].assignment {
        return Refused;
      }
      var submission, checks := None, None;
      if reply.result.Some? {
        submission, checks := reply.result.value.submission, reply.result.value.checks;
      }
      if submission.Some? && (!row.request.kind.SaveSubmit? || !reply.status.Completed?) {
        return Refused;
      }
      if row.status == reply.status && row.last == Some(reply) {
        return Duplicate;
      }
      var moves := match row.status
        case Received => reply.status.Accepted? || reply.status.Declined? || reply.status.Failed?
        case Accepted => reply.status.Completed? || reply.status.Failed?
        case _ => false;
      if !moves {
        return Refused;
      }
      if reply.status.Completed? {
        if reply.code != Some(Done(row.request.kind)) {
          return Refused;
        }
        if row.request.kind.SaveSubmit? {
          var confirmed := Confirmed(row, submission);
          if !confirmed {
            return Refused;
          }
        }
        if row.request.kind.CheckEnvironment? && checks != Some(ALL_CHECKS) {
          return Refused;
        }
      }
      if checks.Some? && !row.request.kind.CheckEnvironment? {
        return Refused;
      }
      commands := commands[k.command := Answered(row, reply, k.now)];
      audit := audit[k.command := audit[k.command] + [Entry(reply.status, Learner, k.now)]];
      return Fine;
    }

    /** The receipt query of `respond`. */
    method Confirmed(row: Row, submission: Option<Id>) returns (ok: bool)
      ensures ok == HasReceipt(State(), row, submission)
    {
      if submission.None? || submission.value !in receipts || row.acceptedAt.None? {
        return false;
      }
      var r := receipts[submission.value];
      ok := r.course == row.course && r.student == row.student && r.assignment == row.request.assignment
            && r.receivedAt >= row.acceptedAt.value;
    }
  }
}
