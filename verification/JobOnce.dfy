/** When is no record handled twice? With signatures landing in time, exactly when no page read meets a qualifying
    row that is still being handled; passes that do not overlap and pages that do not repeat what their pass has
    picked are enough for that. */
module JobOnce {
  import opened Collections
  import opened MultisigRecord
  import opened MultisigProtocol
  import opened AutoSubmit
  import opened JH = JobHistory

  /** The row is gone or terminal. */
  predicate Settled(j: Job, id: Id) {
    id !in j.sys.store || Terminal(j.sys.store[id].status)
  }

  predicate Moving(j: Job, t: Ticket, id: Id) {
    t in j.sys.flights && j.sys.flights[t].request.StatusRequest? && j.sys.flights[t].request.id == id
  }

  /** The save of an accepted signature on a settled row, by a request whose copy is not terminal or reaches
      its threshold now. */
  predicate Revives(v: Verifier, j: Job, a: Action, id: Id) {
    && a.Client? && a.event.Finish? && a.event.ticket in j.sys.flights && Settled(j, id)
    && var f := j.sys.flights[a.event.ticket];
       && f.request.SignRequest? && f.request.id == id && Sign(v, f.base, f.request.key, f.request.sig).Success?
       && (!Terminal(f.base.status) || |f.base.signedKeys| + 1 >= f.base.threshold)
  }

  /** Nothing is under way: no pass, no task, no status move. */
  ghost predicate Idle(j: Job) {
    && j.open == map[] && (forall i :: 0 <= i < |j.tasks| ==> j.tasks[i].stage == Done)
    && forall t, id :: !Moving(j, t, id)
  }

  datatype Discipline = InTime | Alone | NoRepeats

  ghost predicate Obeys(d: Discipline, v: Verifier, j: Job, a: Action) {
    match d
    case InTime => forall id :: !Revives(v, j, a, id)
    case Alone => a.BeginPass? ==> Idle(j)
    case NoRepeats =>
      a.FetchPage? && a.pass in j.open ==>
        forall i :: 0 <= i < |j.tasks| && j.tasks[i].stage == Listed(a.pass) ==>
          j.tasks[i].picked.id !in NextPage(j, a.pass, a.listing)
  }

  ghost predicate Disciplined(d: Discipline, v: Verifier, j: Job, actions: seq<Action>) {
    actions == [] ||
    var front, a := actions[..|actions| - 1], actions[|actions| - 1];
    Disciplined(d, v, j, front) && Obeys(d, v, RunFrom(v, j, front), a)
  }

  // ---------- settled rows ----------

  ghost predicate JobWritesTerminal(j: Job) {
    forall t, id :: Moving(j, t, id) ==> Terminal(j.sys.flights[t].request.status)
  }

  /** A row that is gone or terminal stays so through any action except, exactly, the late save of a
      signature that makes it live again. */
  lemma SettledStaysIff(v: Verifier, j: Job, a: Action, id: Id)
    requires JobWritesTerminal(j) && id in j.sys.issued && Settled(j, id)
    ensures Settled(JH.Step(v, j, a), id) <==> !Revives(v, j, a, id)
  {
    if a.Client? && a.event.Finish? && a.event.ticket in j.sys.flights
        && j.sys.flights[a.event.ticket].request.id == id {
      assert j.sys.flights[a.event.ticket].request.StatusRequest? ==> Moving(j, a.event.ticket, id);
    }
  }

  lemma {:induction false} JobAlwaysWritesTerminal(v: Verifier, actions: seq<Action>)
    ensures JobWritesTerminal(JH.Run(v, actions))
  {
    if actions != [] {
      var front, a := actions[..|actions| - 1], actions[|actions| - 1];
      JobAlwaysWritesTerminal(v, front);
      var j, after := JH.Run(v, front), JH.Run(v, actions);
      forall t, id | Moving(after, t, id) ensures Terminal(after.sys.flights[t].request.status) {
        assert t in j.sys.flights ==> Moving(j, t, id);
      }
    }
  }

  /** In every history: rows that are gone or terminal never come back to life if and only if every signature
      lands in time. */
  lemma {:induction false} NothingRevivedIff(v: Verifier, actions: seq<Action>)
    ensures Disciplined(InTime, v, START, actions) <==>
            forall n, id :: 0 <= n < |actions| && id in JH.Run(v, actions[..n]).sys.issued
                && Settled(JH.Run(v, actions[..n]), id)
              ==> Settled(JH.Run(v, actions[..n + 1]), id)
  {
    if actions != [] {
      var m := |actions| - 1;
      var front, a := actions[..m], actions[m];
      NothingRevivedIff(v, front);
      assert forall n :: 0 <= n <= m ==> front[..n] == actions[..n];
      assert actions[..m + 1] == actions;
      var j := JH.Run(v, front);
      JobAlwaysWritesTerminal(v, front);
      HistoriesAreRuns(v, front);
      HeadersNeverChange(v, Events(v, front));
      forall id | id in j.sys.issued && Settled(j, id)
          ensures Settled(JH.Step(v, j, a), id) <==> !Revives(v, j, a, id) {
        SettledStaysIff(v, j, a, id);
      }
      assert forall id :: Revives(v, j, a, id) ==> id in j.sys.issued;
    }
  }

  // ---------- the invariant ----------

  /** The row is not terminal, and no open request has read it so. */
  ghost predicate Active(j: Job, id: Id) {
    && id in j.sys.issued && !(id in j.sys.store && Terminal(j.sys.store[id].status))
    && forall t :: t in j.sys.flights && j.sys.flights[t].request.id == id ==> !Terminal(j.sys.flights[t].base.status)
  }

  ghost predicate Untouched(j: Job, id: Id) {
    Active(j, id) && forall t :: !Moving(j, t, id)
  }

  ghost predicate Handled(j: Job, id: Id) {
    id in j.sys.issued && (Settled(j, id) || exists t :: Moving(j, t, id))
  }

  ghost predicate TasksDiffer(j: Job) {
    forall i, k :: 0 <= i < k < |j.tasks| ==> j.tasks[i].picked.id != j.tasks[k].picked.id
  }

  ghost predicate TaskSound(j: Job, t: Task) {
    if t.stage == Done then Handled(j, t.picked.id) else Untouched(j, t.picked.id)
  }

  ghost predicate FlightsSound(j: Job) {
    && (forall t, id :: Moving(j, t, id) ==> Terminal(j.sys.flights[t].request.status) && Active(j, id))
    && (forall t, u, id :: Moving(j, t, id) && Moving(j, u, id) ==> t == u)
    && (forall t :: t in j.sys.flights && Terminal(j.sys.flights[t].base.status) ==>
        Settled(j, j.sys.flights[t].request.id))
  }

  ghost predicate HasTask(j: Job, id: Id) {
    exists i :: 0 <= i < |j.tasks| && j.tasks[i].picked.id == id
  }

  ghost predicate MovesHaveTasks(j: Job) {
    forall t, id :: Moving(j, t, id) ==> HasTask(j, id)
  }

  ghost predicate Inv(j: Job) {
    && TasksDiffer(j) && (forall i :: 0 <= i < |j.tasks| ==> TaskSound(j, j.tasks[i]))
    && FlightsSound(j) && MovesHaveTasks(j)
  }

  /** The record is still being handled. */
  ghost predicate Busy(j: Job, id: Id) {
    || (exists i :: 0 <= i < |j.tasks| && j.tasks[i].picked.id == id && j.tasks[i].stage != Done)
    || exists t :: Moving(j, t, id)
  }

  predicate Qualifies(row: Record, now: int) {
    Picks(ToSubmit, row, now) || Picks(ToExpire, row, now)
  }

  /** A page read that meets a row which qualifies for either purpose and is still being handled. */
  ghost predicate MeetsBusy(j: Job, a: Action) {
    && a.FetchPage? && PagePossible(j, a.pass, a.listing, a.now)
    && exists k :: 0 <= k < |PageRows(j, a.pass, a.listing, a.now)|
        && MetBusy(j, PageRows(j, a.pass, a.listing, a.now)[k], a.now)
  }

  ghost predicate MetBusy(j: Job, item: Item, now: int) {
    Qualifies(item.row, now) && Busy(j, item.id)
  }

  // ---------- the clients ----------

  lemma ClientKeepsSettled(v: Verifier, j: Job, e: Event, id: Id)
    requires FlightsSound(j) && Obeys(InTime, v, j, Client(e)) && id in j.sys.issued && Settled(j, id)
    ensures Settled(JH.Step(v, j, Client(e)), id)
  {
    SettledStaysIff(v, j, Client(e), id);
  }

  lemma ClientMoves(v: Verifier, j: Job, e: Event, t: Ticket, id: Id)
    ensures var after := JH.Step(v, j, Client(e));
            && (Moving(after, t, id) <==> Moving(j, t, id) && e != Finish(t))
            && (Moving(after, t, id) ==> after.sys.flights[t] == j.sys.flights[t])
  {
  }

  lemma SignedRowNotTerminal(v: Verifier, r: Record, key: Key, sig: Signature)
    requires !Terminal(r.status) && Sign(v, r, key, sig).Success?
    ensures !Terminal(Sign(v, r, key, sig).value.status)
  {
  }

  lemma ClientKeepsActive(v: Verifier, j: Job, e: Event, id: Id)
    requires Active(j, id) && (e.Finish? ==> !Moving(j, e.ticket, id))
    ensures Active(JH.Step(v, j, Client(e)), id)
  {
    match e
    case Create(_, _) =>
    case Read(_, _) =>
    case Finish(ticket) =>
      if ticket in j.sys.flights && j.sys.flights[ticket].request.SignRequest?
          && j.sys.flights[ticket].request.id == id {
        var f := j.sys.flights[ticket];
        if Sign(v, f.base, f.request.key, f.request.sig).Success? {
          SignedRowNotTerminal(v, f.base, f.request.key, f.request.sig);
        }
      }
  }

  lemma ClientKeepsFlights(v: Verifier, j: Job, e: Event)
    requires HeadersKept(j.sys) && FlightsSound(j) && Obeys(InTime, v, j, Client(e))
    ensures FlightsSound(JH.Step(v, j, Client(e)))
  {
    var after := JH.Step(v, j, Client(e));
    forall t, id | Moving(after, t, id)
      ensures Moving(j, t, id) && Terminal(after.sys.flights[t].request.status) && Active(after, id)
    {
      ClientMoves(v, j, e, t, id);
      ClientKeepsActive(v, j, e, id);
    }
    forall t | t in after.sys.flights && Terminal(after.sys.flights[t].base.status)
        ensures Settled(after, after.sys.flights[t].request.id) {
      if t in j.sys.flights {
        ClientKeepsSettled(v, j, e, j.sys.flights[t].request.id);
      }
    }
  }

  lemma ClientKeepsTask(v: Verifier, j: Job, e: Event, t: Task)
    requires HeadersKept(j.sys) && FlightsSound(j) && Obeys(InTime, v, j, Client(e)) && TaskSound(j, t)
    ensures TaskSound(JH.Step(v, j, Client(e)), t)
  {
    var after, id := JH.Step(v, j, Client(e)), t.picked.id;
    if t.stage == Done {
      if Settled(j, id) {
        ClientKeepsSettled(v, j, e, id);
      } else {
        var m :| Moving(j, m, id);
        ClientMoves(v, j, e, m, id);
        if e == Finish(m) {
          assert Settled(after, id);
        }
      }
    } else {
      ClientKeepsActive(v, j, e, id);
      forall m ensures !Moving(after, m, id) {
        ClientMoves(v, j, e, m, id);
      }
    }
  }

  lemma ClientKeepsInv(v: Verifier, j: Job, e: Event)
    requires HeadersKept(j.sys) && Inv(j) && Obeys(InTime, v, j, Client(e))
    ensures Inv(JH.Step(v, j, Client(e)))
  {
    var after := JH.Step(v, j, Client(e));
    ClientKeepsFlights(v, j, e);
    forall i | 0 <= i < |j.tasks| ensures TaskSound(after, j.tasks[i]) {
      ClientKeepsTask(v, j, e, j.tasks[i]);
    }
    StepKeepsMoves(v, j, Client(e));
  }

  // ---------- the passes ----------

  lemma NewTaskIsNew(j: Job, pass: PassId, listing: seq<Id>, now: int, k: nat) returns (i: nat)
    requires HeadersKept(j.sys) && Inv(j) && PagePossible(j, pass, listing, now)
    requires !MeetsBusy(j, FetchPage(pass, listing, now))
    requires k < |NewTasks(pass, PageRows(j, pass, listing, now), now)|
    ensures var t := NewTasks(pass, PageRows(j, pass, listing, now), now)[k];
            && t.stage == Listed(pass) && Untouched(j, t.picked.id)
            && forall i :: 0 <= i < |j.tasks| ==> j.tasks[i].picked.id != t.picked.id
  {
    var items := PageRows(j, pass, listing, now);
    i := NewTaskOrigin(pass, items, now, k);
    PageRowIsStored(j, pass, listing, now, i);
    var id := items[i].id;
    assert !Settled(j, id) && Qualifies(items[i].row, now);
    assert !MetBusy(j, items[i], now);
    forall n | 0 <= n < |j.tasks| ensures j.tasks[n].picked.id != id {
      assert TaskSound(j, j.tasks[n]);
    }
  }

  lemma FetchKeepsInv(v: Verifier, j: Job, pass: PassId, listing: seq<Id>, now: int)
    requires HeadersKept(j.sys) && Inv(j) && PagePossible(j, pass, listing, now)
    requires !MeetsBusy(j, FetchPage(pass, listing, now))
    ensures Inv(JH.Step(v, j, FetchPage(pass, listing, now)))
  {
    var after, n := JH.Step(v, j, FetchPage(pass, listing, now)), |j.tasks|;
    var items := PageRows(j, pass, listing, now);
    var added := NewTasks(pass, items, now);
    assert forall t, id :: Moving(after, t, id) <==> Moving(j, t, id);
    forall k | 0 <= k < |added|
      ensures added[k].stage == Listed(pass) && TaskSound(after, added[k])
      ensures forall i :: 0 <= i < n ==> j.tasks[i].picked.id != added[k].picked.id
    {
      var i := NewTaskIsNew(j, pass, listing, now, k);
    }
    PageIsOfStore(j, pass, listing, now);
    forall k, m | 0 <= k < m < |added| ensures added[k].picked.id != added[m].picked.id {
      NewTasksDiffer(pass, items, now, k, m);
    }
    forall i | 0 <= i < n ensures TaskSound(after, j.tasks[i]) {
      assert TaskSound(j, j.tasks[i]);
    }
    StepKeepsMoves(v, j, FetchPage(pass, listing, now));
  }

  /** Opening a pass, and closing one. */
  lemma PassKeepsInv(v: Verifier, j: Job, a: Action)
    requires Inv(j) && (a.BeginPass? || a.EndPass?)
    ensures Inv(JH.Step(v, j, a))
  {
    var after := JH.Step(v, j, a);
    assert forall t, id :: Moving(after, t, id) <==> Moving(j, t, id);
    forall i | 0 <= i < |after.tasks| ensures TaskSound(after, after.tasks[i]) {
      assert TaskSound(j, j.tasks[i]);
    }
    StepKeepsMoves(v, j, a);
  }

  /** In every history, whatever the disciplines, an open status move belongs to a task. */
  lemma StepKeepsMoves(v: Verifier, j: Job, a: Action)
    requires MovesHaveTasks(j)
    ensures MovesHaveTasks(JH.Step(v, j, a))
  {
    var after := JH.Step(v, j, a);
    StepKeepsPicks(v, j, a);
    forall t, id | Moving(after, t, id) ensures HasTask(after, id) {
      if Moving(j, t, id) {
        var i :| 0 <= i < |j.tasks| && j.tasks[i].picked.id == id;
        assert after.tasks[i].picked.id == id;
      } else {
        assert MoveOf(j, a).Some? && after.tasks[a.task].picked.id == id;
      }
    }
  }

  // ---------- submissions and status moves ----------

  lemma SubmitKeepsInv(v: Verifier, j: Job, i: nat, success: bool)
    requires Inv(j)
    ensures Inv(JH.Step(v, j, Submit(i, success)))
  {
    var after := JH.Step(v, j, Submit(i, success));
    assert forall t, id :: Moving(after, t, id) <==> Moving(j, t, id);
    forall k | 0 <= k < |after.tasks| ensures TaskSound(after, after.tasks[k]) {
      assert TaskSound(j, j.tasks[k]);
    }
    StepKeepsMoves(v, j, Submit(i, success));
  }

  /** How a status move begins: if the row is there, one more request is open. */
  ghost predicate Begins(j: Job, after: Job, ticket: Ticket, i: nat, status: Status) {
    && i < |j.tasks| && after.open == j.open && after.tasks == j.tasks[i := j.tasks[i].(stage := Done)]
    && after.sys.store == j.sys.store && after.sys.issued == j.sys.issued
    && var id := j.tasks[i].picked.id;
       after.sys.flights == if id in j.sys.store
                            then j.sys.flights[ticket := Flight(StatusRequest(id, status), j.sys.store[id])]
                            else j.sys.flights
  }

  lemma MoveBegins(v: Verifier, j: Job, a: Action)
    requires HeadersKept(j.sys) && MoveOf(j, a).Some? && j.tasks[a.task].picked.id in j.sys.issued
    ensures a.ticket !in j.sys.flights && (j.tasks[a.task].stage.Due? || j.tasks[a.task].stage.Sent?)
    ensures Terminal(MoveOf(j, a).value) && Begins(j, JH.Step(v, j, a), a.ticket, a.task, MoveOf(j, a).value)
  {
    assert IsUuid(j.tasks[a.task].picked.id);
  }

  lemma BegunMoves(j: Job, after: Job, ticket: Ticket, i: nat, status: Status, t: Ticket, id: Id)
    requires Begins(j, after, ticket, i, status) && ticket !in j.sys.flights
    ensures Moving(after, t, id) <==>
            Moving(j, t, id) || (t == ticket && id == j.tasks[i].picked.id && id in j.sys.store)
    ensures Active(j, id) ==> Active(after, id)
    ensures Settled(after, id) <==> Settled(j, id)
  {
  }

  lemma MoveKeepsInv(j: Job, after: Job, ticket: Ticket, i: nat, status: Status)
    requires Inv(j) && Begins(j, after, ticket, i, status) && ticket !in j.sys.flights && Terminal(status)
    requires (j.tasks[i].stage.Due? || j.tasks[i].stage.Sent?) && MovesHaveTasks(after)
    ensures Inv(after)
  {
    var mine := j.tasks[i].picked.id;
    forall t, id
      ensures Moving(after, t, id) <==> Moving(j, t, id) || (t == ticket && id == mine && id in j.sys.store)
      ensures Active(j, id) ==> Active(after, id)
    {
      BegunMoves(j, after, ticket, i, status, t, id);
    }
    assert TaskSound(j, j.tasks[i]);
    forall k | 0 <= k < |j.tasks| ensures TaskSound(after, after.tasks[k]) {
      MovedTaskSound(j, after, ticket, i, status, k);
    }
  }

  lemma MovedTaskSound(j: Job, after: Job, ticket: Ticket, i: nat, status: Status, k: nat)
    requires Inv(j) && Begins(j, after, ticket, i, status) && ticket !in j.sys.flights && k < |j.tasks|
    requires j.tasks[i].stage.Due? || j.tasks[i].stage.Sent?
    ensures TaskSound(after, after.tasks[k])
  {
    var id := j.tasks[k].picked.id;
    assert TaskSound(j, j.tasks[k]);
    BegunMoves(j, after, ticket, i, status, ticket, id);
    if k == i {
      assert id in j.sys.store ==> Moving(after, ticket, id);
    } else {
      assert id != j.tasks[i].picked.id;
      forall t ensures Moving(after, t, id) <==> Moving(j, t, id) {
        BegunMoves(j, after, ticket, i, status, t, id);
      }
    }
  }

  lemma StatusMoveKeepsInv(v: Verifier, j: Job, a: Action)
    requires HeadersKept(j.sys) && Inv(j) && (a.BeginExpire? || a.BeginReport?)
    ensures Inv(JH.Step(v, j, a))
  {
    if MoveOf(j, a).Some? {
      assert TaskSound(j, j.tasks[a.task]);
      MoveBegins(v, j, a);
      StepKeepsMoves(v, j, a);
      MoveKeepsInv(j, JH.Step(v, j, a), a.ticket, a.task, MoveOf(j, a).value);
    }
  }

  // ---------- the exact condition ----------

  lemma StepKeepsInv(v: Verifier, j: Job, a: Action)
    requires HeadersKept(j.sys) && Inv(j) && Obeys(InTime, v, j, a) && !MeetsBusy(j, a)
    ensures Inv(JH.Step(v, j, a))
  {
    match a
    case Client(e) => ClientKeepsInv(v, j, e);
    case BeginPass(_) => PassKeepsInv(v, j, a);
    case EndPass(_) => PassKeepsInv(v, j, a);
    case FetchPage(pass, listing, now) =>
      if PagePossible(j, pass, listing, now) {
        FetchKeepsInv(v, j, pass, listing, now);
      }
    case Submit(i, success) => SubmitKeepsInv(v, j, i, success);
    case BeginExpire(_, _) => StatusMoveKeepsInv(v, j, a);
    case BeginReport(_, _) => StatusMoveKeepsInv(v, j, a);
  }

  /** A qualifying row on a page yields a task. */
  lemma {:induction false} QualifyingYieldsTask(pass: PassId, items: seq<Item>, now: int, i: nat) returns (k: nat)
    requires i < |items| && Qualifies(items[i].row, now)
    ensures k < |NewTasks(pass, items, now)| && NewTasks(pass, items, now)[k].picked.id == items[i].id
  {
    var front := items[..|items| - 1];
    if i < |front| {
      k := QualifyingYieldsTask(pass, front, now, i);
    } else {
      k := |NewTasks(pass, front, now)|;
    }
  }

  lemma MeetingBusyRepeats(v: Verifier, j: Job, a: Action)
    requires MovesHaveTasks(j) && MeetsBusy(j, a)
    ensures !TasksDiffer(JH.Step(v, j, a))
  {
    var items, n := PageRows(j, a.pass, a.listing, a.now), |j.tasks|;
    var r :| 0 <= r < |items| && MetBusy(j, items[r], a.now);
    assert HasTask(j, items[r].id);
    var i :| 0 <= i < n && j.tasks[i].picked.id == items[r].id;
    var k := QualifyingYieldsTask(a.pass, items, a.now, r);
    var after := JH.Step(v, j, a);
    assert after.tasks[i] == j.tasks[i] && after.tasks[n + k] == NewTasks(a.pass, items, a.now)[k];
  }

  lemma RepeatsStay(v: Verifier, j: Job, a: Action)
    requires !TasksDiffer(j)
    ensures !TasksDiffer(JH.Step(v, j, a))
  {
    var i, k :| 0 <= i < k < |j.tasks| && j.tasks[i].picked.id == j.tasks[k].picked.id;
    StepKeepsPicks(v, j, a);
    var after := JH.Step(v, j, a);
    assert after.tasks[i].picked.id == after.tasks[k].picked.id;
  }

  ghost predicate NeverMeetsBusy(v: Verifier, actions: seq<Action>) {
    actions == [] ||
    var front, a := actions[..|actions| - 1], actions[|actions| - 1];
    NeverMeetsBusy(v, front) && !MeetsBusy(JH.Run(v, front), a)
  }

  lemma {:induction false} MovesAlwaysHaveTasks(v: Verifier, actions: seq<Action>)
    ensures MovesHaveTasks(JH.Run(v, actions))
  {
    if actions != [] {
      var front, a := actions[..|actions| - 1], actions[|actions| - 1];
      MovesAlwaysHaveTasks(v, front);
      StepKeepsMoves(v, JH.Run(v, front), a);
    }
  }

  /** In every history whose signatures land in time: no record is picked twice, by whichever passes and for
      whichever purpose, if and only if no page read meets a qualifying row that is still being handled. */
  lemma {:induction false} HandledOnceIff(v: Verifier, actions: seq<Action>)
    requires Disciplined(InTime, v, START, actions)
    ensures TasksDiffer(JH.Run(v, actions)) <==> NeverMeetsBusy(v, actions)
    ensures NeverMeetsBusy(v, actions) ==> Inv(JH.Run(v, actions))
  {
    if actions != [] {
      var front, a := actions[..|actions| - 1], actions[|actions| - 1];
      var j := JH.Run(v, front);
      HandledOnceIff(v, front);
      if !NeverMeetsBusy(v, front) {
        RepeatsStay(v, j, a);
      } else if MeetsBusy(j, a) {
        MeetingBusyRepeats(v, j, a);
      } else {
        AlwaysDated(v, front);
        StepKeepsInv(v, j, a);
      }
    }
  }

  // ---------- disciplines that are enough ----------

  /** While a pass reads pages, nothing else is under way. */
  ghost predicate PassAlone(j: Job) {
    && (forall i :: 0 <= i < |j.tasks| && j.tasks[i].stage.Listed? ==> j.open.Keys == {j.tasks[i].stage.pass})
    && (forall p :: p in j.open ==>
         && j.open.Keys == {p}
         && (forall i :: 0 <= i < |j.tasks| ==> j.tasks[i].stage.Listed? || j.tasks[i].stage.Done?)
         && forall t, id :: !Moving(j, t, id))
  }

  lemma StepKeepsPassAlone(v: Verifier, j: Job, a: Action)
    requires PassAlone(j) && Obeys(Alone, v, j, a)
    ensures PassAlone(JH.Step(v, j, a))
  {
    var after, n := JH.Step(v, j, a), |j.tasks|;
    match a
    case Client(e) =>
      forall t, id ensures Moving(after, t, id) ==> Moving(j, t, id) {
        ClientMoves(v, j, e, t, id);
      }
    case FetchPage(pass, listing, now) =>
      if PagePossible(j, pass, listing, now) {
        assert forall t, id :: Moving(after, t, id) <==> Moving(j, t, id);
        forall i | n <= i < |after.tasks| ensures after.tasks[i].stage == Listed(pass) {
          var k := NewTaskOrigin(pass, PageRows(j, pass, listing, now), now, i - n);
        }
        assert after.open.Keys == j.open.Keys;
      }
    case EndPass(pass) =>
      assert forall t, id :: Moving(after, t, id) <==> Moving(j, t, id);
      assert pass in j.open ==> (j.open - {pass}).Keys == {};
    case _ =>
      assert MoveOf(j, a).None? ==> forall t, id :: Moving(after, t, id) <==> Moving(j, t, id);
  }

  lemma AlonePagesAreFree(v: Verifier, j: Job, a: Action)
    requires PassAlone(j) && Obeys(NoRepeats, v, j, a)
    ensures !MeetsBusy(j, a)
  {
    if a.FetchPage? && PagePossible(j, a.pass, a.listing, a.now) {
      var items := PageRows(j, a.pass, a.listing, a.now);
      forall r | 0 <= r < |items| ensures !MetBusy(j, items[r], a.now) {
        PageRowIsStored(j, a.pass, a.listing, a.now, r);
      }
    }
  }

  lemma {:induction false} DisciplinedNeverMeetsBusy(v: Verifier, actions: seq<Action>)
    requires Disciplined(Alone, v, START, actions) && Disciplined(NoRepeats, v, START, actions)
    ensures NeverMeetsBusy(v, actions) && PassAlone(JH.Run(v, actions))
  {
    if actions != [] {
      var front, a := actions[..|actions| - 1], actions[|actions| - 1];
      DisciplinedNeverMeetsBusy(v, front);
      AlonePagesAreFree(v, JH.Run(v, front), a);
      StepKeepsPassAlone(v, JH.Run(v, front), a);
    }
  }

  /** In particular, in every history that keeps the three disciplines no record is ever picked twice, and no
      status move is open on a row that is already EXPIRED, EXECUTED or ERROR. */
  lemma SubmittedAtMostOnce(v: Verifier, actions: seq<Action>)
    requires forall d :: Disciplined(d, v, START, actions)
    ensures var j := JH.Run(v, actions);
            && TasksDiffer(j)
            && (forall t, id :: Moving(j, t, id) && id in j.sys.store ==> !Terminal(j.sys.store[id].status))
  {
    assert forall d :: d == InTime || d == Alone || d == NoRepeats ==> Disciplined(d, v, START, actions);
    DisciplinedNeverMeetsBusy(v, actions);
    HandledOnceIff(v, actions);
  }
}
