/** Every status the job has written reports what it did: EXECUTED a successful submission, ERROR a failed one,
    EXPIRED a record picked for expiry. */
module JobReports {
  import opened Collections
  import opened MultisigRecord
  import opened MultisigProtocol
  import opened AutoSubmit
  import opened JH = JobHistory

  /** Action m has submitted the record by way of task i, with this outcome. */
  ghost predicate SubmittedBy(v: Verifier, actions: seq<Action>, m: nat, i: nat, success: bool, id: Id)
    requires m < |actions|
  {
    var j := JH.Run(v, actions[..m]);
    && actions[m] == Submit(i, success)
    && i < |j.tasks| && j.tasks[i].purpose == ToSubmit && j.tasks[i].stage == Due && j.tasks[i].picked.id == id
  }

  ghost predicate WasSubmitted(v: Verifier, actions: seq<Action>, success: bool, id: Id) {
    exists m: nat, i: nat :: m < |actions| && SubmittedBy(v, actions, m, i, success, id)
  }

  ghost predicate WasOverdue(j: Job, id: Id) {
    exists i :: 0 <= i < |j.tasks| && j.tasks[i].purpose == ToExpire && j.tasks[i].picked.id == id
  }

  /** What has happened to the record if it has this status. */
  ghost predicate Explained(v: Verifier, actions: seq<Action>, id: Id, status: Status) {
    match status
    case Executed => WasSubmitted(v, actions, true, id)
    case Error => WasSubmitted(v, actions, false, id)
    case Expired => WasOverdue(JH.Run(v, actions), id)
    case Signed => true
    case Pending => true
  }

  /** Every status that is stored, that an open request has read, or that one is about to write. */
  ghost predicate AllExplained(v: Verifier, actions: seq<Action>) {
    var j := JH.Run(v, actions);
    && (forall id :: id in j.sys.store ==> Explained(v, actions, id, j.sys.store[id].status))
    && (forall t :: t in j.sys.flights ==>
         var f := j.sys.flights[t];
         && Explained(v, actions, f.request.id, f.base.status)
         && (f.request.StatusRequest? ==> Explained(v, actions, f.request.id, f.request.status)))
    && (forall i :: 0 <= i < |j.tasks| && j.tasks[i].stage.Sent? ==>
         WasSubmitted(v, actions, j.tasks[i].stage.success, j.tasks[i].picked.id))
  }

  lemma StillExplained(v: Verifier, front: seq<Action>, a: Action, id: Id, status: Status)
    requires Explained(v, front, id, status)
    ensures Explained(v, front + [a], id, status)
  {
    if status == Executed {
      StillSubmitted(v, front, a, true, id);
    } else if status == Error {
      StillSubmitted(v, front, a, false, id);
    } else if status == Expired {
      var j := JH.Run(v, front);
      RunAppends(v, START, front, a);
      StepKeepsPicks(v, j, a);
      var i :| 0 <= i < |j.tasks| && j.tasks[i].purpose == ToExpire && j.tasks[i].picked.id == id;
      var after := JH.Run(v, front + [a]);
      assert after.tasks[i].purpose == ToExpire && after.tasks[i].picked.id == id;
    }
  }

  lemma StillSubmitted(v: Verifier, front: seq<Action>, a: Action, success: bool, id: Id)
    requires WasSubmitted(v, front, success, id)
    ensures WasSubmitted(v, front + [a], success, id)
  {
    var m: nat, i: nat :| m < |front| && SubmittedBy(v, front, m, i, success, id);
    var all := front + [a];
    assert all[..m] == front[..m] && all[m] == front[m];
    assert SubmittedBy(v, all, m, i, success, id);
  }

  lemma SubmittedNow(v: Verifier, front: seq<Action>, i: nat, success: bool)
    requires var j := JH.Run(v, front); i < |j.tasks| && j.tasks[i].purpose == ToSubmit && j.tasks[i].stage == Due
    ensures WasSubmitted(v, front + [Submit(i, success)], success, JH.Run(v, front).tasks[i].picked.id)
  {
    var all := front + [Submit(i, success)];
    assert all[..|front|] == front;
    assert SubmittedBy(v, all, |front|, i, success, JH.Run(v, front).tasks[i].picked.id);
  }

  // ---------- the step ----------

  lemma ClientExplained(v: Verifier, front: seq<Action>, e: Event)
    requires AllExplained(v, front)
    ensures AllExplained(v, front + [Client(e)])
  {
    var all, j := front + [Client(e)], JH.Run(v, front);
    RunAppends(v, START, front, Client(e));
    forall id, status | Explained(v, front, id, status) ensures Explained(v, all, id, status) {
      StillExplained(v, front, Client(e), id, status);
    }
    forall i | 0 <= i < |j.tasks| && j.tasks[i].stage.Sent?
      ensures WasSubmitted(v, all, j.tasks[i].stage.success, j.tasks[i].picked.id)
    {
      StillSubmitted(v, front, Client(e), j.tasks[i].stage.success, j.tasks[i].picked.id);
    }
  }

  /** What a status move leaves: the store as it was, and one more request at most. */
  lemma MoveOpens(v: Verifier, j: Job, a: Action)
    requires MoveOf(j, a).Some?
    ensures var after, id := JH.Step(v, j, a), j.tasks[a.task].picked.id;
            && after.sys.store == j.sys.store && after.tasks == j.tasks[a.task := j.tasks[a.task].(stage := Done)]
            && forall t :: t in after.sys.flights && t !in j.sys.flights ==>
                 && id in j.sys.store
                 && after.sys.flights[t] == Flight(StatusRequest(id, MoveOf(j, a).value), j.sys.store[id])
    ensures forall t :: t in j.sys.flights ==>
              t in JH.Step(v, j, a).sys.flights && JH.Step(v, j, a).sys.flights[t] == j.sys.flights[t]
  {
  }

  lemma MoveExplained(v: Verifier, front: seq<Action>, a: Action)
    requires AllExplained(v, front) && (a.BeginExpire? || a.BeginReport?)
    ensures AllExplained(v, front + [a])
  {
    var all, j := front + [a], JH.Run(v, front);
    RunAppends(v, START, front, a);
    forall id, status | Explained(v, front, id, status) ensures Explained(v, all, id, status) {
      StillExplained(v, front, a, id, status);
    }
    if MoveOf(j, a).Some? {
      MoveOpens(v, j, a);
      assert Explained(v, front, j.tasks[a.task].picked.id, MoveOf(j, a).value);
    }
    var after := JH.Run(v, all);
    forall i | 0 <= i < |after.tasks| && after.tasks[i].stage.Sent?
      ensures WasSubmitted(v, all, after.tasks[i].stage.success, after.tasks[i].picked.id)
    {
      StillSubmitted(v, front, a, j.tasks[i].stage.success, j.tasks[i].picked.id);
    }
  }

  lemma OthersExplained(v: Verifier, front: seq<Action>, a: Action)
    requires AllExplained(v, front) && (a.BeginPass? || a.FetchPage? || a.EndPass? || a.Submit?)
    ensures AllExplained(v, front + [a])
  {
    var all, j := front + [a], JH.Run(v, front);
    RunAppends(v, START, front, a);
    var after := JH.Run(v, all);
    assert after.sys == j.sys;
    forall id, status | Explained(v, front, id, status) ensures Explained(v, all, id, status) {
      StillExplained(v, front, a, id, status);
    }
    StepKeepsPicks(v, j, a);
    forall i | |j.tasks| <= i < |after.tasks| ensures !after.tasks[i].stage.Sent? {
      var k := NewTaskOrigin(a.pass, PageRows(j, a.pass, a.listing, a.now), a.now, i - |j.tasks|);
      assert after.tasks[|j.tasks|..][i - |j.tasks|] == after.tasks[i];
    }
    forall i | 0 <= i < |after.tasks| && after.tasks[i].stage.Sent?
      ensures WasSubmitted(v, all, after.tasks[i].stage.success, after.tasks[i].picked.id)
    {
      if i < |j.tasks| && after.tasks[i].stage == j.tasks[i].stage {
        StillSubmitted(v, front, a, j.tasks[i].stage.success, j.tasks[i].picked.id);
      } else if i < |j.tasks| {
        SubmittedNow(v, front, i, a.success);
      }
    }
  }

  /** In every history: an EXECUTED row belongs to a record that an action of the history has submitted with
      success, an ERROR row to one submitted without, an EXPIRED row to one picked for expiry; and so does every
      status a request is about to write. */
  lemma {:induction false} StatusesAreReports(v: Verifier, actions: seq<Action>)
    ensures AllExplained(v, actions)
  {
    if actions != [] {
      var front, a := actions[..|actions| - 1], actions[|actions| - 1];
      assert actions == front + [a];
      StatusesAreReports(v, front);
      match a
      case Client(e) => ClientExplained(v, front, e);
      case BeginExpire(_, _) => MoveExplained(v, front, a);
      case BeginReport(_, _) => MoveExplained(v, front, a);
      case _ => OthersExplained(v, front, a);
    }
  }

  // ---------- and everything done is reported ----------

  /** After a submission, the report on a row that is still there opens exactly the request that says how it went;
      for a record due for expiry, the one that says EXPIRED. */
  lemma ReportsSayWhatHappened(v: Verifier, actions: seq<Action>, ticket: Ticket, i: nat)
    requires var j := JH.Run(v, actions);
             i < |j.tasks| && j.tasks[i].picked.id in j.sys.store && ticket !in j.sys.flights
    ensures var j := JH.Run(v, actions);
            var (id, row) := (j.tasks[i].picked.id, j.sys.store[j.tasks[i].picked.id]);
            && (forall success :: j.tasks[i].stage == Sent(success) ==>
                 JH.Step(v, j, BeginReport(ticket, i)).sys.flights ==
                 j.sys.flights[ticket := Flight(StatusRequest(id, if success then Executed else Error), row)])
            && (j.tasks[i].stage == Due && j.tasks[i].purpose == ToExpire ==>
                 JH.Step(v, j, BeginExpire(ticket, i)).sys.flights ==
                 j.sys.flights[ticket := Flight(StatusRequest(id, Expired), row)])
  {
    AlwaysDated(v, actions);
    assert IsUuid(JH.Run(v, actions).tasks[i].picked.id);
  }

  /** A submission is on record until it is reported: it makes its task await exactly that report. */
  lemma SubmissionsAwaitReport(v: Verifier, actions: seq<Action>, i: nat, success: bool)
    requires var j := JH.Run(v, actions); i < |j.tasks| && j.tasks[i].purpose == ToSubmit && j.tasks[i].stage == Due
    ensures var (j, after) := (JH.Run(v, actions), JH.Run(v, actions + [Submit(i, success)]));
            && after.tasks == j.tasks[i := j.tasks[i].(stage := Sent(success))]
            && after.sys == j.sys && after.open == j.open && after.clock == j.clock
  {
    RunAppends(v, START, actions, Submit(i, success));
  }

  // ---------- nothing is done before its pass ends ----------

  /** Action m is a page read of the pass that has added task i. */
  ghost predicate ListedBy(v: Verifier, actions: seq<Action>, m: nat, pass: PassId, i: nat)
    requires m < |actions|
  {
    && actions[m].FetchPage? && actions[m].pass == pass
    && |JH.Run(v, actions[..m]).tasks| <= i < |JH.Run(v, actions[..m + 1]).tasks|
  }

  /** Action n ends the pass, which has read all its pages. */
  ghost predicate EndsPass(v: Verifier, actions: seq<Action>, n: nat, pass: PassId)
    requires n < |actions|
  {
    var open := JH.Run(v, actions[..n]).open;
    actions[n] == EndPass(pass) && pass in open && open[pass].done
  }

  ghost predicate EndedSince(v: Verifier, actions: seq<Action>, m: nat, pass: PassId) {
    exists n: nat :: m < n < |actions| && EndsPass(v, actions, n, pass)
  }

  /** Task i is listed by the pass as long as the pass goes on, and no longer. */
  ghost predicate HeldBack(v: Verifier, actions: seq<Action>, m: nat, pass: PassId, i: nat) {
    var tasks := JH.Run(v, actions).tasks;
    && m < |actions| && i < |tasks| && ListedBy(v, actions, m, pass, i)
    && (tasks[i].stage == Listed(pass) <==> !EndedSince(v, actions, m, pass))
    && (tasks[i].stage.Listed? ==> tasks[i].stage.pass == pass)
  }

  lemma EndedSinceOneMore(v: Verifier, front: seq<Action>, a: Action, m: nat, pass: PassId)
    requires m < |front|
    ensures EndedSince(v, front + [a], m, pass) <==>
            EndedSince(v, front, m, pass) || EndsPass(v, front + [a], |front|, pass)
  {
    var all := front + [a];
    forall n: nat | n < |front| ensures EndsPass(v, all, n, pass) <==> EndsPass(v, front, n, pass) {
      assert all[..n] == front[..n];
    }
  }

  lemma TaskMovesOn(v: Verifier, j: Job, a: Action, i: nat)
    requires i < |j.tasks|
    ensures var after := JH.Step(v, j, a);
            && i < |after.tasks|
            && (after.tasks[i].stage.Listed? <==>
                 && j.tasks[i].stage.Listed?
                 && !(a == EndPass(j.tasks[i].stage.pass) && a.pass in j.open && j.open[a.pass].done))
            && (after.tasks[i].stage.Listed? ==> after.tasks[i].stage == j.tasks[i].stage)
  {
  }

  lemma OldTaskHeldBack(v: Verifier, front: seq<Action>, a: Action, m: nat, pass: PassId, i: nat)
    requires HeldBack(v, front, m, pass, i)
    ensures HeldBack(v, front + [a], m, pass, i)
  {
    var all := front + [a];
    RunAppends(v, START, front, a);
    assert all[..m] == front[..m] && all[..m + 1] == front[..m + 1] && all[..|front|] == front;
    TaskMovesOn(v, JH.Run(v, front), a, i);
    EndedSinceOneMore(v, front, a, m, pass);
  }

  /** In every history, whichever passes overlap: each task was listed by one page read, and is held back exactly
      until an action ends the pass of that read. So nothing is submitted or expired before. */
  lemma {:induction false} HeldBackUntilPassEnds(v: Verifier, actions: seq<Action>, i: nat)
    returns (m: nat, pass: PassId)
    requires i < |JH.Run(v, actions).tasks|
    ensures HeldBack(v, actions, m, pass, i)
  {
    var front, a := actions[..|actions| - 1], actions[|actions| - 1];
    var j := JH.Run(v, front);
    assert actions == front + [a];
    RunAppends(v, START, front, a);
    if i < |j.tasks| {
      m, pass := HeldBackUntilPassEnds(v, front, i);
      OldTaskHeldBack(v, front, a, m, pass, i);
    } else {
      m, pass := |front|, a.pass;
      var k := NewTaskOrigin(pass, PageRows(j, pass, a.listing, a.now), a.now, i - |j.tasks|);
      assert actions[..m + 1] == actions;
    }
  }
}
