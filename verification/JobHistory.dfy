/** The submission job beside the signing clients: whole histories of page reads, submissions and status moves,
    interleaved with the clients' reads and writes. Any number of passes may be under way at once, and every page
    comes from the store as it is at that moment, in any order: the query asks for none. */
module JobHistory {
  import opened Collections
  import opened MultisigRecord
  import opened MultisigProtocol
  import opened AutoSubmit

  type PassId = nat

  /** How far the job has got with a record it has picked: listed by a pass that still reads pages, due,
      submitted, or with its status move begun. */
  datatype Stage = Listed(pass: PassId) | Due | Sent(success: bool) | Done

  datatype Task = Task(purpose: Purpose, picked: Picked, stage: Stage)

  /** How many pages a pass has read, and whether that was all. */
  datatype Cursor = Cursor(read: nat, done: bool)

  /** Tasks are only ever added; their numbers are their positions. */
  datatype Job = Job(sys: State, clock: int, open: map<PassId, Cursor>, tasks: seq<Task>)

  const START := Job(INITIAL, 0, map[], [])

  datatype Action =
    | Client(event: Event)
    | BeginPass(pass: PassId)
    | FetchPage(pass: PassId, listing: seq<Id>, now: int)
    | EndPass(pass: PassId)
    | BeginExpire(ticket: Ticket, task: nat)
    | Submit(task: nat, success: bool)
    | BeginReport(ticket: Ticket, task: nat)

  function Items(store: map<Id, Record>, ids: seq<Id>): seq<Item>
    requires forall id :: id in ids ==> id in store
  {
    seq(|ids|, i requires 0 <= i < |ids| => Item(ids[i], store[ids[i]]))
  }

  /** What a pass makes of one page. */
  function NewTasks(pass: PassId, items: seq<Item>, now: int): seq<Task> {
    if items == [] then []
    else
      var rest := NewTasks(pass, items[..|items| - 1], now);
      var last := items[|items| - 1];
      if Picks(ToSubmit, last.row, now) then rest + [Task(ToSubmit, Picked(last.id, last.row, now), Listed(pass))]
      else if Picks(ToExpire, last.row, now) then rest + [Task(ToExpire, Picked(last.id, last.row, now), Listed(pass))]
      else rest
  }

  function Released(tasks: seq<Task>, pass: PassId): seq<Task> {
    seq(|tasks|, i requires 0 <= i < |tasks| => if tasks[i].stage == Listed(pass) then tasks[i].(stage := Due)
        else tasks[i])
  }

  function PageIds(listing: seq<Id>, p: nat): seq<Id>
    requires p >= 1
  {
    var from := Min((p - 1) * LIMIT, |listing|);
    listing[from..Min(from + LIMIT, |listing|)]
  }

  /** A pass that is not done reads its next page of the whole store, listed in some order. */
  ghost predicate PagePossible(j: Job, pass: PassId, listing: seq<Id>, now: int) {
    && pass in j.open && !j.open[pass].done && j.clock <= now
    && NoDup(listing) && Elements(listing) == j.sys.store.Keys
  }

  function NextPage(j: Job, pass: PassId, listing: seq<Id>): seq<Id>
    requires pass in j.open
  {
    PageIds(listing, j.open[pass].read + 1)
  }

  lemma PageIsOfStore(j: Job, pass: PassId, listing: seq<Id>, now: int)
    requires PagePossible(j, pass, listing, now)
    ensures NoDup(NextPage(j, pass, listing)) && forall id :: id in NextPage(j, pass, listing) ==> id in j.sys.store
  {
    assert forall id :: id in listing ==> id in Elements(listing);
  }

  /** The rows of the page. */
  ghost function PageRows(j: Job, pass: PassId, listing: seq<Id>, now: int): seq<Item>
    requires PagePossible(j, pass, listing, now)
  {
    PageIsOfStore(j, pass, listing, now);
    Items(j.sys.store, NextPage(j, pass, listing))
  }

  /** The loop's own test: it stops when the number of the next page has reached the number of pages. */
  function Advanced(cursor: Cursor, rows: nat): Cursor {
    Cursor(cursor.read + 1, cursor.read + 2 >= PagesOf(rows))
  }

  /** The status a job action is about to write, if it is one that can happen. */
  function MoveOf(j: Job, a: Action): Option<Status> {
    match a
    case BeginExpire(ticket, i) =>
      if ticket !in j.sys.flights && i < |j.tasks| && j.tasks[i].purpose == ToExpire && j.tasks[i].stage == Due
          then Some(Expired) else None
    case BeginReport(ticket, i) =>
      if ticket !in j.sys.flights && i < |j.tasks| && j.tasks[i].stage.Sent?
      then Some(if j.tasks[i].stage.success then Executed else Error) else None
    case _ => None
  }

  function Moved(v: Verifier, j: Job, ticket: Ticket, i: nat, status: Status): Job
    requires i < |j.tasks|
  {
    j.(tasks := j.tasks[i := j.tasks[i].(stage := Done)],
       sys := MultisigProtocol.Step(v, j.sys, Read(ticket, StatusRequest(j.tasks[i].picked.id, status))))
  }

  /** Only the job changes statuses; whatever is not possible leaves the state as it is. */
  ghost function Step(v: Verifier, j: Job, a: Action): Job {
    match a
    case Client(e) =>
      if e.Read? && e.request.StatusRequest? then j else j.(sys := MultisigProtocol.Step(v, j.sys, e))
    case BeginPass(pass) => if pass in j.open then j else j.(open := j.open[pass := Cursor(0, false)])
    case FetchPage(pass, listing, now) =>
      if PagePossible(j, pass, listing, now)
      then j.(clock := now, open := j.open[pass := Advanced(j.open[pass], |listing|)],
              tasks := j.tasks + NewTasks(pass, PageRows(j, pass, listing, now), now))
      else j
    case EndPass(pass) =>
      if pass in j.open && j.open[pass].done then j.(open := j.open - {pass}, tasks := Released(j.tasks, pass)) else j
    case Submit(i, success) =>
      if i < |j.tasks| && j.tasks[i].purpose == ToSubmit && j.tasks[i].stage == Due
      then j.(tasks := j.tasks[i := j.tasks[i].(stage := Sent(success))]) else j
    case BeginExpire(ticket, i) => if MoveOf(j, a).Some? then Moved(v, j, ticket, i, MoveOf(j, a).value) else j
    case BeginReport(ticket, i) => if MoveOf(j, a).Some? then Moved(v, j, ticket, i, MoveOf(j, a).value) else j
  }

  ghost function RunFrom(v: Verifier, j: Job, actions: seq<Action>): Job {
    if actions == [] then j else Step(v, RunFrom(v, j, actions[..|actions| - 1]), actions[|actions| - 1])
  }

  ghost function Run(v: Verifier, actions: seq<Action>): Job {
    RunFrom(v, START, actions)
  }

  /** The record has been submitted by way of this task. */
  predicate Submitted(t: Task) {
    t.purpose == ToSubmit && (t.stage.Sent? || t.stage.Done?)
  }

  // ---------- the job's histories are protocol runs ----------

  function Projection(j: Job, a: Action): seq<Event> {
    match a
    case Client(e) => if e.Read? && e.request.StatusRequest? then [] else [e]
    case BeginExpire(ticket, i) =>
      if MoveOf(j, a).Some? then [Read(ticket, StatusRequest(j.tasks[i].picked.id, MoveOf(j, a).value))] else []
    case BeginReport(ticket, i) =>
      if MoveOf(j, a).Some? then [Read(ticket, StatusRequest(j.tasks[i].picked.id, MoveOf(j, a).value))] else []
    case _ => []
  }

  ghost function Events(v: Verifier, actions: seq<Action>): seq<Event> {
    if actions == [] then []
    else Events(v, actions[..|actions| - 1]) + Projection(Run(v, actions[..|actions| - 1]), actions[|actions| - 1])
  }

  ghost predicate ValidatedActions(actions: seq<Action>) {
    forall a :: a in actions && a.Client? && a.event.Create? ==> Validated(a.event.dto)
  }

  lemma StepProjects(v: Verifier, j: Job, a: Action)
    ensures var more := Projection(j, a);
            && |more| <= 1
            && Step(v, j, a).sys == (if more == [] then j.sys else MultisigProtocol.Step(v, j.sys, more[0]))
            && JobStatusesOnly(more)
            && (forall e :: e in more && e.Create? ==> a == Client(e))
  {
  }

  lemma {:induction false} JobEventsAreTerminal(v: Verifier, actions: seq<Action>)
    ensures JobStatusesOnly(Events(v, actions))
    ensures ValidatedActions(actions) ==> ValidatedRun(Events(v, actions))
  {
    if actions != [] {
      var front, a := actions[..|actions| - 1], actions[|actions| - 1];
      JobEventsAreTerminal(v, front);
      StepProjects(v, Run(v, front), a);
      assert actions == front + [a];
    }
  }

  lemma {:induction false} RowsAreOfTheRun(v: Verifier, actions: seq<Action>)
    ensures Run(v, actions).sys == MultisigProtocol.Run(v, Events(v, actions))
  {
    if actions != [] {
      var front, a := actions[..|actions| - 1], actions[|actions| - 1];
      RowsAreOfTheRun(v, front);
      StepProjects(v, Run(v, front), a);
      Extends(v, Events(v, front), Projection(Run(v, front), a));
    }
  }

  /** The rows of every history are those of a run of the protocol that writes only the job's statuses. */
  lemma HistoriesAreRuns(v: Verifier, actions: seq<Action>)
    ensures Run(v, actions).sys == MultisigProtocol.Run(v, Events(v, actions))
    ensures JobStatusesOnly(Events(v, actions))
    ensures ValidatedActions(actions) ==> ValidatedRun(Events(v, actions))
  {
    RowsAreOfTheRun(v, actions);
    JobEventsAreTerminal(v, actions);
  }

  lemma Extends(v: Verifier, events: seq<Event>, more: seq<Event>)
    requires |more| <= 1
    ensures MultisigProtocol.Run(v, events + more) ==
            (if more == [] then MultisigProtocol.Run(v, events)
                else MultisigProtocol.Step(v, MultisigProtocol.Run(v, events), more[0]))
  {
    if more == [] {
      assert events + more == events;
    } else {
      assert more == [more[0]];
      StepAppends(v, events, more[0]);
    }
  }

  // ---------- what a page adds ----------

  /** The task at k comes from the row at i, which qualifies for its purpose. */
  ghost predicate ComesFromRow(pass: PassId, items: seq<Item>, now: int, t: Task, i: nat) {
    && i < |items| && t.picked == Picked(items[i].id, items[i].row, now) && t.stage == Listed(pass)
    && Picks(t.purpose, items[i].row, now)
  }

  lemma {:induction false} NewTaskOrigin(pass: PassId, items: seq<Item>, now: int, k: nat) returns (i: nat)
    requires k < |NewTasks(pass, items, now)|
    ensures ComesFromRow(pass, items, now, NewTasks(pass, items, now)[k], i)
  {
    var front := items[..|items| - 1];
    if k < |NewTasks(pass, front, now)| {
      i := NewTaskOrigin(pass, front, now, k);
    } else {
      i := |items| - 1;
    }
  }

  lemma {:induction false} NewTasksDiffer(pass: PassId, items: seq<Item>, now: int, k: nat, m: nat)
    requires DistinctIds(items) && k < m < |NewTasks(pass, items, now)|
    ensures NewTasks(pass, items, now)[k].picked.id != NewTasks(pass, items, now)[m].picked.id
  {
    var front := items[..|items| - 1];
    if m < |NewTasks(pass, front, now)| {
      NewTasksDiffer(pass, front, now, k, m);
    } else {
      var i := NewTaskOrigin(pass, front, now, k);
    }
  }

  /** What the tasks with this purpose have picked, in order. */
  function PicksOf(tasks: seq<Task>, purpose: Purpose): seq<Picked> {
    if tasks == [] then []
    else
      var last := tasks[|tasks| - 1];
      PicksOf(tasks[..|tasks| - 1], purpose) + if last.purpose == purpose then [last.picked] else []
  }

  lemma {:induction false} PicksOfConcat(a: seq<Task>, b: seq<Task>, purpose: Purpose)
    ensures PicksOf(a + b, purpose) == PicksOf(a, purpose) + PicksOf(b, purpose)
  {
    if b == [] {
      assert a + b == a;
    } else {
      assert (a + b)[..|a + b| - 1] == a + b[..|b| - 1];
      PicksOfConcat(a, b[..|b| - 1], purpose);
    }
  }

  lemma {:induction false} PageIsFiltered(pass: PassId, items: seq<Item>, now: int, purpose: Purpose)
    ensures PicksOf(NewTasks(pass, items, now), purpose) == Filter(purpose, items, now)
  {
    if items != [] {
      var front := items[..|items| - 1];
      PageIsFiltered(pass, front, now, purpose);
      var rest, all := NewTasks(pass, front, now), NewTasks(pass, items, now);
      if all != rest {
        assert all[..|all| - 1] == rest;
      }
    }
  }

  lemma {:induction false} ReleasingPicksNothing(tasks: seq<Task>, pass: PassId, purpose: Purpose)
    ensures PicksOf(Released(tasks, pass), purpose) == PicksOf(tasks, purpose)
  {
    if tasks != [] {
      ReleasingPicksNothing(tasks[..|tasks| - 1], pass, purpose);
      assert Released(tasks, pass)[..|tasks| - 1] == Released(tasks[..|tasks| - 1], pass);
    }
  }

  /** The page reads of a pass that finds one listing of the store all the time. */
  function Fetches(pass: PassId, listing: seq<Id>, clock: nat -> int, k: nat): seq<Action> {
    if k == 0 then [] else Fetches(pass, listing, clock, k - 1) + [FetchPage(pass, listing, clock(k))]
  }

  ghost predicate Steady(j: Job, pass: PassId, listing: seq<Id>, clock: nat -> int) {
    && pass in j.open && j.open[pass] == Cursor(0, false) && NoDup(listing) && Elements(listing) == j.sys.store.Keys
    && forall p, q :: 1 <= p <= q ==> j.clock <= clock(p) <= clock(q)
  }

  lemma RunAppends(v: Verifier, j: Job, actions: seq<Action>, a: Action)
    ensures RunFrom(v, j, actions + [a]) == Step(v, RunFrom(v, j, actions), a)
  {
    assert (actions + [a])[..|actions|] == actions;
  }

  lemma FetchPicks(v: Verifier, j: Job, pass: PassId, listing: seq<Id>, now: int, purpose: Purpose)
    requires PagePossible(j, pass, listing, now)
    ensures var after := Step(v, j, FetchPage(pass, listing, now));
            && after.sys == j.sys && after.clock == now
            && after.open == j.open[pass := Advanced(j.open[pass], |listing|)]
            && PicksOf(after.tasks, purpose) ==
               PicksOf(j.tasks, purpose) + Filter(purpose, PageRows(j, pass, listing, now), now)
  {
    var rows := PageRows(j, pass, listing, now);
    PageIsFiltered(pass, rows, now, purpose);
    PicksOfConcat(j.tasks, NewTasks(pass, rows, now), purpose);
  }

  /** After k pages of the listing the job has picked what they hold, and the loop knows whether to go on. */
  ghost predicate HasFetched(j: Job, now: Job, pass: PassId, all: seq<Item>, clock: nat -> int, k: nat,
                             purpose: Purpose) {
    && now.sys == j.sys && now.clock == (if k == 0 then j.clock else clock(k))
    && now.open == j.open[pass := CursorAfter(k, |all|)]
    && PicksOf(now.tasks, purpose) == PicksOf(j.tasks, purpose) + FromPages(purpose, all, clock, k)
  }

  function CursorAfter(k: nat, rows: nat): Cursor {
    Cursor(k, k > 0 && k + 1 >= PagesOf(rows))
  }

  lemma CursorAdvances(open: map<PassId, Cursor>, pass: PassId, k: nat, rows: nat)
    ensures var before := open[pass := CursorAfter(k, rows)];
            before[pass := Advanced(before[pass], rows)] == open[pass := CursorAfter(k + 1, rows)]
  {
  }

  lemma NothingFetched(j: Job, pass: PassId, all: seq<Item>, clock: nat -> int, purpose: Purpose)
    requires pass in j.open && j.open[pass] == Cursor(0, false)
    ensures HasFetched(j, j, pass, all, clock, 0, purpose)
  {
    assert j.open[pass := Cursor(0, false)] == j.open;
  }

  lemma NextFetch(v: Verifier, j: Job, now: Job, pass: PassId, listing: seq<Id>, all: seq<Item>, clock: nat -> int,
                  k: nat, purpose: Purpose)
    requires HasFetched(j, now, pass, all, clock, k, purpose) && PagePossible(now, pass, listing, clock(k + 1))
    requires |all| == |listing| && PageRows(now, pass, listing, clock(k + 1)) == Page(all, k + 1)
    ensures HasFetched(j, Step(v, now, FetchPage(pass, listing, clock(k + 1))), pass, all, clock, k + 1, purpose)
  {
    FetchPicks(v, now, pass, listing, clock(k + 1), purpose);
    CursorAdvances(j.open, pass, k, |listing|);
    var before, more := FromPages(purpose, all, clock, k), Filter(purpose, Page(all, k + 1), clock(k + 1));
    assert FromPages(purpose, all, clock, k + 1) == before + more;
    assert PicksOf(j.tasks, purpose) + before + more == PicksOf(j.tasks, purpose) + (before + more);
  }

  /** Page p of the listing is one the loop reads, after the page before it. */
  ghost predicate PageReady(j: Job, listing: seq<Id>, all: seq<Item>, clock: nat -> int, p: nat)
    requires p >= 1
  {
    && NoDup(listing) && Elements(listing) == j.sys.store.Keys && |all| == |listing|
    && (forall id :: id in PageIds(listing, p) ==> id in j.sys.store)
    && Items(j.sys.store, PageIds(listing, p)) == Page(all, p)
    && (if p == 1 then j.clock else clock(p - 1)) <= clock(p)
    && (p > 1 ==> p < TotalPages(all))
  }

  /** The state after k page reads. */
  ghost function Fetched(v: Verifier, j: Job, pass: PassId, listing: seq<Id>, clock: nat -> int, k: nat): Job {
    if k == 0 then j else Step(v, Fetched(v, j, pass, listing, clock, k - 1), FetchPage(pass, listing, clock(k)))
  }

  lemma {:induction false} FetchesRun(v: Verifier, j: Job, pass: PassId, listing: seq<Id>, clock: nat -> int, k: nat)
    ensures RunFrom(v, j, Fetches(pass, listing, clock, k)) == Fetched(v, j, pass, listing, clock, k)
  {
    if k > 0 {
      FetchesRun(v, j, pass, listing, clock, k - 1);
      RunAppends(v, j, Fetches(pass, listing, clock, k - 1), FetchPage(pass, listing, clock(k)));
    }
  }

  lemma OneMorePage(v: Verifier, j: Job, now: Job, pass: PassId, listing: seq<Id>, all: seq<Item>, clock: nat -> int,
                    k: nat, purpose: Purpose) returns (after: Job)
    requires PageReady(j, listing, all, clock, k + 1) && HasFetched(j, now, pass, all, clock, k, purpose)
    ensures after == Step(v, now, FetchPage(pass, listing, clock(k + 1)))
    ensures HasFetched(j, after, pass, all, clock, k + 1, purpose)
  {
    NextFetch(v, j, now, pass, listing, all, clock, k, purpose);
    after := Step(v, now, FetchPage(pass, listing, clock(k + 1)));
  }

  lemma {:induction false} FetchedCollects(v: Verifier, j: Job, pass: PassId, listing: seq<Id>, all: seq<Item>,
                                           clock: nat -> int, k: nat, purpose: Purpose) returns (now: Job)
    requires pass in j.open && j.open[pass] == Cursor(0, false)
    requires forall p: nat :: 1 <= p <= k ==> PageReady(j, listing, all, clock, p)
    ensures now == Fetched(v, j, pass, listing, clock, k) && HasFetched(j, now, pass, all, clock, k, purpose)
  {
    if k == 0 {
      now := j;
      NothingFetched(j, pass, all, clock, purpose);
    } else {
      var before := FetchedCollects(v, j, pass, listing, all, clock, k - 1, purpose);
      now := OneMorePage(v, j, before, pass, listing, all, clock, k - 1, purpose);
    }
  }

  lemma SteadyPageReady(j: Job, pass: PassId, listing: seq<Id>, all: seq<Item>, clock: nat -> int, p: nat)
    requires Steady(j, pass, listing, clock) && (forall id :: id in listing ==> id in j.sys.store)
    requires all == Items(j.sys.store, listing) && 1 <= p <= LastRead(all)
    ensures PageReady(j, listing, all, clock, p)
  {
    assert j.clock <= clock(p) <= clock(p);
    assert p > 1 ==> clock(p - 1) <= clock(p);
  }

  lemma EndedPassPicks(v: Verifier, j: Job, now: Job, fetches: seq<Action>, pass: PassId, purpose: Purpose)
    requires RunFrom(v, j, fetches) == now && pass in now.open && now.open[pass].done
    ensures var after := RunFrom(v, j, fetches + [EndPass(pass)]);
            pass !in after.open && PicksOf(after.tasks, purpose) == PicksOf(now.tasks, purpose)
  {
    RunAppends(v, j, fetches, EndPass(pass));
    ReleasingPicksNothing(now.tasks, pass, purpose);
  }

  lemma ReadyPagesCollect(v: Verifier, j: Job, pass: PassId, listing: seq<Id>, all: seq<Item>, clock: nat -> int,
                          purpose: Purpose)
    requires pass in j.open && j.open[pass] == Cursor(0, false)
    requires forall p: nat :: 1 <= p <= LastRead(all) ==> PageReady(j, listing, all, clock, p)
    ensures var after := RunFrom(v, j, Fetches(pass, listing, clock, LastRead(all)) + [EndPass(pass)]);
            && pass !in after.open
            && PicksOf(after.tasks, purpose) == PicksOf(j.tasks, purpose) + Collected(purpose, all, clock)
  {
    var k := LastRead(all);
    var now := FetchedCollects(v, j, pass, listing, all, clock, k, purpose);
    FetchesRun(v, j, pass, listing, clock, k);
    EndedPassPicks(v, j, now, Fetches(pass, listing, clock, k), pass, purpose);
  }

  /** A pass that finds one listing all the time, and no other action in between, ends by itself after the pages
      the paging loop reads, and picks what that loop collects, for either purpose. */
  lemma StablePassCollects(v: Verifier, j: Job, pass: PassId, listing: seq<Id>, clock: nat -> int, purpose: Purpose)
    requires Steady(j, pass, listing, clock)
    ensures forall id :: id in listing ==> id in j.sys.store
    ensures var all := Items(j.sys.store, listing);
            var after := RunFrom(v, j, Fetches(pass, listing, clock, LastRead(all)) + [EndPass(pass)]);
            && pass !in after.open
            && PicksOf(after.tasks, purpose) == PicksOf(j.tasks, purpose) + Collected(purpose, all, clock)
  {
    assert forall id :: id in listing ==> id in Elements(listing);
    var all := Items(j.sys.store, listing);
    forall p: nat | 1 <= p <= LastRead(all) ensures PageReady(j, listing, all, clock, p) {
      SteadyPageReady(j, pass, listing, all, clock, p);
    }
    ReadyPagesCollect(v, j, pass, listing, all, clock, purpose);
  }

  // ---------- what is submitted, and when ----------

  ghost predicate PickedSoundly(v: Verifier, p: Picked) {
    QuorumSafe(v, p.row) && p.row.status == Signed && StartDate(p.row) <= p.readAt < StartDate(p.row) + WINDOW
  }

  ghost predicate SubmitsSoundly(v: Verifier, j: Job) {
    forall i :: 0 <= i < |j.tasks| && j.tasks[i].purpose == ToSubmit ==> PickedSoundly(v, j.tasks[i].picked)
  }

  lemma PageRowIsStored(j: Job, pass: PassId, listing: seq<Id>, now: int, k: nat)
    requires PagePossible(j, pass, listing, now) && k < |PageRows(j, pass, listing, now)|
    ensures var row := PageRows(j, pass, listing, now)[k];
            row.id in NextPage(j, pass, listing) && row.id in j.sys.store && row.row == j.sys.store[row.id]
  {
    PageIsOfStore(j, pass, listing, now);
  }

  /** What a step leaves of the tasks: their purposes and picks, and one page more for a page read. */
  lemma StepKeepsPicks(v: Verifier, j: Job, a: Action)
    ensures var (after, n) := (Step(v, j, a), |j.tasks|);
            && n <= |after.tasks|
            && (forall i :: 0 <= i < n ==>
                 after.tasks[i].purpose == j.tasks[i].purpose && after.tasks[i].picked == j.tasks[i].picked)
            && (|after.tasks| > n ==>
                 && a.FetchPage? && PagePossible(j, a.pass, a.listing, a.now)
                 && after.tasks[n..] == NewTasks(a.pass, PageRows(j, a.pass, a.listing, a.now), a.now))
  {
  }

  /** In every history, a record is only ever submitted as it was when it was SIGNED, inside its window and
      carrying a full quorum of verified signatures of its own listed keys. */
  lemma {:induction false} OnlyQuorumsAreSubmitted(v: Verifier, actions: seq<Action>)
    requires ValidatedActions(actions)
    ensures SubmitsSoundly(v, Run(v, actions))
  {
    if actions != [] {
      var front, a := actions[..|actions| - 1], actions[|actions| - 1];
      forall b | b in front ensures b in actions { }
      OnlyQuorumsAreSubmitted(v, front);
      HistoriesAreRuns(v, front);
      QuorumSafeAlways(v, Events(v, front));
      StepSubmitsSoundly(v, Run(v, front), a);
    }
  }

  lemma StepSubmitsSoundly(v: Verifier, j: Job, a: Action)
    requires SubmitsSoundly(v, j) && forall id :: id in j.sys.store ==> QuorumSafe(v, j.sys.store[id])
    ensures SubmitsSoundly(v, Step(v, j, a))
  {
    var after, n := Step(v, j, a), |j.tasks|;
    StepKeepsPicks(v, j, a);
    forall i | 0 <= i < |after.tasks| && after.tasks[i].purpose == ToSubmit
      ensures PickedSoundly(v, after.tasks[i].picked)
    {
      if i >= n {
        var items := PageRows(j, a.pass, a.listing, a.now);
        var k := NewTaskOrigin(a.pass, items, a.now, i - n);
        assert after.tasks[n..][i - n] == after.tasks[i];
        PageRowIsStored(j, a.pass, a.listing, a.now, k);
      }
    }
  }

  /** Every pick is a row of its record, read no later than now and in order, and qualifies for its purpose. */
  ghost predicate Dated(j: Job) {
    && (forall i :: 0 <= i < |j.tasks| ==>
         var p := j.tasks[i].picked;
         p.readAt <= j.clock && p.id in j.sys.issued && SameHeader(p.row, j.sys.issued[p.id])
             && Picks(j.tasks[i].purpose, p.row, p.readAt))
    && (forall i, k :: 0 <= i < k < |j.tasks| ==> j.tasks[i].picked.readAt <= j.tasks[k].picked.readAt)
  }

  lemma StepKeepsDated(v: Verifier, j: Job, a: Action)
    requires Dated(j) && HeadersKept(j.sys)
    ensures Dated(Step(v, j, a))
  {
    var after, n := Step(v, j, a), |j.tasks|;
    StepKeepsPicks(v, j, a);
    StepProjects(v, j, a);
    if Projection(j, a) != [] {
      StepKeepsHeaders(v, j.sys, Projection(j, a)[0]);
    }
    forall i | n <= i < |after.tasks|
      ensures after.tasks[i].picked.readAt == a.now && after.tasks[i].picked.id in j.sys.store
      ensures after.tasks[i].picked.row == j.sys.store[after.tasks[i].picked.id]
      ensures Picks(after.tasks[i].purpose, after.tasks[i].picked.row, a.now)
    {
      var items := PageRows(j, a.pass, a.listing, a.now);
      var k := NewTaskOrigin(a.pass, items, a.now, i - n);
      assert after.tasks[n..][i - n] == after.tasks[i];
      PageRowIsStored(j, a.pass, a.listing, a.now, k);
    }
  }

  lemma {:induction false} AlwaysDated(v: Verifier, actions: seq<Action>)
    ensures Dated(Run(v, actions)) && HeadersKept(Run(v, actions).sys)
  {
    HistoriesAreRuns(v, actions);
    HeadersNeverChange(v, Events(v, actions));
    if actions != [] {
      AlwaysDated(v, actions[..|actions| - 1]);
      StepKeepsDated(v, Run(v, actions[..|actions| - 1]), actions[|actions| - 1]);
    }
  }

  /** In every history: a record once picked for expiry, by whichever pass, is never picked for submission
      afterwards, whatever lands on it and even if its status move is lost. */
  lemma OverdueNeverSubmitted(v: Verifier, actions: seq<Action>, i: nat, k: nat)
    requires i < k < |Run(v, actions).tasks| && Run(v, actions).tasks[i].purpose == ToExpire
    requires Run(v, actions).tasks[k].picked.id == Run(v, actions).tasks[i].picked.id
    ensures Run(v, actions).tasks[k].purpose == ToExpire
  {
    AlwaysDated(v, actions);
  }
}
