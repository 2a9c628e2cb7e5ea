/** The transaction service as a protocol. Every request reads a row, works on its own copy and later
    saves the whole copy; any number of requests may be between their read and their write at once. */
module MultisigProtocol {
  import opened Collections
  import opened MultisigRecord
  import HexCodec

  type Ticket = nat

  datatype Request =
    | SignRequest(id: Id, key: Key, sig: Signature)
    | StatusRequest(id: Id, status: Status)
    | DeleteRequest(id: Id)

  /** A request between its read and its write, with the row as it was read. */
  datatype Flight = Flight(request: Request, base: Record)

  datatype Write = Save(row: Record) | Erase

  /** `issued` remembers the row each identifier was created with: the generator makes well-formed
      identifiers and never repeats one. */
  datatype State = State(store: map<Id, Record>, flights: map<Ticket, Flight>, issued: map<Id, Record>)

  const INITIAL := State(map[], map[], map[])

  datatype Event =
    | Create(id: Id, dto: CreateRequest)
    | Read(ticket: Ticket, request: Request)
    | Finish(ticket: Ticket)

  predicate IsUuid(id: Id) {
    && |id| == 36
    && forall i :: 0 <= i < 36 ==> if i in {8, 13, 18, 23} then id[i] == '-' else HexCodec.IsHexDigit(id[i])
  }

  /** What a request works out from the row it has read. */
  function Decide(v: Verifier, request: Request, base: Record): Result<Write, ServiceError> {
    match request
    case SignRequest(_, key, sig) =>
      (match Sign(v, base, key, sig)
       case Success(next) => Success(Save(next))
       case Failure(e) => Failure(e))
    case StatusRequest(_, status) => Success(Save(base.(status := status)))
    case DeleteRequest(_) => Success(Erase)
  }

  /** The checks of one request up to its write. */
  function Attempt(v: Verifier, store: map<Id, Record>, request: Request): Result<Write, ServiceError> {
    if !IsUuid(request.id) then Failure(if request.DeleteRequest? then TransactionNotFound else InvalidUuid)
    else if request.id !in store then Failure(TransactionNotFound)
    else Decide(v, request, store[request.id])
  }

  /** Saving is an upsert of the whole row; it does not look at what the row has become meanwhile. */
  function Apply(store: map<Id, Record>, id: Id, write: Write): map<Id, Record> {
    match write
    case Save(row) => store[id := row]
    case Erase => store - {id}
  }

  function Step(v: Verifier, s: State, e: Event): State {
    match e
    case Create(id, dto) =>
      if id in s.issued || !IsUuid(id) then s
      else s.(store := s.store[id := NewRecord(dto)], issued := s.issued[id := NewRecord(dto)])
    case Read(ticket, request) =>
      if ticket !in s.flights && Attempt(v, s.store, request).Success?
      then s.(flights := s.flights[ticket := Flight(request, s.store[request.id])])
      else s
    case Finish(ticket) =>
      if ticket in s.flights && Decide(v, s.flights[ticket].request, s.flights[ticket].base).Success?
      then
        var f := s.flights[ticket];
        s.(store := Apply(s.store, f.request.id, Decide(v, f.request, f.base).value), flights := s.flights - {ticket})
      else s
  }

  function Run(v: Verifier, events: seq<Event>): State {
    if events == [] then INITIAL else Step(v, Run(v, events[..|events| - 1]), events[|events| - 1])
  }

  // ---------- quorum safety ----------

  /** Created rows come from validated requests. */
  ghost predicate ValidatedRun(events: seq<Event>) {
    forall e :: e in events && e.Create? ==> Validated(e.dto)
  }

  /** Status updates are the ones the submission job makes. */
  ghost predicate JobStatusesOnly(events: seq<Event>) {
    forall e :: e in events && e.Read? && e.request.StatusRequest? ==> Terminal(e.request.status)
  }

  ghost predicate KeysSafe(v: Verifier, s: State) {
    && (forall id :: id in s.store ==> KeySafe(v, s.store[id]))
    && (forall t :: t in s.flights ==> KeySafe(v, s.flights[t].base))
  }

  ghost predicate StatusesSafe(s: State) {
    && (forall id :: id in s.store ==> StatusSafe(s.store[id]))
    && (forall t :: t in s.flights ==> StatusSafe(s.flights[t].base))
    && (forall t :: t in s.flights && s.flights[t].request.StatusRequest? ==> Terminal(s.flights[t].request.status))
  }

  /** Under every interleaving, and whatever statuses are written, keys and signatures stay sound:
      no key listed or counted twice, no stranger's key, every signature verifying at its index. */
  lemma {:induction false} KeysSafeAlways(v: Verifier, events: seq<Event>)
    requires ValidatedRun(events)
    ensures KeysSafe(v, Run(v, events))
  {
    if events != [] {
      var front, e := events[..|events| - 1], events[|events| - 1];
      KeysSafeAlways(v, front);
      StepKeepsKeysSafe(v, Run(v, front), e);
    }
  }

  lemma StepKeepsKeysSafe(v: Verifier, s: State, e: Event)
    requires KeysSafe(v, s) && (e.Create? ==> Validated(e.dto))
    ensures KeysSafe(v, Step(v, s, e))
  {
    match e
    case Create(id, dto) => NewRecordQuorumSafe(v, dto);
    case Read(_, _) =>
    case Finish(ticket) =>
      if ticket in s.flights && s.flights[ticket].request.SignRequest? {
        var f := s.flights[ticket];
        if Sign(v, f.base, f.request.key, f.request.sig).Success? {
          SignKeepsQuorum(v, f.base, f.request.key, f.request.sig);
        }
      }
  }

  /** Quorum safety: with validated creations and the job's statuses, every row of every reachable store
      is quorum-safe, however reads and whole-row writes interleave. */
  lemma {:induction false} QuorumSafeAlways(v: Verifier, events: seq<Event>)
    requires ValidatedRun(events) && JobStatusesOnly(events)
    ensures forall id :: id in Run(v, events).store ==> QuorumSafe(v, Run(v, events).store[id])
    ensures KeysSafe(v, Run(v, events)) && StatusesSafe(Run(v, events))
  {
    KeysSafeAlways(v, events);
    if events != [] {
      var front, e := events[..|events| - 1], events[|events| - 1];
      QuorumSafeAlways(v, front);
      StepKeepsStatusesSafe(v, Run(v, front), e);
    }
  }

  lemma StepKeepsStatusesSafe(v: Verifier, s: State, e: Event)
    requires KeysSafe(v, s) && StatusesSafe(s) && (e.Create? ==> Validated(e.dto))
    requires e.Read? && e.request.StatusRequest? ==> Terminal(e.request.status)
    ensures StatusesSafe(Step(v, s, e))
  {
    match e
    case Create(id, dto) => NewRecordQuorumSafe(v, dto);
    case Read(_, _) =>
    case Finish(ticket) =>
      if ticket in s.flights && s.flights[ticket].request.SignRequest? {
        var f := s.flights[ticket];
        if Sign(v, f.base, f.request.key, f.request.sig).Success? {
          SignKeepsQuorum(v, f.base, f.request.key, f.request.sig);
        }
      }
  }

  /** `updateStatus` takes any status, so quorum safety does not survive every call: it survives exactly
      the ones that do not claim SIGNED below the threshold or PENDING at or above it. */
  lemma StatusWriteSafeIff(v: Verifier, s: State, ticket: Ticket)
    requires KeysSafe(v, s)
    requires ticket in s.flights && s.flights[ticket].request.StatusRequest?
    ensures var f := s.flights[ticket];
            var after := Step(v, s, Finish(ticket)).store;
            && f.request.id in after
            && (QuorumSafe(v, after[f.request.id]) <==>
                !(f.request.status == Signed && |f.base.signedKeys| < f.base.threshold)
                && !(f.request.status == Pending && |f.base.signedKeys| >= f.base.threshold))
  {
    var f := s.flights[ticket];
    var row := f.base.(status := f.request.status);
    assert Decide(v, f.request, f.base) == Success(Save(row));
    assert KeySafe(v, row);
  }

  /** A finishing status write does not claim SIGNED below the threshold or PENDING at or above it, judged by the
      row its request has read. */
  predicate HonestWrite(s: State, e: Event) {
    e.Finish? && e.ticket in s.flights && s.flights[e.ticket].request.StatusRequest? ==>
      var f := s.flights[e.ticket];
      && !(f.request.status == Signed && |f.base.signedKeys| < f.base.threshold)
      && !(f.request.status == Pending && |f.base.signedKeys| >= f.base.threshold)
  }

  ghost predicate RowsHonest(s: State) {
    forall id :: id in s.store ==> StatusSafe(s.store[id])
  }

  ghost predicate CopiesHonest(s: State) {
    forall t :: t in s.flights ==> StatusSafe(s.flights[t].base)
  }

  lemma StepHonestIff(v: Verifier, s: State, e: Event)
    requires KeysSafe(v, s) && RowsHonest(s) && CopiesHonest(s) && (e.Create? ==> Validated(e.dto))
    ensures RowsHonest(Step(v, s, e)) <==> HonestWrite(s, e)
    ensures CopiesHonest(Step(v, s, e))
  {
    match e
    case Create(id, dto) => NewRecordQuorumSafe(v, dto);
    case Read(_, _) =>
    case Finish(ticket) =>
      if ticket in s.flights {
        var f := s.flights[ticket];
        if f.request.StatusRequest? {
          assert f.request.id in Step(v, s, e).store
              && Step(v, s, e).store[f.request.id] == f.base.(status := f.request.status);
        } else if f.request.SignRequest? && Sign(v, f.base, f.request.key, f.request.sig).Success? {
          SignKeepsQuorum(v, f.base, f.request.key, f.request.sig);
        }
      }
  }

  ghost predicate HonestRun(v: Verifier, events: seq<Event>) {
    forall n :: 0 <= n < |events| ==> HonestWrite(Run(v, events[..n]), events[n])
  }

  lemma {:induction false} HonestRunsAreHonest(v: Verifier, events: seq<Event>)
    requires ValidatedRun(events) && HonestRun(v, events)
    ensures RowsHonest(Run(v, events)) && CopiesHonest(Run(v, events))
  {
    if events != [] {
      var m := |events| - 1;
      var front := events[..m];
      assert forall n :: 0 <= n < m ==> front[..n] == events[..n] && front[n] == events[n];
      HonestRunsAreHonest(v, front);
      KeysSafeAlways(v, front);
      assert HonestWrite(Run(v, events[..m]), events[m]);
      StepHonestIff(v, Run(v, front), events[m]);
    }
  }

  ghost predicate StoreSafe(v: Verifier, s: State) {
    forall id :: id in s.store ==> QuorumSafe(v, s.store[id])
  }

  ghost predicate AlwaysQuorumSafe(v: Verifier, events: seq<Event>) {
    forall n :: 0 <= n <= |events| ==> StoreSafe(v, Run(v, events[..n]))
  }

  lemma HonestIsSafe(v: Verifier, events: seq<Event>, n: nat)
    requires ValidatedRun(events) && HonestRun(v, events) && n <= |events|
    ensures StoreSafe(v, Run(v, events[..n]))
  {
    var front := events[..n];
    assert forall m :: 0 <= m < n ==> front[..m] == events[..m] && front[m] == events[m];
    HonestRunsAreHonest(v, front);
    KeysSafeAlways(v, front);
  }

  lemma {:induction false} SafeIsHonest(v: Verifier, events: seq<Event>)
    requires ValidatedRun(events) && AlwaysQuorumSafe(v, events)
    ensures HonestRun(v, events)
  {
    if events != [] {
      var m := |events| - 1;
      var front := events[..m];
      assert forall n :: 0 <= n <= m ==> front[..n] == events[..n];
      SafeIsHonest(v, front);
      LastIsHonest(v, front, events[m], events);
      assert forall n :: 0 <= n < m ==> front[n] == events[n] && HonestWrite(Run(v, front[..n]), front[n]);
    }
  }

  lemma LastIsHonest(v: Verifier, front: seq<Event>, e: Event, all: seq<Event>)
    requires ValidatedRun(all) && all == front + [e] && HonestRun(v, front)
    requires StoreSafe(v, Run(v, all[..|all|]))
    ensures HonestWrite(Run(v, front), e)
  {
    forall b | b in front ensures b in all { }
    HonestRunsAreHonest(v, front);
    KeysSafeAlways(v, front);
    assert all[..|all|] == all && all[..|front|] == front;
    assert e in all;
    StepHonestIff(v, Run(v, front), e);
  }

  /** Quorum safety, exactly: with validated creations and any statuses, every row of every store along a run is
      quorum-safe if and only if every finishing status write is honest about the row it has read. */
  lemma QuorumSafeIff(v: Verifier, events: seq<Event>)
    requires ValidatedRun(events)
    ensures AlwaysQuorumSafe(v, events) <==> HonestRun(v, events)
  {
    if HonestRun(v, events) {
      forall n | 0 <= n <= |events| ensures StoreSafe(v, Run(v, events[..n])) {
        HonestIsSafe(v, events, n);
      }
    }
    if AlwaysQuorumSafe(v, events) {
      SafeIsHonest(v, events);
    }
  }

  lemma StepAppends(v: Verifier, events: seq<Event>, e: Event)
    ensures Run(v, events + [e]) == Step(v, Run(v, events), e)
  {
    assert (events + [e])[..|events|] == events;
  }

  /** Any validated creation followed by a client's update to SIGNED leaves a SIGNED row without a single signature. */
  lemma StatusUpdateBreaksQuorum(v: Verifier, id: Id, dto: CreateRequest)
    requires IsUuid(id) && Validated(dto)
    ensures var s := Run(v, [Create(id, dto), Read(0, StatusRequest(id, Signed)), Finish(0)]);
            && id in s.store
            && s.store[id].status == Signed && s.store[id].signedKeys == []
            && !QuorumSafe(v, s.store[id])
  {
    var e0, e1, e2 := Create(id, dto), Read(0, StatusRequest(id, Signed)), Finish(0);
    assert Run(v, []) == INITIAL;
    StepAppends(v, [], e0);
    StepAppends(v, [e0], e1);
    StepAppends(v, [e0, e1], e2);
    assert [] + [e0] == [e0] && [e0] + [e1] == [e0, e1] && [e0, e1] + [e2] == [e0, e1, e2];
    NewRecordQuorumSafe(v, dto);
  }

  // ---------- what no interleaving can change ----------

  ghost predicate SameHeader(a: Record, b: Record) {
    a.payload == b.payload && a.keyList == b.keyList && a.threshold == b.threshold
  }

  ghost predicate HeadersKept(s: State) {
    && (forall id :: id in s.issued ==> IsUuid(id))
    && (forall id :: id in s.store ==> id in s.issued && SameHeader(s.store[id], s.issued[id]))
    && (forall t :: t in s.flights ==>
         var f := s.flights[t]; f.request.id in s.issued && SameHeader(f.base, s.issued[f.request.id]))
  }

  /** Message, key list, threshold and start date of a row are always the ones it was created with,
      even after a late save has brought back a row deleted in between. */
  lemma {:induction false} HeadersNeverChange(v: Verifier, events: seq<Event>)
    ensures HeadersKept(Run(v, events))
  {
    if events != [] {
      HeadersNeverChange(v, events[..|events| - 1]);
      StepKeepsHeaders(v, Run(v, events[..|events| - 1]), events[|events| - 1]);
    }
  }

  lemma StepKeepsHeaders(v: Verifier, s: State, e: Event)
    requires HeadersKept(s)
    ensures HeadersKept(Step(v, s, e))
    ensures s.issued.Keys <= Step(v, s, e).issued.Keys
    ensures forall id :: id in s.issued ==> Step(v, s, e).issued[id] == s.issued[id]
  {
  }
}
