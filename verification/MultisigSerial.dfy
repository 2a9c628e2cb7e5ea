/** When do the interleaved requests behave as if each had run alone? One open request per row at a time is
    enough, and two overlapping signers are a case where they do not. */
module MultisigSerial {
  import opened Collections
  import opened MultisigRecord
  import opened MultisigProtocol

  /** One whole request, read to write, in one go. */
  datatype Op = Insert(id: Id, dto: CreateRequest) | Serve(request: Request)

  function SerialStep(v: Verifier, store: map<Id, Record>, op: Op): map<Id, Record> {
    match op
    case Insert(id, dto) => store[id := NewRecord(dto)]
    case Serve(request) =>
      match Attempt(v, store, request)
      case Success(write) => Apply(store, request.id, write)
      case Failure(_) => store
  }

  function SerialRun(v: Verifier, ops: seq<Op>): map<Id, Record> {
    if ops == [] then map[] else SerialStep(v, SerialRun(v, ops[..|ops| - 1]), ops[|ops| - 1])
  }

  /** The operation, if any, that takes effect at this event. */
  function Effect(s: State, e: Event): seq<Op> {
    match e
    case Create(id, dto) => if id in s.issued || !IsUuid(id) then [] else [Insert(id, dto)]
    case Read(_, _) => []
    case Finish(ticket) => if ticket in s.flights then [Serve(s.flights[ticket].request)] else []
  }

  /** The operations of a run in the order of their writes. */
  function Completed(v: Verifier, events: seq<Event>): seq<Op> {
    if events == [] then []
    else
      var front := events[..|events| - 1];
      Completed(v, front) + Effect(Run(v, front), events[|events| - 1])
  }

  /** No request starts on a row while another request on it is still open. */
  predicate StartsAlone(s: State, e: Event) {
    e.Read? ==> forall t :: t in s.flights ==> s.flights[t].request.id != e.request.id
  }

  predicate ExclusiveRun(v: Verifier, events: seq<Event>) {
    events == [] ||
    (ExclusiveRun(v, events[..|events| - 1]) && StartsAlone(Run(v, events[..|events| - 1]), events[|events| - 1]))
  }

  ghost predicate Fresh(v: Verifier, store: map<Id, Record>, f: Flight) {
    IsUuid(f.request.id) && f.request.id in store && f.base == store[f.request.id]
        && Decide(v, f.request, f.base).Success?
  }

  /** Every open request still works on the row as it is stored. */
  ghost predicate CopiesFresh(v: Verifier, s: State) {
    && (forall t :: t in s.flights ==> Fresh(v, s.store, s.flights[t]))
    && (forall t, u :: t in s.flights && u in s.flights && t != u ==>
        s.flights[t].request.id != s.flights[u].request.id)
  }

  lemma StepKeepsCopiesFresh(v: Verifier, s: State, e: Event)
    requires CopiesFresh(v, s) && HeadersKept(s) && StartsAlone(s, e)
    ensures CopiesFresh(v, Step(v, s, e))
  {
    var after := Step(v, s, e);
    match e
    case Create(id, _) =>
      forall t | t in s.flights ensures Fresh(v, after.store, s.flights[t]) { }
    case Read(ticket, request) =>
      forall t | t in after.flights ensures Fresh(v, s.store, after.flights[t]) {
        if t == ticket && ticket !in s.flights {
          assert Attempt(v, s.store, request).Success?;
        }
      }
    case Finish(ticket) =>
      FinishKeepsCopiesFresh(v, s, ticket);
  }

  lemma FinishKeepsCopiesFresh(v: Verifier, s: State, ticket: Ticket)
    requires CopiesFresh(v, s)
    ensures CopiesFresh(v, Step(v, s, Finish(ticket)))
  {
    if ticket in s.flights {
      var after := Step(v, s, Finish(ticket));
      var id := s.flights[ticket].request.id;
      assert after.flights == s.flights - {ticket};
      assert after.store - {id} == s.store - {id};
      forall t | t in after.flights ensures Fresh(v, after.store, s.flights[t]) {
        assert s.flights[t].request.id in s.store - {id};
      }
    }
  }

  lemma {:induction false} ExclusiveCopiesFresh(v: Verifier, events: seq<Event>)
    requires ExclusiveRun(v, events)
    ensures CopiesFresh(v, Run(v, events))
  {
    if events != [] {
      var front := events[..|events| - 1];
      ExclusiveCopiesFresh(v, front);
      HeadersNeverChange(v, front);
      StepKeepsCopiesFresh(v, Run(v, front), events[|events| - 1]);
    }
  }

  /** With at most one open request per row, the store of every interleaved run is the store of the same
      requests served one at a time in the order of their writes. */
  lemma {:induction false} ExclusiveRunsAreSerial(v: Verifier, events: seq<Event>)
    requires ExclusiveRun(v, events)
    ensures Run(v, events).store == SerialRun(v, Completed(v, events))
  {
    if events != [] {
      var front, e := events[..|events| - 1], events[|events| - 1];
      ExclusiveRunsAreSerial(v, front);
      ExclusiveCopiesFresh(v, front);
      var ops, effect := Completed(v, front), Effect(Run(v, front), e);
      if effect == [] {
        assert ops + effect == ops;
      } else {
        assert (ops + effect)[..|ops + effect| - 1] == ops;
        assert Run(v, events) == Step(v, Run(v, front), e);
      }
    }
  }

  /** What a save is about to write does not extend the signatures the row has now. */
  predicate DropsSignatures(v: Verifier, s: State, e: Event, id: Id) {
    && e.Finish? && e.ticket in s.flights && id in s.store
    && var f := s.flights[e.ticket];
       && f.request.id == id && Decide(v, f.request, f.base).Success?
       && match f.request
          case SignRequest(_, key, _) => !(s.store[id].signedKeys <= f.base.signedKeys + [key])
          case StatusRequest(_, _) => !(s.store[id].signedKeys <= f.base.signedKeys)
          case DeleteRequest(_) => false
  }

  /** In every state an interleaved run can reach, exactly such saves lose a signature of a row that remains. */
  lemma StepDropsSignaturesIff(v: Verifier, events: seq<Event>, e: Event, id: Id)
    requires id in Run(v, events).store && id in Step(v, Run(v, events), e).store
    ensures !(Run(v, events).store[id].signedKeys <= Step(v, Run(v, events), e).store[id].signedKeys)
            <==> DropsSignatures(v, Run(v, events), e, id)
  {
    HeadersNeverChange(v, events);
  }

  /** With at most one open request per row, an accepted signature is never lost while its row exists. */
  lemma ExclusiveRunsKeepSignatures(v: Verifier, events: seq<Event>, e: Event, id: Id)
    requires ExclusiveRun(v, events + [e])
    requires id in Run(v, events).store && id in Run(v, events + [e]).store
    ensures Run(v, events).store[id].signedKeys <= Run(v, events + [e]).store[id].signedKeys
    ensures Run(v, events).store[id].signatures <= Run(v, events + [e]).store[id].signatures
  {
    assert (events + [e])[..|events|] == events;
    StepAppends(v, events, e);
    ExclusiveCopiesFresh(v, events);
    HeadersNeverChange(v, events);
  }

  /** Two signers who both read before either saves: both are told they succeeded, one signature is gone
      and the row stays PENDING although its threshold of two was met. */
  lemma OverlappingSignsLoseOne(v: Verifier, id: Id, payload: Payload, a: Key, b: Key, sa: Signature, sb: Signature)
    requires IsUuid(id) && a != b && v(payload, a, sa) == Accepted && v(payload, b, sb) == Accepted
    ensures var events := [Create(id, CreateRequest(payload, [a, b], 2)),
                           Read(0, SignRequest(id, a, sa)), Read(1, SignRequest(id, b, sb)), Finish(0), Finish(1)];
            var s := Run(v, events);
            && |Completed(v, events)| == 3
            && id in s.store && s.store[id].signedKeys == [b] && s.store[id].status == Pending
  {
    var dto := CreateRequest(payload, [a, b], 2);
    var e0, e1, e2, e3, e4 := Create(id, dto), Read(0, SignRequest(id, a, sa)), Read(1, SignRequest(id, b, sb)),
        Finish(0), Finish(1);
    TwoKeys(dto, a, b);
    var s0 := State(map[id := NewRecord(dto)], map[], map[id := NewRecord(dto)]);
    assert Run(v, []) == INITIAL && Completed(v, []) == [];
    Append(v, [], e0, [e0]);
    Append(v, [e0], e1, [e0, e1]);
    Append(v, [e0, e1], e2, [e0, e1, e2]);
    Append(v, [e0, e1, e2], e3, [e0, e1, e2, e3]);
    Append(v, [e0, e1, e2, e3], e4, [e0, e1, e2, e3, e4]);
    assert Run(v, [e0]) == s0;
    var fa, fb := Flight(e1.request, s0.store[id]), Flight(e2.request, s0.store[id]);
    assert Run(v, [e0, e1]).flights == map[0 := fa];
    assert Run(v, [e0, e1, e2]).flights == map[0 := fa, 1 := fb];
    assert Run(v, [e0, e1, e2, e3]).flights == map[1 := fb];
    assert Sign(v, fb.base, b, sb).value.signedKeys == [b];
  }

  lemma Append(v: Verifier, events: seq<Event>, e: Event, all: seq<Event>)
    requires all == events + [e]
    ensures Run(v, all) == Step(v, Run(v, events), e)
    ensures Completed(v, all) == Completed(v, events) + Effect(Run(v, events), e)
  {
    assert all[..|all| - 1] == events;
  }

  lemma TwoKeys(dto: CreateRequest, a: Key, b: Key)
    requires a != b && dto.keyList == [a, b] && dto.threshold == 2
    ensures NewRecord(dto) == Record(dto.payload, [a, b], 2, [], [], Pending)
  {
    assert [a, b][..1] == [a] && [a][..0] == [];
    assert Distinct([a]) == [a];
  }
}
