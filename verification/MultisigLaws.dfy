/** What a request gets and what its save leaves behind, said in terms of the rows it has met. */
module MultisigLaws {
  import opened Collections
  import opened MultisigRecord
  import opened MultisigProtocol
  import opened MultisigLoss

  // ---------- new rows ----------

  /** The threshold is the requested one where that is possible, and else the number of different keys listed. */
  lemma ThresholdIs(dto: CreateRequest)
    requires Validated(dto)
    ensures var (r, keys) := (NewRecord(dto), |Elements(dto.keyList)|);
            && r.threshold == (if dto.threshold in {0} || keys < dto.threshold then keys else dto.threshold)
            && r.payload == dto.payload && |r.keyList| == keys
            && r.signedKeys == [] && r.signatures == [] && r.status == Pending
  {
    DistinctKeepsFirsts(dto.keyList);
    NoDupCardinality(Distinct(dto.keyList));
  }

  // ---------- what a request gets ----------

  /** The request may go on from this row. */
  predicate MayProceed(v: Verifier, request: Request, row: Record) {
    match request
    case SignRequest(_, key, sig) =>
      key !in row.signedKeys && key in row.keyList && v(row.payload, key, sig) == Accepted
    case StatusRequest(_, _) => true
    case DeleteRequest(_) => true
  }

  /** A read opens the request, with the row as it is, exactly when its identifier is well-formed, the row exists
      and the request may go on from it; nothing else changes. */
  lemma ReadOpensIff(v: Verifier, s: State, ticket: Ticket, request: Request)
    requires ticket !in s.flights
    ensures var after := Step(v, s, Read(ticket, request));
            && (ticket in after.flights <==>
                 IsUuid(request.id) && request.id in s.store && MayProceed(v, request, s.store[request.id]))
            && (ticket in after.flights ==> after.flights == s.flights[ticket := Flight(request, s.store[request.id])])
            && (ticket !in after.flights ==> after == s)
            && after.store == s.store && after.issued == s.issued
  {
  }

  /** A refusal says what is really wrong. */
  lemma RefusalsAreTrue(v: Verifier, store: map<Id, Record>, request: Request)
    ensures Attempt(v, store, request).Failure? <==>
            !(IsUuid(request.id) && request.id in store && MayProceed(v, request, store[request.id]))
    ensures Attempt(v, store, request).Failure? ==>
              match Attempt(v, store, request).error
              case InvalidUuid => !IsUuid(request.id) && !request.DeleteRequest?
              case TransactionNotFound => (!IsUuid(request.id) && request.DeleteRequest?) || request.id !in store
              case MessageAlreadySigned => request.SignRequest? && request.key in store[request.id].signedKeys
              case UnauthorizedKey => request.SignRequest? && request.key !in store[request.id].keyList
              case UnreadableMessage =>
                request.SignRequest? && v(store[request.id].payload, request.key, request.sig) == Unreadable
              case InvalidSignature =>
                request.SignRequest? && v(store[request.id].payload, request.key, request.sig) == Rejected
  {
  }

  // ---------- what its save leaves behind ----------

  /** The row that a request leaves, made from the row it has read. */
  ghost predicate MadeFrom(request: Request, read: Record, after: map<Id, Record>) {
    match request
    case SignRequest(id, key, sig) =>
      && id in after && after[id].payload == read.payload && after[id].keyList == read.keyList
      && after[id].threshold == read.threshold
      && after[id].signedKeys == read.signedKeys + [key] && after[id].signatures == read.signatures + [sig]
      && after[id].status == if |read.signedKeys| + 1 >= read.threshold then Signed else read.status
    case StatusRequest(id, status) => id in after && after[id] == read.(status := status)
    case DeleteRequest(id) => id !in after
  }

  lemma OpenMayProceed(v: Verifier, events: seq<Event>, t: Ticket, r: nat, n: nat)
    requires r < n <= |events| && OpenSince(v, events, t, r, n)
    ensures var f := StateAt(v, events, n).flights[t];
            MayProceed(v, f.request, f.base)
  {
    StateAfter(v, events, r);
    CopyIsAsRead(v, events, t, r, n);
  }

  lemma LandsAs(v: Verifier, s: State, t: Ticket)
    requires t in s.flights && MayProceed(v, s.flights[t].request, s.flights[t].base)
    ensures var (f, after) := (s.flights[t], Step(v, s, Finish(t)));
            && MadeFrom(f.request, f.base, after.store)
            && after.flights == s.flights - {t} && after.issued == s.issued
            && (forall id :: id != f.request.id ==> (id in after.store <==> id in s.store))
            && (forall id :: id != f.request.id && id in s.store ==> after.store[id] == s.store[id])
  {
  }

  /** In every run: when a request that has read its row at r finishes at n, the row is what the request makes of
      the row as it was at r, whatever has happened in between, and no other row changes. */
  lemma SaveLandsAsRead(v: Verifier, events: seq<Event>, r: nat, n: nat)
    requires r < n < |events| && events[n].Finish? && OpenSince(v, events, events[n].ticket, r, n)
    ensures var (request, read) := (events[r].request, StateAt(v, events, r).store);
            var (before, after) := (StateAt(v, events, n), StateAt(v, events, n + 1));
            && request.id in read && MadeFrom(request, read[request.id], after.store)
            && (forall id :: id != request.id ==> (id in after.store <==> id in before.store))
            && (forall id :: id != request.id && id in before.store ==> after.store[id] == before.store[id])
  {
    var t := events[n].ticket;
    StateAfter(v, events, n);
    CopyIsAsRead(v, events, t, r, n);
    OpenMayProceed(v, events, t, r, n);
    LandsAs(v, StateAt(v, events, n), t);
  }
}
