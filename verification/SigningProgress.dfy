/** Signing one record without interference: what any sequence of attempts, accepted or not, amounts to. */
module SigningProgress {
  import opened Collections
  import opened MultisigRecord

  datatype Attempt = Attempt(key: Key, sig: Signature)

  /** The record after the attempts, each served to completion; a refused attempt changes nothing. */
  function SignAll(v: Verifier, r: Record, attempts: seq<Attempt>): Record {
    if attempts == [] then r
    else
      var before := SignAll(v, r, attempts[..|attempts| - 1]);
      var last := attempts[|attempts| - 1];
      match Sign(v, before, last.key, last.sig)
      case Success(next) => next
      case Failure(_) => before
  }

  /** The listed keys for which some attempt carried a verifying signature. */
  ghost function Endorsers(v: Verifier, r: Record, attempts: seq<Attempt>): set<Key> {
    set a | a in attempts && a.key in r.keyList && v(r.payload, a.key, a.sig) == Accepted :: a.key
  }

  /** r is what r0 becomes when exactly these keys have endorsed it. */
  ghost predicate Reflects(v: Verifier, r0: Record, r: Record, endorsers: set<Key>) {
    && QuorumSafe(v, r)
    && r.keyList == r0.keyList && r.threshold == r0.threshold && r.payload == r0.payload
    && Elements(r.signedKeys) == endorsers
    && |r.signedKeys| == |endorsers|
    && r.status == (if |endorsers| >= r.threshold then Signed else Pending)
  }

  /** From a fresh record, whatever is attempted and in whatever order and however often: exactly the
      endorsing keys are recorded, once each, and the record is SIGNED exactly when they reach the threshold. */
  lemma {:induction false} OutcomeIsTheEndorsers(v: Verifier, dto: CreateRequest, attempts: seq<Attempt>)
    requires Validated(dto)
    ensures Reflects(v, NewRecord(dto), SignAll(v, NewRecord(dto), attempts), Endorsers(v, NewRecord(dto), attempts))
  {
    var r0 := NewRecord(dto);
    if attempts == [] {
      NewRecordQuorumSafe(v, dto);
      assert Elements<Key>([]) == {};
      assert Endorsers(v, r0, attempts) == {};
    } else {
      var front, last := attempts[..|attempts| - 1], attempts[|attempts| - 1];
      OutcomeIsTheEndorsers(v, dto, front);
      assert attempts == front + [last];
      EndorsersGrow(v, r0, front, last);
      AttemptReflected(v, r0, SignAll(v, r0, front), Endorsers(v, r0, front), last);
    }
  }

  lemma AttemptReflected(v: Verifier, r0: Record, r: Record, endorsers: set<Key>, a: Attempt)
    requires Reflects(v, r0, r, endorsers)
    ensures var endorsed := a.key in r0.keyList && v(r0.payload, a.key, a.sig) == Accepted;
            var after := if endorsed then endorsers + {a.key} else endorsers;
            match Sign(v, r, a.key, a.sig)
            case Success(next) => Reflects(v, r0, next, after)
            case Failure(_) => after == endorsers
  {
    assert a.key in r.signedKeys <==> a.key in Elements(r.signedKeys);
    if Sign(v, r, a.key, a.sig).Success? {
      var next := Sign(v, r, a.key, a.sig).value;
      SignKeepsQuorum(v, r, a.key, a.sig);
      assert Elements(next.signedKeys) == Elements(r.signedKeys) + {a.key};
      NoDupCardinality(next.signedKeys);
    }
  }

  lemma EndorsersGrow(v: Verifier, r: Record, front: seq<Attempt>, last: Attempt)
    ensures Endorsers(v, r, front + [last]) ==
            (if last.key in r.keyList && v(r.payload, last.key, last.sig) == Accepted
             then Endorsers(v, r, front) + {last.key} else Endorsers(v, r, front))
  {
    var all := front + [last];
    forall a | a in front ensures a in all { }
    assert last == all[|front|];
  }

  /** The order and repetition of attempts do not matter: only who has endorsed does. */
  lemma OrderDoesNotMatter(v: Verifier, dto: CreateRequest, first: seq<Attempt>, second: seq<Attempt>)
    requires Validated(dto)
    requires Endorsers(v, NewRecord(dto), first) == Endorsers(v, NewRecord(dto), second)
    ensures var (a, b) := (SignAll(v, NewRecord(dto), first), SignAll(v, NewRecord(dto), second));
            a.status == b.status && multiset(a.signedKeys) == multiset(b.signedKeys)
  {
    OutcomeIsTheEndorsers(v, dto, first);
    OutcomeIsTheEndorsers(v, dto, second);
    SameElementsPermute(SignAll(v, NewRecord(dto), first).signedKeys, SignAll(v, NewRecord(dto), second).signedKeys);
  }

  /** One more accepted attempt: the status turns to SIGNED at the threshold-th accepted key, not before
      and not later, and stays there. */
  lemma SignedAtTheThreshold(v: Verifier, dto: CreateRequest, attempts: seq<Attempt>, last: Attempt)
    requires Validated(dto)
    requires Sign(v, SignAll(v, NewRecord(dto), attempts), last.key, last.sig).Success?
    ensures var before := SignAll(v, NewRecord(dto), attempts);
            var after := SignAll(v, NewRecord(dto), attempts + [last]);
            && |after.signedKeys| == |before.signedKeys| + 1
            && (before.status == Pending <==> |before.signedKeys| < before.threshold)
            && (before.status == Pending && after.status == Signed <==> |after.signedKeys| == after.threshold)
            && (before.status == Signed ==> after.status == Signed)
  {
    OutcomeIsTheEndorsers(v, dto, attempts);
    OutcomeIsTheEndorsers(v, dto, attempts + [last]);
    assert (attempts + [last])[..|attempts|] == attempts;
  }

  /** Once every listed key has endorsed, the recorded keys are a permutation of the key list. */
  lemma AllSignersPermuteTheList(v: Verifier, dto: CreateRequest, attempts: seq<Attempt>)
    requires Validated(dto)
    requires Endorsers(v, NewRecord(dto), attempts) == Elements(dto.keyList)
    ensures var r := SignAll(v, NewRecord(dto), attempts);
            r.status == Signed && multiset(r.signedKeys) == multiset(r.keyList)
  {
    OutcomeIsTheEndorsers(v, dto, attempts);
    NewRecordQuorumSafe(v, dto);
    var r := SignAll(v, NewRecord(dto), attempts);
    SameElementsPermute(r.signedKeys, r.keyList);
    NoDupCardinality(r.keyList);
  }
}
