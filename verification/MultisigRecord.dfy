/** One stored multi-signature transaction: how it is created, how a signature is added to it,
    and what makes it quorum-safe. */
module MultisigRecord {
  import opened Collections

  type Id = string
  type Key = string
  type Signature = string

  datatype Status = Signed | Pending | Expired | Error | Executed

  predicate Terminal(status: Status) {
    status in {Expired, Error, Executed}
  }

  /** The columns no operation ever rewrites. Times are in milliseconds. */
  datatype Payload = Payload(message: string, description: string, accountId: string, network: string, startDate: int)

  datatype Record = Record(
    payload: Payload,
    keyList: seq<Key>,
    threshold: int,
    signedKeys: seq<Key>,
    signatures: seq<Signature>,
    status: Status)

  /** What decoding the stored message and checking one signature against it can come to. */
  datatype Verdict = Unreadable | Rejected | Accepted

  type Verifier = (Payload, Key, Signature) -> Verdict

  datatype ServiceError =
    | InvalidUuid
    | TransactionNotFound
    | MessageAlreadySigned
    | UnauthorizedKey
    | UnreadableMessage
    | InvalidSignature

  datatype CreateRequest = CreateRequest(payload: Payload, keyList: seq<Key>, threshold: int)

  /** What request validation asks of the client: a non-empty key list and a threshold of at least 0. */
  predicate Validated(dto: CreateRequest) {
    dto.keyList != [] && dto.threshold >= 0
  }

  function NewRecord(dto: CreateRequest): Record {
    var keys := Distinct(dto.keyList);
    var threshold := if dto.threshold == 0 || dto.threshold > |keys| then |keys| else dto.threshold;
    Record(dto.payload, keys, threshold, [], [], Pending)
  }

  function Sign(v: Verifier, r: Record, key: Key, sig: Signature): Result<Record, ServiceError> {
    if key in r.signedKeys then Failure(MessageAlreadySigned)
    else if key !in r.keyList then Failure(UnauthorizedKey)
    else
      match v(r.payload, key, sig)
      case Unreadable => Failure(UnreadableMessage)
      case Rejected => Failure(InvalidSignature)
      case Accepted =>
        var signedKeys := r.signedKeys + [key];
        Success(r.(signedKeys := signedKeys,
                   signatures := r.signatures + [sig],
                   status := if |signedKeys| >= r.threshold then Signed else r.status))
  }

  // ---------- quorum safety of one record ----------

  /** The part that holds whatever statuses are written. */
  ghost predicate KeySafe(v: Verifier, r: Record) {
    && NoDup(r.keyList)
    && NoDup(r.signedKeys)
    && Elements(r.signedKeys) <= Elements(r.keyList)
    && |r.signatures| == |r.signedKeys|
    && (forall i :: 0 <= i < |r.signedKeys| ==> v(r.payload, r.signedKeys[i], r.signatures[i]) == Accepted)
    && 1 <= r.threshold <= |r.keyList|
  }

  /** The part that ties the status to the number of signatures. */
  predicate StatusSafe(r: Record) {
    && (r.status == Signed ==> |r.signedKeys| >= r.threshold)
    && (r.status == Pending ==> |r.signedKeys| < r.threshold)
  }

  ghost predicate QuorumSafe(v: Verifier, r: Record) {
    KeySafe(v, r) && StatusSafe(r)
  }

  /** A new record is quorum-safe exactly for the requests that validation lets through. */
  lemma NewRecordQuorumSafe(v: Verifier, dto: CreateRequest)
    ensures QuorumSafe(v, NewRecord(dto)) <==> Validated(dto)
    ensures Elements(NewRecord(dto).keyList) == Elements(dto.keyList)
  {
    DistinctKeepsFirsts(dto.keyList);
  }

  lemma SignKeepsQuorum(v: Verifier, r: Record, key: Key, sig: Signature)
    requires KeySafe(v, r) && Sign(v, r, key, sig).Success?
    ensures KeySafe(v, Sign(v, r, key, sig).value)
    ensures StatusSafe(r) ==> StatusSafe(Sign(v, r, key, sig).value)
  {
    var next := Sign(v, r, key, sig).value;
    assert Elements(next.signedKeys) == Elements(r.signedKeys) + {key};
    assert key in Elements(r.keyList);
  }

  /** A quorum-safe record that is SIGNED carries at least `threshold` different listed keys,
      each with a verifying signature. */
  lemma SignedMeansQuorum(v: Verifier, r: Record)
    requires QuorumSafe(v, r) && r.status == Signed
    ensures |set k | k in r.signedKeys && k in r.keyList| >= r.threshold
    ensures forall k :: k in r.signedKeys ==> exists sig :: sig in r.signatures && v(r.payload, k, sig) == Accepted
  {
    NoDupCardinality(r.signedKeys);
    assert (set k | k in r.signedKeys && k in r.keyList) == Elements(r.signedKeys) by {
      forall k | k in r.signedKeys ensures k in r.keyList {
        assert k in Elements(r.signedKeys) && k in Elements(r.keyList);
      }
    }
    forall k | k in r.signedKeys ensures exists sig :: sig in r.signatures && v(r.payload, k, sig) == Accepted {
      var i :| 0 <= i < |r.signedKeys| && r.signedKeys[i] == k;
      assert r.signatures[i] in r.signatures;
    }
  }
}
