/** When does a run of interleaved requests lose a signature of a row that remains? */
module MultisigLoss {
  import opened Collections
  import opened MultisigRecord
  import opened MultisigProtocol

  function StateAt(v: Verifier, events: seq<Event>, n: nat): State
    requires n <= |events|
  {
    Run(v, events[..n])
  }

  lemma StateAfter(v: Verifier, events: seq<Event>, n: nat)
    requires n < |events|
    ensures StateAt(v, events, n + 1) == Step(v, StateAt(v, events, n), events[n])
  {
    assert events[..n + 1][..n] == events[..n];
  }

  /** The row a save is about to write, and its signed keys. */
  function Written(v: Verifier, s: State, e: Event): Option<(Id, seq<Key>)> {
    if e.Finish? && e.ticket in s.flights then
      match Decide(v, s.flights[e.ticket].request, s.flights[e.ticket].base)
      case Success(Save(row)) => Some((s.flights[e.ticket].request.id, row.signedKeys))
      case _ => None
    else None
  }

  predicate LosesKey(v: Verifier, s: State, e: Event, id: Id, k: Key) {
    && id in s.store && k in s.store[id].signedKeys
    && id in Step(v, s, e).store && k !in Step(v, s, e).store[id].signedKeys
  }

  ghost predicate NoKeyLost(v: Verifier, events: seq<Event>) {
    forall n, id, k :: 0 <= n < |events| ==> !LosesKey(v, StateAt(v, events, n), events[n], id, k)
  }

  /** The request with this ticket has read its row at r and is still open at n. */
  ghost predicate OpenSince(v: Verifier, events: seq<Event>, t: Ticket, r: nat, n: nat)
    requires r < n <= |events|
  {
    && events[r].Read? && events[r].ticket == t && t !in StateAt(v, events, r).flights
    && forall q :: r < q <= n ==> t in StateAt(v, events, q).flights
  }

  /** The row has not been deleted between the two. */
  ghost predicate Remains(v: Verifier, events: seq<Event>, id: Id, m: nat, n: nat)
    requires m < n <= |events|
  {
    forall q :: m < q <= n ==> id in StateAt(v, events, q).store
  }

  /** Since the copy was read, another save has put a key on the row that this save does not write. */
  ghost predicate OvertakenBy(v: Verifier, events: seq<Event>, n: nat, r: nat, m: nat, k: Key)
    requires r < m < n < |events|
  {
    var (mine, theirs) := (Written(v, StateAt(v, events, n), events[n]), Written(v, StateAt(v, events, m), events[m]));
    && mine.Some? && theirs.Some? && mine.value.0 == theirs.value.0
    && OpenSince(v, events, events[n].ticket, r, n) && Remains(v, events, mine.value.0, m, n)
    && k in theirs.value.1 && k !in mine.value.1
  }

  ghost predicate Overtaken(v: Verifier, events: seq<Event>, n: nat)
    requires n < |events|
  {
    exists r: nat, m: nat, k: Key :: r < m < n && OvertakenBy(v, events, n, r, m, k)
  }

  // ---------- a request and its copy ----------

  lemma {:induction false} ReadBefore(v: Verifier, events: seq<Event>, t: Ticket, n: nat) returns (r: nat)
    requires n <= |events| && t in StateAt(v, events, n).flights
    ensures r < n && OpenSince(v, events, t, r, n)
  {
    StateAfter(v, events, n - 1);
    if t in StateAt(v, events, n - 1).flights {
      r := ReadBefore(v, events, t, n - 1);
    } else {
      r := n - 1;
    }
  }

  lemma {:induction false} CopyIsAsRead(v: Verifier, events: seq<Event>, t: Ticket, r: nat, n: nat)
    requires r < n <= |events| && OpenSince(v, events, t, r, n)
    ensures var (read, f) := (StateAt(v, events, r), StateAt(v, events, n).flights[t]);
            f.request == events[r].request && f.request.id in read.store && f.base == read.store[f.request.id]
    ensures StateAt(v, events, r + 1).store == StateAt(v, events, r).store
  {
    StateAfter(v, events, r);
    if n > r + 1 {
      StateAfter(v, events, n - 1);
      CopyIsAsRead(v, events, t, r, n - 1);
    }
  }

  // ---------- where a key on a row comes from ----------

  /** Unless the event saves the row, a key on it afterwards was on it before. */
  lemma KeyWasThere(v: Verifier, s: State, e: Event, id: Id, k: Key)
    requires id in Step(v, s, e).store && k in Step(v, s, e).store[id].signedKeys
    ensures (Written(v, s, e).Some? && Written(v, s, e).value.0 == id && k in Written(v, s, e).value.1)
            || (id in s.store && k in s.store[id].signedKeys)
  {
  }

  lemma {:induction false} SavedSince(v: Verifier, events: seq<Event>, r: nat, n: nat, id: Id, k: Key) returns (m: nat)
    requires r < n <= |events| && id in StateAt(v, events, n).store && k in StateAt(v, events, n).store[id].signedKeys
    requires id in StateAt(v, events, r + 1).store ==> k !in StateAt(v, events, r + 1).store[id].signedKeys
    ensures r < m < n && Remains(v, events, id, m, n)
    ensures var theirs := Written(v, StateAt(v, events, m), events[m]);
            theirs.Some? && theirs.value.0 == id && k in theirs.value.1
  {
    StateAfter(v, events, n - 1);
    KeyWasThere(v, StateAt(v, events, n - 1), events[n - 1], id, k);
    var theirs := Written(v, StateAt(v, events, n - 1), events[n - 1]);
    if theirs.Some? && theirs.value.0 == id && k in theirs.value.1 && n - 1 > r {
      m := n - 1;
    } else {
      m := SavedSince(v, events, r, n - 1, id, k);
    }
  }

  lemma SaveWrites(v: Verifier, s: State, e: Event)
    requires Written(v, s, e).Some?
    ensures var (id, keys) := Written(v, s, e).value;
            && id in Step(v, s, e).store && Step(v, s, e).store[id].signedKeys == keys
            && s.flights[e.ticket].request.id == id && s.flights[e.ticket].base.signedKeys <= keys
  {
  }

  lemma OnlySavesLose(v: Verifier, s: State, e: Event, id: Id, k: Key)
    requires HeadersKept(s) && LosesKey(v, s, e, id, k)
    ensures Written(v, s, e).Some? && Written(v, s, e).value.0 == id && k !in Written(v, s, e).value.1
  {
  }

  // ---------- the exact condition ----------

  lemma LossIsOvertaking(v: Verifier, events: seq<Event>, n: nat, id: Id, k: Key)
    requires n < |events| && LosesKey(v, StateAt(v, events, n), events[n], id, k)
    ensures Overtaken(v, events, n)
  {
    var s := StateAt(v, events, n);
    HeadersNeverChange(v, events[..n]);
    OnlySavesLose(v, s, events[n], id, k);
    var t := events[n].ticket;
    SaveWrites(v, s, events[n]);
    var r := ReadBefore(v, events, t, n);
    CopyIsAsRead(v, events, t, r, n);
    assert k !in s.flights[t].base.signedKeys;
    var m := SavedSince(v, events, r, n, id, k);
    assert OvertakenBy(v, events, n, r, m, k);
  }

  lemma {:induction false} KeyStays(v: Verifier, events: seq<Event>, m: nat, n: nat, id: Id, k: Key)
    requires m < n <= |events| && NoKeyLost(v, events) && Remains(v, events, id, m, n)
    requires var theirs := Written(v, StateAt(v, events, m), events[m]);
        theirs.Some? && theirs.value.0 == id && k in theirs.value.1
    ensures k in StateAt(v, events, n).store[id].signedKeys
  {
    StateAfter(v, events, n - 1);
    if n - 1 > m {
      KeyStays(v, events, m, n - 1, id, k);
      assert !LosesKey(v, StateAt(v, events, n - 1), events[n - 1], id, k);
    } else {
      SaveWrites(v, StateAt(v, events, m), events[m]);
    }
  }

  lemma OvertakingLoses(v: Verifier, events: seq<Event>, n: nat)
    requires n < |events| && Overtaken(v, events, n)
    ensures !NoKeyLost(v, events)
  {
    if NoKeyLost(v, events) {
      var r: nat, m: nat, k: Key :| r < m < n && OvertakenBy(v, events, n, r, m, k);
      var id := Written(v, StateAt(v, events, n), events[n]).value.0;
      KeyStays(v, events, m, n, id, k);
      SaveWrites(v, StateAt(v, events, n), events[n]);
      assert LosesKey(v, StateAt(v, events, n), events[n], id, k);
    }
  }

  /** No signature of a remaining row is lost along a run if and only if no save lands on a row on which, since its
      copy was read, another save has put a key that this one neither has nor adds. */
  lemma NoKeyLostIff(v: Verifier, events: seq<Event>)
    ensures NoKeyLost(v, events) <==> forall n :: 0 <= n < |events| ==> !Overtaken(v, events, n)
  {
    forall n | 0 <= n < |events| && Overtaken(v, events, n) ensures !NoKeyLost(v, events) {
      OvertakingLoses(v, events, n);
    }
    if !NoKeyLost(v, events) {
      var n, id, k :| 0 <= n < |events| && LosesKey(v, StateAt(v, events, n), events[n], id, k);
      LossIsOvertaking(v, events, n, id, k);
    }
  }
}
