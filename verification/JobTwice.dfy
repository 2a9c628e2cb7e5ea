/** Why none of the three disciplines can be dropped: for each, histories that keep the other two and submit one
    record twice. */
module JobTwice {
  import opened Collections
  import opened MultisigRecord
  import opened MultisigProtocol
  import opened AutoSubmit
  import opened JH = JobHistory
  import opened JobOnce
  import HexCodec

  /** A record with two listed keys, one of which is enough, and a signature for each. */
  datatype Case = Case(v: Verifier, id: Id, payload: Payload, a: Key, b: Key, sa: Signature, sb: Signature, now: int)

  function Row(c: Case, signedKeys: seq<Key>, signatures: seq<Signature>, status: Status): Record {
    Record(c.payload, [c.a, c.b], 1, signedKeys, signatures, status)
  }

  function Unsigned(c: Case): Record {
    Row(c, [], [], Pending)
  }

  function SignedByA(c: Case): Record {
    Row(c, [c.a], [c.sa], Signed)
  }

  function SignedByBoth(c: Case): Record {
    Row(c, [c.a, c.b], [c.sa, c.sb], Signed)
  }

  ghost predicate Fits(c: Case) {
    && IsUuid(c.id) && c.a != c.b && c.v(c.payload, c.a, c.sa) == Accepted && c.v(c.payload, c.b, c.sb) == Accepted
    && 0 <= c.now && Submittable(SignedByA(c), c.now)
  }

  lemma NewRow(c: Case)
    requires c.a != c.b
    ensures NewRecord(CreateRequest(c.payload, [c.a, c.b], 1)) == Unsigned(c)
  {
    assert [c.a, c.b][..1] == [c.a] && [c.a][..0] == [];
    assert Distinct([c.a]) == [c.a];
  }

  lemma BothSign(c: Case)
    requires Fits(c)
    ensures Sign(c.v, Unsigned(c), c.a, c.sa) == Success(SignedByA(c))
    ensures Sign(c.v, SignedByA(c), c.b, c.sb) == Success(SignedByBoth(c))
  {
    assert [] + [c.a] == [c.a] && [] + [c.sa] == [c.sa] && [c.a] + [c.b] == [c.a, c.b]
        && [c.sa] + [c.sb] == [c.sa, c.sb];
  }

  // ---------- building histories ----------

  /** The history leads to this state and keeps these disciplines. */
  ghost predicate Leads(v: Verifier, actions: seq<Action>, j: Job, kept: set<Discipline>) {
    JH.Run(v, actions) == j && forall d :: d in kept ==> Disciplined(d, v, START, actions)
  }

  lemma Then(v: Verifier, actions: seq<Action>, j: Job, kept: set<Discipline>, a: Action, next: Job)
    returns (more: seq<Action>)
    requires Leads(v, actions, j, kept) && JH.Step(v, j, a) == next
    requires forall d :: d in kept ==> Obeys(d, v, j, a)
    ensures more == actions + [a] && Leads(v, more, next, kept)
  {
    more := actions + [a];
    assert more[..|actions|] == actions;
    RunAppends(v, START, actions, a);
  }

  /** The record has been created and signed by its first key. */
  function AfterSigning(c: Case): Job {
    START.(sys := State(map[c.id := SignedByA(c)], map[], map[c.id := Unsigned(c)]))
  }

  /** The signature's read and save, as steps of the state. */
  lemma SigningSteps(c: Case, j1: Job, j2: Job)
    requires Fits(c) && j1 == START.(sys := State(map[c.id := Unsigned(c)], map[], map[c.id := Unsigned(c)]))
    requires j2 == j1.(sys := j1.sys.(flights := map[0 := Flight(SignRequest(c.id, c.a, c.sa), Unsigned(c))]))
    ensures JH.Step(c.v, j1, Client(Read(0, SignRequest(c.id, c.a, c.sa)))) == j2
    ensures JH.Step(c.v, j2, Client(Finish(0))) == AfterSigning(c)
  {
    BothSign(c);
    assert j2.sys.flights - {0} == map[];
  }

  lemma CreateAndSign(c: Case) returns (actions: seq<Action>)
    requires Fits(c)
    ensures Leads(c.v, actions, AfterSigning(c), {InTime, Alone, NoRepeats})
  {
    NewRow(c);
    var all := {InTime, Alone, NoRepeats};
    var row := map[c.id := Unsigned(c)];
    var j1 := START.(sys := State(row, map[], row));
    var j2 := j1.(sys := j1.sys.(flights := map[0 := Flight(SignRequest(c.id, c.a, c.sa), Unsigned(c))]));
    SigningSteps(c, j1, j2);
    actions := Then(c.v, [], START, all, Client(Create(c.id, CreateRequest(c.payload, [c.a, c.b], 1))), j1);
    actions := Then(c.v, actions, j1, all, Client(Read(0, SignRequest(c.id, c.a, c.sa))), j2);
    actions := Then(c.v, actions, j2, all, Client(Finish(0)), AfterSigning(c));
  }

  /** The other signature has been read but not saved. */
  function AfterLateRead(c: Case): Job {
    AfterSigning(c).(sys := State(map[c.id := SignedByA(c)], map[1 := LateFlight(c)], map[c.id := Unsigned(c)]))
  }

  function LateFlight(c: Case): Flight {
    Flight(SignRequest(c.id, c.b, c.sb), SignedByA(c))
  }

  lemma CreateSignAndRead(c: Case) returns (actions: seq<Action>)
    requires Fits(c)
    ensures Leads(c.v, actions, AfterLateRead(c), {InTime, Alone, NoRepeats})
  {
    BothSign(c);
    actions := CreateAndSign(c);
    actions := Then(c.v, actions, AfterSigning(c), {InTime, Alone, NoRepeats},
        Client(Read(1, SignRequest(c.id, c.b, c.sb))), AfterLateRead(c));
  }

  function NewTask(id: Id, row: Record, now: int, stage: Stage): Task {
    Task(ToSubmit, Picked(id, row, now), stage)
  }

  /** A page on which only the first row qualifies, for submission. */
  lemma {:induction false} FirstRowOnly(pass: PassId, items: seq<Item>, now: int)
    requires items != [] && Submittable(items[0].row, now)
    requires forall i :: 0 < i < |items| ==> !Qualifies(items[i].row, now)
    ensures NewTasks(pass, items, now) == [NewTask(items[0].id, items[0].row, now, Listed(pass))]
  {
    var front := items[..|items| - 1];
    if |items| == 1 {
      assert NewTasks(pass, front, now) == [];
    } else {
      FirstRowOnly(pass, front, now);
    }
  }

  lemma OneRowPage(v: Verifier, j: Job, pass: PassId, id: Id, now: int)
    requires pass in j.open && j.open[pass] == Cursor(0, false) && j.sys.store.Keys == {id}
    requires j.clock <= now && Submittable(j.sys.store[id], now)
    ensures JH.Step(v, j, FetchPage(pass, [id], now)) ==
            j.(clock := now, open := j.open[pass := Cursor(1, true)],
               tasks := j.tasks + [NewTask(id, j.sys.store[id], now, Listed(pass))])
  {
    assert Elements([id]) == {id} && PageIds([id], 1) == [id] && PagesOf(1) == 1;
    assert PagePossible(j, pass, [id], now);
    var items := PageRows(j, pass, [id], now);
    assert items == [Item(id, j.sys.store[id])];
    FirstRowOnly(pass, items, now);
  }

  /** No task of the state is still listed by a pass. */
  ghost predicate NoneListed(j: Job) {
    j.open == map[] && forall i :: 0 <= i < |j.tasks| ==> !j.tasks[i].stage.Listed?
  }

  /** A pass over a store whose one row is submittable makes one more task due. */
  lemma PassOver(v: Verifier, actions: seq<Action>, j: Job, kept: set<Discipline>, id: Id, now: int)
    returns (more: seq<Action>, next: Job)
    requires Leads(v, actions, j, kept) && NoneListed(j) && (Alone in kept ==> Idle(j))
    requires j.sys.store.Keys == {id} && j.clock <= now && Submittable(j.sys.store[id], now)
    ensures next == j.(clock := now, tasks := j.tasks + [NewTask(id, j.sys.store[id], now, Due)])
    ensures Leads(v, more, next, kept)
  {
    var j1 := j.(open := map[0 := Cursor(0, false)]);
    assert j.open[0 := Cursor(0, false)] == j1.open;
    var j2 := j1.(clock := now, open := map[0 := Cursor(1, true)],
        tasks := j.tasks + [NewTask(id, j.sys.store[id], now, Listed(0))]);
    next := j.(clock := now, tasks := j.tasks + [NewTask(id, j.sys.store[id], now, Due)]);
    more := Then(v, actions, j, kept, BeginPass(0), j1);
    OneRowPage(v, j1, 0, id, now);
    more := Then(v, more, j1, kept, FetchPage(0, [id], now), j2);
    assert Released(j2.tasks, 0) == next.tasks && j2.open - {0} == map[];
    more := Then(v, more, j2, kept, EndPass(0), next);
  }

  /** What the four histories show. */
  ghost predicate SubmitsTwice(v: Verifier, actions: seq<Action>, id: Id) {
    var tasks := JH.Run(v, actions).tasks;
    |tasks| == 2 && forall i :: 0 <= i < 2 ==> Submitted(tasks[i]) && tasks[i].picked.id == id
  }

  lemma SubmitLast(v: Verifier, actions: seq<Action>, j: Job, kept: set<Discipline>)
    returns (more: seq<Action>, next: Job)
    requires Leads(v, actions, j, kept) && j.tasks != [] && j.tasks[|j.tasks| - 1].purpose == ToSubmit
        && j.tasks[|j.tasks| - 1].stage == Due
    ensures next == j.(tasks := j.tasks[|j.tasks| - 1 := j.tasks[|j.tasks| - 1].(stage := Sent(true))])
    ensures Leads(v, more, next, kept)
  {
    var i := |j.tasks| - 1;
    next := j.(tasks := j.tasks[i := j.tasks[i].(stage := Sent(true))]);
    more := Then(v, actions, j, kept, Submit(i, true), next);
  }

  lemma SubmitBoth(v: Verifier, actions: seq<Action>, j: Job, kept: set<Discipline>, id: Id, row: Record, now: int)
    returns (more: seq<Action>)
    requires Leads(v, actions, j, kept) && j.tasks == [NewTask(id, row, now, Due), NewTask(id, row, now, Due)]
    ensures SubmitsTwice(v, more, id) && forall d :: d in kept ==> Disciplined(d, v, START, more)
  {
    var due, sent := NewTask(id, row, now, Due), NewTask(id, row, now, Sent(true));
    more := Then(v, actions, j, kept, Submit(0, true), j.(tasks := [sent, due]));
    more := Then(v, more, j.(tasks := [sent, due]), kept, Submit(1, true), j.(tasks := [sent, sent]));
  }

  /** The next pass begins before the first has submitted what it picked; no signature is late. */
  lemma OverlappingPassesSubmitTwice(c: Case) returns (actions: seq<Action>)
    requires Fits(c)
    ensures SubmitsTwice(c.v, actions, c.id)
    ensures Disciplined(InTime, c.v, START, actions) && Disciplined(NoRepeats, c.v, START, actions)
  {
    var kept := {InTime, NoRepeats};
    var j: Job;
    actions := CreateAndSign(c);
    actions, j := PassOver(c.v, actions, AfterSigning(c), kept, c.id, c.now);
    actions, j := PassOver(c.v, actions, j, kept, c.id, c.now);
    actions := SubmitBoth(c.v, actions, j, kept, c.id, SignedByA(c), c.now);
  }

  // ---------- a row on two pages ----------

  /** Two hundred further records from the same request, all still PENDING. */
  ghost predicate FurtherIds(c: Case, others: seq<Id>) {
    |others| == 200 && NoDup(others) && c.id !in others && forall id :: id in others ==> IsUuid(id)
  }

  const ZEROS := "00000000-0000-0000-0000-000000000"

  /** The well-formed identifier that ends in the three digits of n. */
  function NumberedId(n: nat): Id
    requires n < 1000
  {
    ZEROS + [HexCodec.Digit(n / 100), HexCodec.Digit(n / 10 % 10), HexCodec.Digit(n % 10)]
  }

  lemma NumberedIdIsUuid(n: nat)
    requires n < 1000
    ensures IsUuid(NumberedId(n))
  {
    HexCodec.DigitsInvert(n / 100);
    HexCodec.DigitsInvert(n / 10 % 10);
    HexCodec.DigitsInvert(n % 10);
    var id := NumberedId(n);
    assert |ZEROS| == 33 && forall i :: 0 <= i < 33 ==> id[i] == ZEROS[i];
    assert forall i :: 0 <= i < 33 ==> if i in {8, 13, 18, 23} then ZEROS[i] == '-' else ZEROS[i] == '0';
  }

  lemma SameDigit(a: int, b: int)
    requires 0 <= a < 16 && 0 <= b < 16 && HexCodec.Digit(a) == HexCodec.Digit(b)
    ensures a == b
  {
    HexCodec.DigitsInvert(a);
    HexCodec.DigitsInvert(b);
  }

  lemma NumberFromDigits(n: nat)
    requires n < 1000
    ensures n == n / 100 * 100 + n / 10 % 10 * 10 + n % 10
  {
    assert n / 10 == n / 100 * 10 + n / 10 % 10;
  }

  lemma LastThree(n: nat)
    requires n < 1000
    ensures NumberedId(n)[|ZEROS|..] == [HexCodec.Digit(n / 100), HexCodec.Digit(n / 10 % 10), HexCodec.Digit(n % 10)]
  {
  }

  lemma NumberedIdsDiffer(m: nat, n: nat)
    requires m < 1000 && n < 1000 && NumberedId(m) == NumberedId(n)
    ensures m == n
  {
    LastThree(m);
    LastThree(n);
    var a, b := NumberedId(m)[|ZEROS|..], NumberedId(n)[|ZEROS|..];
    assert a[0] == b[0] && a[1] == b[1] && a[2] == b[2];
    SameDigit(m / 100, n / 100);
    SameDigit(m / 10 % 10, n / 10 % 10);
    SameDigit(m % 10, n % 10);
    NumberFromDigits(m);
    NumberFromDigits(n);
  }

  /** The first 201 numbered identifiers without number k. */
  function Numbered(k: nat): seq<Id> {
    seq(200, i requires 0 <= i < 200 => NumberedId(if i < k then i else i + 1))
  }

  lemma NumberedAreDistinct(k: nat)
    ensures NoDup(Numbered(k))
  {
    forall i, m | 0 <= i < m < 200 ensures Numbered(k)[i] != Numbered(k)[m] {
      if Numbered(k)[i] == Numbered(k)[m] {
        NumberedIdsDiffer(if i < k then i else i + 1, if m < k then m else m + 1);
      }
    }
  }

  lemma NumberedIsAnother(k: nat, id: Id, i: nat)
    requires i < 200 && k <= 200
    requires (forall n :: 0 <= n < k ==> NumberedId(n) != id) && (k == 200 || NumberedId(k) == id)
    ensures IsUuid(Numbered(k)[i]) && Numbered(k)[i] != id
  {
    NumberedIdIsUuid(if i < k then i else i + 1);
    if Numbered(k)[i] == id {
      NumberedIdsDiffer(k, i + 1);
    }
  }

  lemma {:induction false} FirstNumbered(id: Id, n: nat) returns (k: nat)
    requires n <= 200
    ensures k <= n && (forall m :: 0 <= m < k ==> NumberedId(m) != id) && (k == n || NumberedId(k) == id)
  {
    if n == 0 {
      k := 0;
    } else {
      k := FirstNumbered(id, n - 1);
      if k == n - 1 && NumberedId(k) != id {
        k := n;
      }
    }
  }

  /** Of 201 identifiers there are 200 that are not this one. */
  lemma FurtherIdsExist(c: Case) returns (others: seq<Id>)
    ensures FurtherIds(c, others)
  {
    var k := FirstNumbered(c.id, 200);
    others := Numbered(k);
    NumberedAreDistinct(k);
    forall id | id in others ensures IsUuid(id) && id != c.id {
      var i :| 0 <= i < 200 && others[i] == id;
      NumberedIsAnother(k, c.id, i);
    }
  }

  function Crowd(c: Case, others: seq<Id>): map<Id, Record> {
    map id | id in others :: Unsigned(c)
  }

  function Crowded(c: Case, others: seq<Id>): Job {
    START.(sys := State(Crowd(c, others)[c.id := SignedByA(c)], map[], Crowd(c, others)[c.id := Unsigned(c)]))
  }

  lemma CrowdGrows(c: Case, others: seq<Id>, n: nat, row: Record)
    requires FurtherIds(c, others) && n < |others|
    ensures others[n] != c.id && others[n] !in Crowd(c, others[..n])
    ensures Crowd(c, others[..n])[c.id := row][others[n] := Unsigned(c)] == Crowd(c, others[..n + 1])[c.id := row]
  {
    assert others[n] in others && others[n] !in others[..n];
    assert others[..n + 1] == others[..n] + [others[n]];
  }

  lemma OneMoreRecord(c: Case, others: seq<Id>, n: nat)
    requires Fits(c) && FurtherIds(c, others) && n < |others|
    ensures JH.Step(c.v, Crowded(c, others[..n]), Client(Create(others[n], CreateRequest(c.payload, [c.a, c.b], 1)))) ==
            Crowded(c, others[..n + 1])
  {
    NewRow(c);
    assert others[n] in others;
    CrowdGrows(c, others, n, SignedByA(c));
    CrowdGrows(c, others, n, Unsigned(c));
  }

  lemma {:induction false} CreateOthers(c: Case, others: seq<Id>, n: nat) returns (actions: seq<Action>)
    requires Fits(c) && FurtherIds(c, others) && n <= |others|
    ensures Leads(c.v, actions, Crowded(c, others[..n]), {InTime, Alone, NoRepeats})
  {
    if n == 0 {
      actions := CreateAndSign(c);
      assert Crowd(c, others[..0]) == map[];
    } else {
      actions := CreateOthers(c, others, n - 1);
      OneMoreRecord(c, others, n - 1);
      actions := Then(c.v, actions, Crowded(c, others[..n - 1]), {InTime, Alone, NoRepeats},
                      Client(Create(others[n - 1], CreateRequest(c.payload, [c.a, c.b], 1))), Crowded(c, others[..n]));
    }
  }

  /** The order in which the store happens to be listed for the first page, and for the second. */
  function FirstListing(c: Case, others: seq<Id>): seq<Id> {
    [c.id] + others
  }

  function SecondListing(c: Case, others: seq<Id>): seq<Id>
    requires |others| == 200
  {
    others[..LIMIT] + ([c.id] + others[LIMIT..])
  }

  lemma FirstIsTheStore(c: Case, others: seq<Id>)
    requires FurtherIds(c, others)
    ensures NoDup(FirstListing(c, others)) && Elements(FirstListing(c, others)) == Crowded(c, others).sys.store.Keys
  {
    var first := FirstListing(c, others);
    assert forall i :: 0 <= i < |others| ==> others[i] in others;
    assert forall id :: id in Elements(first) <==> id == c.id || id in others;
  }

  lemma SecondIsTheStore(c: Case, others: seq<Id>)
    requires FurtherIds(c, others)
    ensures NoDup(SecondListing(c, others)) && Elements(SecondListing(c, others)) == Crowded(c, others).sys.store.Keys
  {
    var second := SecondListing(c, others);
    var front, back := others[..LIMIT], others[LIMIT..];
    assert others == front + back;
    forall i, k | 0 <= i < k < |second| ensures second[i] != second[k] {
      SecondAt(c, others, i);
      SecondAt(c, others, k);
    }
    assert forall id :: id in second <==> id in front || id == c.id || id in back;
    assert forall id :: id in others <==> id in front || id in back;
    assert forall id :: id in Elements(second) <==> id == c.id || id in others;
  }

  lemma SecondAt(c: Case, others: seq<Id>, i: nat)
    requires FurtherIds(c, others) && i < |SecondListing(c, others)|
    ensures i != LIMIT ==> others[if i < LIMIT then i else i - 1] in others
    ensures SecondListing(c, others)[i] == if i == LIMIT then c.id else others[if i < LIMIT then i else i - 1]
  {
  }

  /** What fetching a page that starts with the signed row does, whatever stands behind it. */
  lemma CrowdedPage(c: Case, others: seq<Id>, j: Job, listing: seq<Id>)
    requires Fits(c) && FurtherIds(c, others) && j.sys == Crowded(c, others).sys && j.clock <= c.now
    requires 0 in j.open && !j.open[0].done && NoDup(listing) && Elements(listing) == j.sys.store.Keys
    requires NextPage(j, 0, listing) != [] && NextPage(j, 0, listing)[0] == c.id
    ensures JH.Step(c.v, j, FetchPage(0, listing, c.now)) ==
            j.(clock := c.now, open := j.open[0 := Advanced(j.open[0], |listing|)],
               tasks := j.tasks + [NewTask(c.id, SignedByA(c), c.now, Listed(0))])
  {
    var items := PageRows(j, 0, listing, c.now);
    PageIsOfStore(j, 0, listing, c.now);
    forall i | 0 < i < |items| ensures !Qualifies(items[i].row, c.now) {
      assert items[i].id != items[0].id && items[i].row == j.sys.store[items[i].id] == Unsigned(c);
    }
    FirstRowOnly(0, items, c.now);
  }

  function Meeting(c: Case): Task {
    NewTask(c.id, SignedByA(c), c.now, Listed(0))
  }

  /** Before, between and after the two pages. */
  function Reading(c: Case, others: seq<Id>, pages: nat): Job
    requires pages <= 2
  {
    var j := Crowded(c, others);
    if pages == 0 then j.(open := map[0 := Cursor(0, false)])
    else if pages == 1 then j.(clock := c.now, open := map[0 := Cursor(1, false)], tasks := [Meeting(c)])
    else j.(clock := c.now, open := map[0 := Cursor(2, true)], tasks := [Meeting(c), Meeting(c)])
  }

  lemma PassOpens(c: Case, others: seq<Id>)
    ensures JH.Step(c.v, Crowded(c, others), BeginPass(0)) == Reading(c, others, 0)
    ensures forall d :: Obeys(d, c.v, Crowded(c, others), BeginPass(0))
  {
  }

  lemma FirstPage(c: Case, others: seq<Id>)
    requires Fits(c) && FurtherIds(c, others)
    ensures JH.Step(c.v, Reading(c, others, 0), FetchPage(0, FirstListing(c, others), c.now)) == Reading(c, others, 1)
  {
    assert PagesOf(201) == 3 && PageIds(FirstListing(c, others), 1)[0] == c.id;
    FirstIsTheStore(c, others);
    CrowdedPage(c, others, Reading(c, others, 0), FirstListing(c, others));
  }

  lemma SecondPage(c: Case, others: seq<Id>)
    requires Fits(c) && FurtherIds(c, others)
    ensures JH.Step(c.v, Reading(c, others, 1), FetchPage(0, SecondListing(c, others), c.now)) == Reading(c, others, 2)
  {
    assert PagesOf(201) == 3 && PageIds(SecondListing(c, others), 2)[0] == c.id;
    SecondIsTheStore(c, others);
    CrowdedPage(c, others, Reading(c, others, 1), SecondListing(c, others));
  }

  lemma OpenCrowded(c: Case, others: seq<Id>) returns (actions: seq<Action>)
    requires Fits(c) && FurtherIds(c, others)
    ensures Leads(c.v, actions, Reading(c, others, 0), {InTime, Alone})
  {
    actions := CreateOthers(c, others, |others|);
    assert others[..|others|] == others;
    PassOpens(c, others);
    actions := Then(c.v, actions, Crowded(c, others), {InTime, Alone}, BeginPass(0), Reading(c, others, 0));
  }

  lemma FetchBoth(v: Verifier, actions: seq<Action>, j0: Job, j1: Job, j2: Job, first: Action, second: Action)
    returns (more: seq<Action>)
    requires Leads(v, actions, j0, {InTime, Alone}) && first.FetchPage? && second.FetchPage?
    requires JH.Step(v, j0, first) == j1 && JH.Step(v, j1, second) == j2
    ensures Leads(v, more, j2, {InTime, Alone})
  {
    more := Then(v, actions, j0, {InTime, Alone}, first, j1);
    more := Then(v, more, j1, {InTime, Alone}, second, j2);
  }

  lemma ReadTwoPages(c: Case, others: seq<Id>) returns (actions: seq<Action>)
    requires Fits(c) && FurtherIds(c, others)
    ensures Leads(c.v, actions, Reading(c, others, 2), {InTime, Alone})
  {
    var first, second := FetchPage(0, FirstListing(c, others), c.now), FetchPage(0, SecondListing(c, others), c.now);
    actions := OpenCrowded(c, others);
    FirstPage(c, others);
    SecondPage(c, others);
    actions := FetchBoth(c.v, actions, Reading(c, others, 0), Reading(c, others, 1), Reading(c, others, 2),
                         first, second);
  }

  lemma BothTasksDue(c: Case, others: seq<Id>) returns (due: Job)
    ensures due == Reading(c, others, 2).(open := map[],
        tasks := [Meeting(c).(stage := Due), Meeting(c).(stage := Due)])
    ensures JH.Step(c.v, Reading(c, others, 2), EndPass(0)) == due
  {
    var j := Reading(c, others, 2);
    due := j.(open := map[], tasks := [Meeting(c).(stage := Due), Meeting(c).(stage := Due)]);
    assert Released(j.tasks, 0) == due.tasks && j.open - {0} == map[];
  }

  /** One pass meets the row on two of its pages: of 201 rows the loop reads two pages, and the query asks for no
      order, so the second may list the store in another one. */
  lemma RepeatedPageSubmitsTwice(c: Case) returns (actions: seq<Action>)
    requires Fits(c)
    ensures SubmitsTwice(c.v, actions, c.id)
    ensures Disciplined(InTime, c.v, START, actions) && Disciplined(Alone, c.v, START, actions)
  {
    var kept := {InTime, Alone};
    var others := FurtherIdsExist(c);
    actions := ReadTwoPages(c, others);
    var due := BothTasksDue(c, others);
    actions := Then(c.v, actions, Reading(c, others, 2), kept, EndPass(0), due);
    actions := SubmitBoth(c.v, actions, due, kept, c.id, SignedByA(c), c.now);
  }

  // ---------- late signatures ----------

  /** The first pass has submitted the record and reported it, whatever became of the row meanwhile. */
  function Reported(c: Case, store: map<Id, Record>): Job {
    AfterLateRead(c).(clock := c.now, tasks := [NewTask(c.id, SignedByA(c), c.now, Done)],
                      sys := State(store, map[1 := LateFlight(c)], map[c.id := Unsigned(c)]))
  }

  lemma FirstSubmission(c: Case) returns (actions: seq<Action>, j: Job)
    requires Fits(c)
    ensures j == AfterLateRead(c).(clock := c.now, tasks := [NewTask(c.id, SignedByA(c), c.now, Sent(true))])
    ensures Leads(c.v, actions, j, {InTime, Alone, NoRepeats})
  {
    actions := CreateSignAndRead(c);
    var kept := {InTime, Alone, NoRepeats};
    actions, j := PassOver(c.v, actions, AfterLateRead(c), kept, c.id, c.now);
    actions, j := SubmitLast(c.v, actions, j, kept);
  }

  lemma LateDecision(c: Case)
    requires Fits(c)
    ensures Decide(c.v, LateFlight(c).request, LateFlight(c).base) == Success(Save(SignedByBoth(c)))
  {
    BothSign(c);
  }

  lemma LateSave(c: Case, store: map<Id, Record>) returns (next: Job)
    requires Fits(c) && store.Keys <= {c.id}
    ensures next == Reported(c, store).(sys := State(map[c.id := SignedByBoth(c)], map[], map[c.id := Unsigned(c)]))
    ensures JH.Step(c.v, Reported(c, store), Client(Finish(1))) == next
  {
    LateDecision(c);
    next := Reported(c, store).(sys := State(map[c.id := SignedByBoth(c)], map[], map[c.id := Unsigned(c)]));
    assert map[1 := LateFlight(c)] - {1} == map[] && store[c.id := SignedByBoth(c)] == map[c.id := SignedByBoth(c)];
  }

  /** From there on: the late save makes the row SIGNED and the next pass submits it again. */
  lemma LateSaveSubmitsAgain(c: Case, actions: seq<Action>, store: map<Id, Record>) returns (more: seq<Action>)
    requires Fits(c) && Leads(c.v, actions, Reported(c, store), {Alone, NoRepeats}) && store.Keys <= {c.id}
    ensures SubmitsTwice(c.v, more, c.id)
    ensures Disciplined(Alone, c.v, START, more) && Disciplined(NoRepeats, c.v, START, more)
  {
    var kept := {Alone, NoRepeats};
    var j := LateSave(c, store);
    more := Then(c.v, actions, Reported(c, store), kept, Client(Finish(1)), j);
    more, j := PassOver(c.v, more, j, kept, c.id, c.now);
    more, j := SubmitLast(c.v, more, j, kept);
  }

  /** B's signature, read before the submission, is saved after the row has become EXECUTED. */
  lemma LateSignatureSubmitsTwice(c: Case) returns (actions: seq<Action>)
    requires Fits(c)
    ensures SubmitsTwice(c.v, actions, c.id)
    ensures Disciplined(Alone, c.v, START, actions) && Disciplined(NoRepeats, c.v, START, actions)
  {
    var kept := {InTime, Alone, NoRepeats};
    var j: Job;
    actions, j := FirstSubmission(c);
    var executed := map[c.id := SignedByA(c).(status := Executed)];
    var flights := map[1 := LateFlight(c)][2 := Flight(StatusRequest(c.id, Executed), SignedByA(c))];
    var j1 := j.(tasks := [NewTask(c.id, SignedByA(c), c.now, Done)], sys := j.sys.(flights := flights));
    actions := Then(c.v, actions, j, kept, BeginReport(2, 0), j1);
    assert flights - {2} == map[1 := LateFlight(c)];
    actions := Then(c.v, actions, j1, kept, Client(Finish(2)), Reported(c, executed));
    actions := LateSaveSubmitsAgain(c, actions, executed);
  }

  /** Or it is saved after the row has been deleted, and brings it back. */
  lemma DeletedRowSubmitsTwice(c: Case) returns (actions: seq<Action>)
    requires Fits(c)
    ensures SubmitsTwice(c.v, actions, c.id)
    ensures Disciplined(Alone, c.v, START, actions) && Disciplined(NoRepeats, c.v, START, actions)
  {
    var kept := {InTime, Alone, NoRepeats};
    var j: Job;
    actions, j := FirstSubmission(c);
    var flights := map[1 := LateFlight(c)][2 := Flight(DeleteRequest(c.id), SignedByA(c))];
    var j1 := j.(sys := j.sys.(flights := flights));
    actions := Then(c.v, actions, j, kept, Client(Read(2, DeleteRequest(c.id))), j1);
    assert flights - {2} == map[1 := LateFlight(c)] && map[c.id := SignedByA(c)] - {c.id} == map[];
    var j2 := j.(sys := j.sys.(store := map[]));
    actions := Then(c.v, actions, j1, kept, Client(Finish(2)), j2);
    actions := Then(c.v, actions, j2, kept, BeginReport(2, 0), Reported(c, map[]));
    actions := LateSaveSubmitsAgain(c, actions, map[]);
  }
}
