/** One pass of the submission job over a listing of the store: the paging loop and the classification. */
module AutoSubmit {
  import opened Collections
  import opened MultisigRecord

  const LIMIT := 100
  const WINDOW := 180_000

  datatype Item = Item(id: Id, row: Record)

  /** A record as the job saw it, and the clock reading it was judged by. */
  datatype Picked = Picked(id: Id, row: Record, readAt: int)

  /** Rows are handed to the job with their start date printed to the second. */
  function StartDate(row: Record): int {
    row.payload.startDate - row.payload.startDate % 1000
  }

  predicate Submittable(row: Record, now: int) {
    row.status == Signed && StartDate(row) <= now && StartDate(row) > now - WINDOW
  }

  predicate Expirable(row: Record, now: int) {
    (row.status == Signed || row.status == Pending) && StartDate(row) <= now - WINDOW
  }

  /** `submit` and `expire` select one of the two filters. */
  datatype Purpose = ToSubmit | ToExpire

  predicate Picks(purpose: Purpose, row: Record, now: int) {
    if purpose == ToSubmit then Submittable(row, now) else Expirable(row, now)
  }

  function Filter(purpose: Purpose, items: seq<Item>, now: int): seq<Picked> {
    if items == [] then []
    else
      var rest := Filter(purpose, items[..|items| - 1], now);
      var last := items[|items| - 1];
      if Picks(purpose, last.row, now) then rest + [Picked(last.id, last.row, now)] else rest
  }

  function Min(a: int, b: int): int {
    if a < b then a else b
  }

  /** Page p, counted from 1. */
  function Page(all: seq<Item>, p: nat): seq<Item>
    requires p >= 1
  {
    var from := Min((p - 1) * LIMIT, |all|);
    all[from..Min(from + LIMIT, |all|)]
  }

  function PagesOf(n: nat): nat {
    (n + LIMIT - 1) / LIMIT
  }

  function TotalPages(all: seq<Item>): nat {
    PagesOf(|all|)
  }

  /** The last page the loop reads. */
  function LastRead(all: seq<Item>): nat {
    if TotalPages(all) >= 2 then TotalPages(all) - 1 else 1
  }

  /** What pages 1..k give, each page judged by the clock reading taken after fetching it. */
  function FromPages(purpose: Purpose, all: seq<Item>, clock: nat -> int, k: nat): seq<Picked> {
    if k == 0 then [] else FromPages(purpose, all, clock, k - 1) + Filter(purpose, Page(all, k), clock(k))
  }

  function Collected(purpose: Purpose, all: seq<Item>, clock: nat -> int): seq<Picked> {
    FromPages(purpose, all, clock, LastRead(all))
  }

  /** The loop, over a listing that does not change meanwhile: it ends, and it has read
      pages 1 to max(1, totalPages - 1). */
  method Collect(all: seq<Item>, clock: nat -> int)
    returns (transactionsToSubmit: seq<Picked>, transactionsToExpire: seq<Picked>, page: nat)
    ensures transactionsToSubmit == Collected(ToSubmit, all, clock)
    ensures transactionsToExpire == Collected(ToExpire, all, clock)
    ensures page == LastRead(all) + 1
  {
    var done := false;
    page := 1;
    transactionsToSubmit, transactionsToExpire := [], [];
    while !done
      invariant 1 <= page <= LastRead(all) + 1
      invariant done <==> page == LastRead(all) + 1
      invariant transactionsToSubmit == FromPages(ToSubmit, all, clock, page - 1)
      invariant transactionsToExpire == FromPages(ToExpire, all, clock, page - 1)
      decreases LastRead(all) + 1 - page
    {
      var items := Page(all, page);
      var now := clock(page);
      transactionsToSubmit := transactionsToSubmit + Filter(ToSubmit, items, now);
      transactionsToExpire := transactionsToExpire + Filter(ToExpire, items, now);
      page := page + 1;
      if page >= TotalPages(all) {
        done := true;
      }
    }
  }

  // ---------- what a pass covers ----------

  lemma {:induction false} FilterConcat(purpose: Purpose, a: seq<Item>, b: seq<Item>, now: int)
    ensures Filter(purpose, a + b, now) == Filter(purpose, a, now) + Filter(purpose, b, now)
  {
    if b == [] {
      assert a + b == a;
    } else {
      assert (a + b)[..|a + b| - 1] == a + b[..|b| - 1];
      FilterConcat(purpose, a, b[..|b| - 1], now);
    }
  }

  /** A clock that reads the same all through the pass. */
  function Frozen(now: int): nat -> int {
    (page: nat) => now
  }

  lemma {:induction false} PagesAreAPrefix(purpose: Purpose, all: seq<Item>, now: int, k: nat)
    ensures FromPages(purpose, all, Frozen(now), k) == Filter(purpose, all[..Min(k * LIMIT, |all|)], now)
  {
    if k > 0 {
      PagesAreAPrefix(purpose, all, now, k - 1);
      var from := Min((k - 1) * LIMIT, |all|);
      assert all[..Min(k * LIMIT, |all|)] == all[..from] + Page(all, k);
      FilterConcat(purpose, all[..from], Page(all, k), now);
    }
  }

  /** The rows the loop never fetches: with two or more pages, the last page. */
  function Unread(all: seq<Item>): seq<Item> {
    if TotalPages(all) <= 1 then [] else Page(all, TotalPages(all))
  }

  /** What reading every page would give, each judged by its own clock reading. */
  function Intended(purpose: Purpose, all: seq<Item>, clock: nat -> int): seq<Picked> {
    FromPages(purpose, all, clock, if TotalPages(all) <= 1 then 1 else TotalPages(all))
  }

  /** A pass finds everything there is to find exactly when the page it skips holds nothing to find at the
      time it would have been read. */
  lemma PassIsCompleteIff(purpose: Purpose, all: seq<Item>, clock: nat -> int)
    ensures Collected(purpose, all, clock) == Intended(purpose, all, clock)
            <==> forall item :: item in Unread(all) ==> !Picks(purpose, item.row, clock(TotalPages(all)))
    ensures TotalPages(all) <= 1 ==> Collected(purpose, all, clock) == Intended(purpose, all, clock)
  {
    if TotalPages(all) >= 2 {
      var found, missed := Collected(purpose, all, clock), Filter(purpose, Unread(all), clock(TotalPages(all)));
      FilterEmptyIff(purpose, Unread(all), clock(TotalPages(all)));
      assert Intended(purpose, all, clock) == found + missed;
      assert found == found + missed <==> missed == [];
    }
  }

  /** At one clock reading, what is intended is the filter over the whole listing. */
  lemma IntendedIsEverything(purpose: Purpose, all: seq<Item>, now: int)
    ensures Intended(purpose, all, Frozen(now)) == Filter(purpose, all, now)
  {
    var k := if TotalPages(all) <= 1 then 1 else TotalPages(all);
    PagesAreAPrefix(purpose, all, now, k);
    assert Min(k * LIMIT, |all|) == |all| && all[..|all|] == all;
  }

  lemma {:induction false} FilterEmptyIff(purpose: Purpose, items: seq<Item>, now: int)
    ensures Filter(purpose, items, now) == [] <==> forall item :: item in items ==> !Picks(purpose, item.row, now)
  {
    if items != [] {
      var front, last := items[..|items| - 1], items[|items| - 1];
      FilterEmptyIff(purpose, front, now);
      assert items == front + [last];
    }
  }

  /** With two full pages of submittable records, the second hundred is left for no later page to find. */
  lemma SecondPageIsSkipped(all: seq<Item>, now: int)
    requires |all| == 2 * LIMIT
    requires forall item :: item in all ==> Submittable(item.row, now)
    ensures Collected(ToSubmit, all, Frozen(now)) == Filter(ToSubmit, all[..LIMIT], now)
    ensures Collected(ToSubmit, all, Frozen(now)) != Filter(ToSubmit, all, now)
  {
    PagesAreAPrefix(ToSubmit, all, now, 1);
    PassIsCompleteIff(ToSubmit, all, Frozen(now));
    IntendedIsEverything(ToSubmit, all, now);
    assert all[LIMIT] == Unread(all)[0];
    assert Unread(all)[0] in Unread(all);
  }

  // ---------- what lands in the lists ----------

  ghost predicate DistinctIds(all: seq<Item>) {
    forall i, j :: 0 <= i < j < |all| ==> all[i].id != all[j].id
  }

  /** Where a picked record comes from: a row of one of the pages read, judged by that page's clock. */
  ghost predicate ComesFrom(purpose: Purpose, all: seq<Item>, clock: nat -> int, k: nat, p: Picked, i: nat) {
    && i < |all| && p == Picked(all[i].id, all[i].row, clock(i / LIMIT + 1)) && i / LIMIT + 1 <= k
    && Picks(purpose, p.row, p.readAt)
  }

  lemma PageOfRow(k: nat, j: nat)
    requires k >= 1 && j < LIMIT
    ensures ((k - 1) * LIMIT + j) / LIMIT + 1 == k
  {
  }

  lemma {:induction false} PickedOrigin(purpose: Purpose, all: seq<Item>, clock: nat -> int, k: nat, p: Picked)
    returns (i: nat)
    requires p in FromPages(purpose, all, clock, k)
    ensures ComesFrom(purpose, all, clock, k, p, i)
  {
    if p in FromPages(purpose, all, clock, k - 1) {
      i := PickedOrigin(purpose, all, clock, k - 1, p);
    } else {
      var page := Page(all, k);
      var j := FilterOrigin(purpose, page, clock(k), p);
      i := (k - 1) * LIMIT + j;
      PageOfRow(k, j);
      assert all[i] == page[j];
    }
  }

  lemma {:induction false} FilterOrigin(purpose: Purpose, items: seq<Item>, now: int, p: Picked) returns (i: nat)
    requires p in Filter(purpose, items, now)
    ensures i < |items| && p == Picked(items[i].id, items[i].row, now) && Picks(purpose, p.row, now)
  {
    var front := items[..|items| - 1];
    if p in Filter(purpose, front, now) {
      i := FilterOrigin(purpose, front, now, p);
    } else {
      i := |items| - 1;
    }
  }

  /** Over one listing, whatever the clock readings: a record is picked at most once and never for both
      purposes, and EXPIRED, ERROR and EXECUTED records are not picked at all. */
  lemma PassPicksOnce(all: seq<Item>, clock: nat -> int)
    requires DistinctIds(all)
    ensures forall p, q :: p in Collected(ToSubmit, all, clock) && q in Collected(ToExpire, all, clock) ==> p.id != q.id
    ensures forall purpose, p, q ::
              p in Collected(purpose, all, clock) && q in Collected(purpose, all, clock) && p.id == q.id ==> p == q
    ensures forall purpose, p :: p in Collected(purpose, all, clock) ==>
              !Terminal(p.row.status) && Item(p.id, p.row) in all && Picks(purpose, p.row, p.readAt)
  {
    var k := LastRead(all);
    forall purpose, other, p, q | p in Collected(purpose, all, clock) && q in Collected(other, all, clock)
        && p.id == q.id
      ensures p == q && purpose == other
    {
      var i := PickedOrigin(purpose, all, clock, k, p);
      var j := PickedOrigin(other, all, clock, k, q);
      assert i == j;
    }
    forall purpose, p | p in Collected(purpose, all, clock)
      ensures !Terminal(p.row.status) && Item(p.id, p.row) in all && Picks(purpose, p.row, p.readAt)
    {
      var i := PickedOrigin(purpose, all, clock, k, p);
      assert all[i] in all;
    }
  }

  // ---------- what is picked, in the row's own terms ----------

  /** SIGNED, and started within the last three minutes. */
  predicate InWindow(row: Record, now: int) {
    var start := row.payload.startDate / 1000 * 1000;
    row.status == Signed && start <= now && now - start < 180_000
  }

  /** Not yet handled, and started three minutes ago or more. */
  predicate Overdue(row: Record, now: int) {
    row.status in {Signed, Pending} && now - row.payload.startDate / 1000 * 1000 >= 180_000
  }

  lemma {:induction false} FilterFinds(purpose: Purpose, items: seq<Item>, now: int, i: nat)
    requires i < |items| && Picks(purpose, items[i].row, now)
    ensures Picked(items[i].id, items[i].row, now) in Filter(purpose, items, now)
  {
    if i < |items| - 1 {
      FilterFinds(purpose, items[..|items| - 1], now, i);
    }
  }

  lemma {:induction false} PageFinds(purpose: Purpose, all: seq<Item>, clock: nat -> int, k: nat, i: nat)
    requires i < |all| && i / LIMIT + 1 <= k && Picks(purpose, all[i].row, clock(i / LIMIT + 1))
    ensures Picked(all[i].id, all[i].row, clock(i / LIMIT + 1)) in FromPages(purpose, all, clock, k)
  {
    if i / LIMIT + 1 < k {
      PageFinds(purpose, all, clock, k - 1, i);
    } else {
      var page, from := Page(all, k), (k - 1) * LIMIT;
      assert from <= i < from + LIMIT && page[i - from] == all[i];
      FilterFinds(purpose, page, clock(k), i - from);
    }
  }

  lemma PurposesAre(row: Record, now: int)
    ensures Picks(ToSubmit, row, now) <==> InWindow(row, now)
    ensures Picks(ToExpire, row, now) <==> Overdue(row, now)
  {
  }

  /** A row of a page that the loop reads is picked for submission exactly when it is SIGNED and in its three
      minutes, and for expiry exactly when it is SIGNED or PENDING and past them, by the clock of its page. */
  lemma PickedIff(all: seq<Item>, clock: nat -> int, i: nat)
    requires DistinctIds(all) && i < |all| && i / 100 + 1 <= LastRead(all)
    ensures var now := clock(i / 100 + 1);
            var p := Picked(all[i].id, all[i].row, now);
            && (p in Collected(ToSubmit, all, clock) <==> InWindow(all[i].row, now))
            && (p in Collected(ToExpire, all, clock) <==> Overdue(all[i].row, now))
  {
    var k, now := LastRead(all), clock(i / LIMIT + 1);
    var p := Picked(all[i].id, all[i].row, now);
    PurposesAre(all[i].row, now);
    forall purpose ensures p in Collected(purpose, all, clock) <==> Picks(purpose, all[i].row, now) {
      if Picks(purpose, all[i].row, now) {
        PageFinds(purpose, all, clock, k, i);
      }
      if p in Collected(purpose, all, clock) {
        var m := PickedOrigin(purpose, all, clock, k, p);
        assert m == i;
      }
    }
  }
}
