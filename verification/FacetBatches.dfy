/** Sending facet configurations to the resolver in batches, with the facet ids read from the chain behind a
    memo that concurrent lookups share. */
module FacetBatches {
  import opened Collections

  type Address = string
  type FacetKey = string

  datatype FacetConfiguration = FacetConfiguration(id: FacetKey, version: int)
  datatype Batch = Batch(configurations: seq<FacetConfiguration>, isFinalBatch: bool)
  datatype BatchError = LengthMismatch | SendingFailed

  function CreateFacetConfigurations(ids: seq<FacetKey>, versions: seq<int>): seq<FacetConfiguration>
    requires |ids| == |versions|
  {
    seq(|ids|, i requires 0 <= i < |ids| => FacetConfiguration(ids[i], versions[i]))
  }

  /** Everything the batches carry, in the order sent. */
  function Sent(batches: seq<Batch>): seq<FacetConfiguration> {
    if batches == [] then [] else Sent(batches[..|batches| - 1]) + batches[|batches| - 1].configurations
  }

  /** The batches are the pointwise pairing cut in at most two non-empty pieces, the first no shorter than the
      second, and exactly the last one is final, or none in a partial deployment. */
  ghost predicate CutsPairing(batches: seq<Batch>, ids: seq<FacetKey>, versions: seq<int>, partialBatchDeploy: bool)
    requires |ids| == |versions|
  {
    && Sent(batches) == CreateFacetConfigurations(ids, versions)
    && |batches| == (if |ids| < 2 then |ids| else 2)
    && (forall k :: 0 <= k < |batches| ==> batches[k].configurations != [])
    && (|batches| == 2 ==>
         |batches[1].configurations| <= |batches[0].configurations| <= |batches[1].configurations| + 1)
    && (forall k :: 0 <= k < |batches| ==> (batches[k].isFinalBatch <==> !partialBatchDeploy && k == |batches| - 1))
  }

  /** Two ways of cutting the same pairing are the same. */
  lemma CutIsUnique(a: seq<Batch>, b: seq<Batch>, ids: seq<FacetKey>, versions: seq<int>, partialBatchDeploy: bool)
    requires |ids| == |versions| && CutsPairing(a, ids, versions, partialBatchDeploy)
        && CutsPairing(b, ids, versions, partialBatchDeploy)
    ensures a == b
  {
    SentOfFew(a);
    SentOfFew(b);
    var all := CreateFacetConfigurations(ids, versions);
    if |a| == 2 {
      assert a[0].configurations == all[..|a[0].configurations|] && a[1].configurations == all[|a[0].configurations|..];
      assert b[0].configurations == all[..|b[0].configurations|] && b[1].configurations == all[|b[0].configurations|..];
      assert |all| == |a[0].configurations| + |a[1].configurations| == |b[0].configurations| + |b[1].configurations|;
      assert a[0] == b[0] && a[1] == b[1];
    }
  }

  lemma SentOfFew(batches: seq<Batch>)
    requires |batches| <= 2
    ensures |batches| == 0 ==> Sent(batches) == []
    ensures |batches| == 1 ==> Sent(batches) == batches[0].configurations
    ensures |batches| == 2 ==> Sent(batches) == batches[0].configurations + batches[1].configurations
  {
    if |batches| >= 1 {
      assert batches[..1][..0] == [];
      assert Sent(batches[..1]) == [] + batches[0].configurations;
    }
  }

  /** The cut itself: halves, the first rounded up. */
  function Cut(ids: seq<FacetKey>, versions: seq<int>, partialBatchDeploy: bool): seq<Batch>
    requires |ids| == |versions|
  {
    var all, half := CreateFacetConfigurations(ids, versions), (|ids| + 1) / 2;
    if all == [] then []
    else if half == |ids| then [Batch(all, !partialBatchDeploy)]
    else [Batch(all[..half], false), Batch(all[half..], !partialBatchDeploy)]
  }

  lemma CutFits(ids: seq<FacetKey>, versions: seq<int>, partialBatchDeploy: bool)
    requires |ids| == |versions|
    ensures CutsPairing(Cut(ids, versions, partialBatchDeploy), ids, versions, partialBatchDeploy)
  {
    var all, half, cut := CreateFacetConfigurations(ids, versions), (|ids| + 1) / 2,
        Cut(ids, versions, partialBatchDeploy);
    SentOfFew(cut);
    assert |cut| == 2 ==> all == all[..half] + all[half..];
  }

  /** The batches are sent in order up to the first one that is not accepted, or all of them. */
  ghost predicate SentSoFar(cut: seq<Batch>, accepted: nat -> bool, sent: seq<Batch>, finished: bool) {
    && sent <= cut && (forall k :: 0 <= k < |sent| - 1 ==> accepted(k))
    && (if finished then sent == cut && (sent != [] ==> accepted(|sent| - 1)) else sent != [] && !accepted(|sent| - 1))
  }

  /** `accepted` says of each sending, in order, whether it goes through; the first that does not ends the loop. */
  method ProcessFacetLists(facetIdList: seq<FacetKey>, facetVersionList: seq<int>, partialBatchDeploy: bool,
                           accepted: nat -> bool)
    returns (sent: seq<Batch>, r: Result<(), BatchError>)
    ensures r == Failure(LengthMismatch) <==> |facetIdList| != |facetVersionList|
    ensures r == Failure(LengthMismatch) ==> sent == []
    ensures r != Failure(LengthMismatch) ==>
              SentSoFar(Cut(facetIdList, facetVersionList, partialBatchDeploy), accepted, sent, r.Success?)
  {
    sent := [];
    var n := |facetIdList|;
    if n != |facetVersionList| {
      return sent, Failure(LengthMismatch);
    }
    var batchSize := (n + 1) / 2;
    ghost var all := CreateFacetConfigurations(facetIdList, facetVersionList);
    ghost var cut := Cut(facetIdList, facetVersionList, partialBatchDeploy);
    var i := 0;
    while i < n
      invariant i == 0 || i == batchSize || (i == 2 * batchSize && n > batchSize)
      invariant |sent| == if i == 0 then 0 else if i == batchSize then 1 else 2
      invariant sent <= cut && forall k :: 0 <= k < |sent| ==> accepted(k)
      decreases n - i
    {
      var upTo := if i + batchSize < n then i + batchSize else n;
      var batchIds := facetIdList[i..upTo];
      var batchVersions := facetVersionList[i..upTo];
      var batch := CreateFacetConfigurations(batchIds, batchVersions);
      var isLastBatch := if partialBatchDeploy then false else i + batchSize >= n;
      assert |all| == n && batch == all[i..upTo];
      assert i > 0 ==> upTo == n && all[i..n] == all[i..];
      assert i == 0 ==> all[0..upTo] == all[..upTo] && (upTo == n ==> all[..upTo] == all);
      assert Batch(batch, isLastBatch) == cut[|sent|];
      sent := sent + [Batch(batch, isLastBatch)];
      if !accepted(|sent| - 1) {
        return sent, Failure(SendingFailed);
      }
      i := i + batchSize;
    }
    r := Success(());
  }

  // ---------- the memo ----------

  /** Lookups that share one memo. `resolve` is what the contract at an address answers. */
  class ResolverKeys {
    const resolve: Address -> FacetKey
    var keyMap: map<Address, FacetKey>

    ghost predicate Sound()
      reads this
    {
      forall a :: a in keyMap ==> keyMap[a] == resolve(a)
    }

    constructor (resolve: Address -> FacetKey)
      ensures Sound() && keyMap == map[] && this.resolve == resolve
    {
      this.resolve := resolve;
      keyMap := map[];
    }

    /** All lookups of a list at once: each checks the memo before any answer has come back, so one address
        may be asked for more than once; the answers then arrive in any order. */
    method FetchAll(addresses: seq<Address>) returns (ids: seq<FacetKey>)
      requires Sound()
      modifies this
      ensures Sound()
      ensures |ids| == |addresses| && forall i :: 0 <= i < |ids| ==> ids[i] == resolve(addresses[i])
      ensures keyMap.Keys == old(keyMap.Keys) + Elements(addresses)
    {
      var pending := set i | 0 <= i < |addresses| && addresses[i] !in keyMap;
      while pending != {}
        invariant Sound()
        invariant forall i :: i in pending ==> 0 <= i < |addresses|
        invariant forall i :: 0 <= i < |addresses| && i !in pending ==> addresses[i] in keyMap
        invariant old(keyMap.Keys) <= keyMap.Keys <= old(keyMap.Keys) + Elements(addresses)
        decreases pending
      {
        var i :| i in pending;
        keyMap := keyMap[addresses[i] := resolve(addresses[i])];
        pending := pending - {i};
      }
      assert forall i :: 0 <= i < |addresses| ==> addresses[i] in keyMap;
      ids := seq(|addresses|, i requires 0 <= i < |addresses| && addresses[i] in keyMap reads this =>
                   keyMap[addresses[i]]);
    }
  }

  /** The whole deployment of the three configurations: no list is ever refused for its length, every facet is
      sent under its own key with version 1, and only the factory's last batch ignores the partial-deployment
      flag. A sending that fails ends everything. */
  method CreateConfigurations(partialBatchDeploy: bool, resolve: Address -> FacetKey,
                              factoryList: seq<Address>, stableCoinList: seq<Address>, reserveList: seq<Address>,
                              factoryAccepts: nat -> bool, stableCoinAccepts: nat -> bool, reserveAccepts: nat -> bool)
    returns (factory: seq<Batch>, stableCoin: seq<Batch>, reserve: seq<Batch>, done: nat)
    ensures done <= 3
    ensures SentSoFar(Cut(Keys(resolve, factoryList), Ones(|factoryList|), false), factoryAccepts, factory, done > 0)
    ensures if done == 0 then stableCoin == []
            else SentSoFar(Cut(Keys(resolve, stableCoinList), Ones(|stableCoinList|), partialBatchDeploy),
                stableCoinAccepts, stableCoin, done > 1)
    ensures if done <= 1 then reserve == []
            else SentSoFar(Cut(Keys(resolve, reserveList), Ones(|reserveList|), partialBatchDeploy), reserveAccepts,
                reserve, done > 2)
  {
    stableCoin, reserve, done := [], [], 0;
    var memo := new ResolverKeys(resolve);
    var factoryIds := memo.FetchAll(factoryList);
    var stableCoinIds := memo.FetchAll(stableCoinList);
    var reserveIds := memo.FetchAll(reserveList);
    assert factoryIds == Keys(resolve, factoryList);
    assert stableCoinIds == Keys(resolve, stableCoinList);
    assert reserveIds == Keys(resolve, reserveList);
    var r;
    factory, r := ProcessFacetLists(factoryIds, Ones(|factoryIds|), false, factoryAccepts);
    if r.Failure? {
      return;
    }
    done := 1;
    stableCoin, r := ProcessFacetLists(stableCoinIds, Ones(|stableCoinIds|), partialBatchDeploy, stableCoinAccepts);
    if r.Failure? {
      return;
    }
    done := 2;
    reserve, r := ProcessFacetLists(reserveIds, Ones(|reserveIds|), partialBatchDeploy, reserveAccepts);
    if r.Success? {
      done := 3;
    }
  }

  function Keys(resolve: Address -> FacetKey, addresses: seq<Address>): seq<FacetKey> {
    seq(|addresses|, i requires 0 <= i < |addresses| => resolve(addresses[i]))
  }

  function Ones(n: nat): seq<int> {
    seq(n, i => 1)
  }

  /** What is sent, facet by facet: each under its own key and with its own version. */
  lemma SentFacetByFacet(ids: seq<FacetKey>, versions: seq<int>, partialBatchDeploy: bool, i: nat)
    requires i < |ids| == |versions|
    ensures var sent := Sent(Cut(ids, versions, partialBatchDeploy));
            |sent| == |ids| && sent[i].id == ids[i] && sent[i].version == versions[i]
  {
    CutFits(ids, versions, partialBatchDeploy);
  }

  /** In the whole deployment: the facet at each address is sent under the key that address answers, with version 1. */
  lemma DeployedFacetByFacet(resolve: Address -> FacetKey, addresses: seq<Address>, partialBatchDeploy: bool, i: nat)
    requires i < |addresses|
    ensures var sent := Sent(Cut(Keys(resolve, addresses), Ones(|addresses|), partialBatchDeploy));
            |sent| == |addresses| && sent[i].id == resolve(addresses[i]) && sent[i].version == 1
  {
    SentFacetByFacet(Keys(resolve, addresses), Ones(|addresses|), partialBatchDeploy, i);
  }
}
