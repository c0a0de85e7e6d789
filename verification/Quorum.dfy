/** Vote counting.  Storage counts votes document by document, the staker counts them key by key
    over its signature map, and the consensus core gets them as a folded weight map. */
module Quorum {
  import opened Ledger

  const U64 := 0x1_0000_0000_0000_0000
  const U128 := U64 * U64

  predicate Eligible(d: StakeDoc, epoch: nat)
  {
    d.eStart <= epoch < d.ePostEnd
  }

  function Stake(d: StakeDoc, epoch: nat): nat
  {
    if Eligible(d, epoch) then d.symsStaked else 0
  }

  function Total(docs: seq<StakeDoc>, epoch: nat): nat
  {
    if docs == [] then 0 else Total(docs[..|docs| - 1], epoch) + Stake(docs[|docs| - 1], epoch)
  }

  /** The stake that really signed. */
  function Signed(docs: seq<StakeDoc>, epoch: nat, keys: set<PubKey>): nat
  {
    if docs == [] then 0 else
    var d := docs[|docs| - 1];
    Signed(docs[..|docs| - 1], epoch, keys) + if d.pubkey in keys then Stake(d, epoch) else 0
  }

  /** The amount the storage loop accumulates: for each signed document, the running total. */
  function RunningTotals(docs: seq<StakeDoc>, epoch: nat, keys: set<PubKey>): nat
  {
    if docs == [] then 0 else
    var d := docs[|docs| - 1];
    RunningTotals(docs[..|docs| - 1], epoch, keys)
    + if Eligible(d, epoch) && d.pubkey in keys then Total(docs, epoch) else 0
  }

  function Threshold(total: nat): nat
  {
    2 * total / 3
  }

  /** How a block's votes are counted: as the storage loop is written, or by signed stake. */
  datatype Tally = Written | Intended

  function Present(tally: Tally, docs: seq<StakeDoc>, epoch: nat, keys: set<PubKey>): nat
  {
    match tally
    case Written => RunningTotals(docs, epoch, keys)
    case Intended => Signed(docs, epoch, keys)
  }

  predicate Passes(tally: Tally, docs: seq<StakeDoc>, epoch: nat, keys: set<PubKey>)
  {
    Present(tally, docs, epoch, keys) > Threshold(Total(docs, epoch))
  }

  /** Amounts are unsigned 128-bit numbers and arithmetic overflow aborts the process. */
  datatype Verdict = Accept | Reject | Overflow

  function Judge(total: nat, present: nat): Verdict
  {
    if present >= U128 || 2 * total >= U128 then Overflow
    else if present > Threshold(total) then Accept
    else Reject
  }

  function VoteVerdict(tally: Tally, docs: seq<StakeDoc>, epoch: nat, keys: set<PubKey>): Verdict
  {
    Judge(Total(docs, epoch), Present(tally, docs, epoch, keys))
  }

  /** What the verdicts mean in the amounts counted, in 128 bits: strictly more than two thirds is
      accepted, anything up to two thirds is rejected. */
  lemma VerdictExact(tally: Tally, docs: seq<StakeDoc>, epoch: nat, keys: set<PubKey>)
    ensures var total, present := Total(docs, epoch), Present(tally, docs, epoch, keys);
      var fits := present < 0x1_0000_0000_0000_0000_0000_0000_0000_0000
                  && 2 * total < 0x1_0000_0000_0000_0000_0000_0000_0000_0000;
      && (VoteVerdict(tally, docs, epoch, keys) == Accept <==> fits && 3 * present > 2 * total)
      && (VoteVerdict(tally, docs, epoch, keys) == Reject <==> fits && 3 * present <= 2 * total)
      && (VoteVerdict(tally, docs, epoch, keys) == Overflow <==> !fits)
  {
    hide Total, Present;
    AboveTwoThirds(Total(docs, epoch), Present(tally, docs, epoch, keys));
  }

  lemma AboveTwoThirds(total: nat, amount: nat)
    ensures amount > Threshold(total) <==> 3 * amount > 2 * total
  {}

  // ---- Counting short lists ----

  lemma OneMoreDoc(docs: seq<StakeDoc>, d: StakeDoc, epoch: nat, keys: set<PubKey>)
    ensures Total(docs + [d], epoch) == Total(docs, epoch) + Stake(d, epoch)
    ensures Signed(docs + [d], epoch, keys)
         == Signed(docs, epoch, keys) + if d.pubkey in keys then Stake(d, epoch) else 0
    ensures RunningTotals(docs + [d], epoch, keys)
         == RunningTotals(docs, epoch, keys)
            + if Eligible(d, epoch) && d.pubkey in keys then Total(docs, epoch) + Stake(d, epoch) else 0
  {
    assert (docs + [d])[..|docs|] == docs;
  }

  lemma CountOne(d: StakeDoc, epoch: nat, keys: set<PubKey>)
    ensures Total([d], epoch) == Stake(d, epoch)
    ensures Signed([d], epoch, keys) == if d.pubkey in keys then Stake(d, epoch) else 0
    ensures RunningTotals([d], epoch, keys) == Signed([d], epoch, keys)
  {
    assert [] + [d] == [d];
    OneMoreDoc([], d, epoch, keys);
  }

  lemma CountTwo(c: StakeDoc, d: StakeDoc, epoch: nat, keys: set<PubKey>)
    ensures Total([c, d], epoch) == Stake(c, epoch) + Stake(d, epoch)
    ensures Signed([c, d], epoch, keys)
         == (if c.pubkey in keys then Stake(c, epoch) else 0) + (if d.pubkey in keys then Stake(d, epoch) else 0)
    ensures RunningTotals([c, d], epoch, keys)
         == (if c.pubkey in keys then Stake(c, epoch) else 0)
            + (if Eligible(d, epoch) && d.pubkey in keys then Stake(c, epoch) + Stake(d, epoch) else 0)
  {
    hide Total, Signed, RunningTotals;
    assert [c] + [d] == [c, d];
    CountOne(c, epoch, keys);
    OneMoreDoc([c], d, epoch, keys);
  }

  // ---- Signed stake as a measure on sets of keys ----

  lemma {:induction false} InclusionExclusion(docs: seq<StakeDoc>, epoch: nat, a: set<PubKey>, b: set<PubKey>)
    ensures Signed(docs, epoch, a) + Signed(docs, epoch, b)
         == Signed(docs, epoch, a + b) + Signed(docs, epoch, a * b)
  {
    if docs != [] {
      InclusionExclusion(docs[..|docs| - 1], epoch, a, b);
    }
  }

  lemma {:induction false} SignedMonotone(docs: seq<StakeDoc>, epoch: nat, a: set<PubKey>, b: set<PubKey>)
    requires forall d | d in docs && d.pubkey in a :: d.pubkey in b
    ensures Signed(docs, epoch, a) <= Signed(docs, epoch, b) <= Total(docs, epoch)
    ensures RunningTotals(docs, epoch, a) <= RunningTotals(docs, epoch, b)
  {
    if docs != [] {
      SignedMonotone(docs[..|docs| - 1], epoch, a, b);
      assert docs[|docs| - 1] in docs;
    }
  }

  lemma SignedEmpty(docs: seq<StakeDoc>, epoch: nat)
    ensures Signed(docs, epoch, {}) == 0
  {}

  /** Two quorums overlap in more than a third of the stake. */
  lemma QuorumIntersection(docs: seq<StakeDoc>, epoch: nat, a: set<PubKey>, b: set<PubKey>)
    requires Passes(Intended, docs, epoch, a) && Passes(Intended, docs, epoch, b)
    ensures 3 * Signed(docs, epoch, a) >= 2 * Total(docs, epoch) + 1
    ensures 3 * Signed(docs, epoch, a * b) >= Total(docs, epoch) + 2
  {
    InclusionExclusion(docs, epoch, a, b);
    SignedMonotone(docs, epoch, a + b, a + b);
  }

  /** If bad keys hold at most a third of the stake, two quorums share a good key that holds stake. */
  lemma HonestOverlap(docs: seq<StakeDoc>, epoch: nat, a: set<PubKey>, b: set<PubKey>, bad: set<PubKey>)
    returns (k: PubKey)
    requires Passes(Intended, docs, epoch, a) && Passes(Intended, docs, epoch, b)
    requires 3 * Signed(docs, epoch, bad) <= Total(docs, epoch)
    ensures k in a && k in b && k !in bad
    ensures Signed(docs, epoch, {k}) > 0
  {
    QuorumIntersection(docs, epoch, a, b);
    var good := a * b - bad;
    InclusionExclusion(docs, epoch, good, bad);
    SignedMonotone(docs, epoch, a * b, good + bad);
    assert good * bad == {};
    SignedEmpty(docs, epoch);
    assert Signed(docs, epoch, good) > 0;
    k := PositiveKey(docs, epoch, good);
  }

  lemma {:induction false} PositiveKey(docs: seq<StakeDoc>, epoch: nat, keys: set<PubKey>) returns (k: PubKey)
    requires Signed(docs, epoch, keys) > 0
    ensures k in keys && Signed(docs, epoch, {k}) > 0
  {
    var d := docs[|docs| - 1];
    if d.pubkey in keys && Stake(d, epoch) > 0 {
      k := d.pubkey;
    } else {
      k := PositiveKey(docs[..|docs| - 1], epoch, keys);
    }
  }

  // ---- Three ways of counting ----

  /** StakeSet::votes: the stake of one key. */
  function Votes(docs: seq<StakeDoc>, epoch: nat, key: PubKey): nat
  {
    if docs == [] then 0 else
    var d := docs[|docs| - 1];
    Votes(docs[..|docs| - 1], epoch, key) + if d.pubkey == key then Stake(d, epoch) else 0
  }

  /** The staker's sum over the keys of its signature map. */
  function KeySum(docs: seq<StakeDoc>, epoch: nat, keys: set<PubKey>): nat
  {
    if keys == {} then 0 else
    var k := MaxOf(keys);
    KeySum(docs, epoch, keys - {k}) + Votes(docs, epoch, k)
  }

  /** The folded weight map, in exact arithmetic. */
  function Weights(docs: seq<StakeDoc>, epoch: nat): map<PubKey, nat>
  {
    if docs == [] then map[] else
    var d := docs[|docs| - 1];
    var w := Weights(docs[..|docs| - 1], epoch);
    if Eligible(d, epoch) then w[d.pubkey := WeightOf(w, d.pubkey) + d.symsStaked] else w
  }

  function WeightOf(w: map<PubKey, nat>, key: PubKey): nat
  {
    if key in w then w[key] else 0
  }

  function WeightSum(w: map<PubKey, nat>, keys: set<PubKey>): nat
  {
    if keys == {} then 0 else
    var k := MaxOf(keys);
    WeightSum(w, keys - {k}) + WeightOf(w, k)
  }

  lemma {:induction false} VotesAreSigned(docs: seq<StakeDoc>, epoch: nat, key: PubKey)
    ensures Votes(docs, epoch, key) == Signed(docs, epoch, {key})
    ensures WeightOf(Weights(docs, epoch), key) == Votes(docs, epoch, key)
  {
    if docs != [] {
      VotesAreSigned(docs[..|docs| - 1], epoch, key);
    }
  }

  /** Counting by document, by key and by folded weight gives the same amount, for every list of
      documents and every set of keys. */
  lemma {:induction false} CountsAgree(docs: seq<StakeDoc>, epoch: nat, keys: set<PubKey>)
    ensures Signed(docs, epoch, keys) == KeySum(docs, epoch, keys)
    ensures Signed(docs, epoch, keys) == WeightSum(Weights(docs, epoch), keys)
    decreases keys
  {
    if keys == {} {
      SignedEmpty(docs, epoch);
    } else {
      var k := MaxOf(keys);
      CountsAgree(docs, epoch, keys - {k});
      VotesAreSigned(docs, epoch, k);
      InclusionExclusion(docs, epoch, keys - {k}, {k});
      assert (keys - {k}) + {k} == keys && (keys - {k}) * {k} == {};
      SignedEmpty(docs, epoch);
    }
  }

  /** The weight map the consensus core is handed: each document is truncated to 64 bits, and an
      overflowing addition aborts (None). */
  function Weights64(docs: seq<StakeDoc>, epoch: nat): Option<map<PubKey, nat>>
  {
    if docs == [] then Some(map[]) else
    var d := docs[|docs| - 1];
    match Weights64(docs[..|docs| - 1], epoch)
    case None => None
    case Some(w) =>
      if !Eligible(d, epoch) then Some(w) else
      var sum := WeightOf(w, d.pubkey) + d.symsStaked % U64;
      if sum >= U64 then None else Some(w[d.pubkey := sum])
  }

  /** The 64-bit weight map is the exact one if and only if every key's stake fits in 64 bits. */
  lemma {:induction false} Weights64ExactIff(docs: seq<StakeDoc>, epoch: nat)
    ensures Weights64(docs, epoch) == Some(Weights(docs, epoch))
       <==> forall k :: Votes(docs, epoch, k) < U64
  {
    if forall k :: Votes(docs, epoch, k) < U64 {
      Weights64Exact(docs, epoch);
    } else {
      var k :| Votes(docs, epoch, k) >= U64;
      VotesAreSigned(docs, epoch, k);
      Weights64Bounded(docs, epoch, k);
    }
  }

  lemma {:induction false} Weights64Exact(docs: seq<StakeDoc>, epoch: nat)
    requires forall k :: Votes(docs, epoch, k) < U64
    ensures Weights64(docs, epoch) == Some(Weights(docs, epoch))
  {
    if docs != [] {
      var before, d := docs[..|docs| - 1], docs[|docs| - 1];
      forall k ensures Votes(before, epoch, k) < U64 {
        assert Votes(docs, epoch, k) < U64;
      }
      Weights64Exact(before, epoch);
      VotesAreSigned(before, epoch, d.pubkey);
      assert Votes(docs, epoch, d.pubkey) < U64;
    }
  }

  lemma {:induction false} Weights64Bounded(docs: seq<StakeDoc>, epoch: nat, k: PubKey)
    ensures var w := Weights64(docs, epoch); w.Some? ==> WeightOf(w.value, k) < U64
  {
    if docs != [] {
      Weights64Bounded(docs[..|docs| - 1], epoch, k);
    }
  }

  /** The staker's test on its signature map, at the epoch of the base state. */
  predicate StakerPasses(docs: seq<StakeDoc>, baseEpoch: nat, keys: set<PubKey>)
  {
    KeySum(docs, baseEpoch, keys) > Threshold(Total(docs, baseEpoch))
  }

  /** Every key has the same stake in both epochs, whatever documents it comes from. */
  ghost predicate SameVotes(docs: seq<StakeDoc>, e: nat, f: nat)
  {
    forall k :: Votes(docs, e, k) == Votes(docs, f, k)
  }

  /** What the staker counts in one epoch is what really signed in another, for every set of keys,
      if and only if no key's stake differs between the two. */
  lemma SameAmountsIff(docs: seq<StakeDoc>, e: nat, f: nat)
    ensures SameVotes(docs, e, f) <==> forall keys :: KeySum(docs, e, keys) == Signed(docs, f, keys)
  {
    if SameVotes(docs, e, f) {
      forall keys ensures KeySum(docs, e, keys) == Signed(docs, f, keys) {
        SameKeySum(docs, e, f, keys);
        CountsAgree(docs, f, keys);
      }
    } else {
      var k :| Votes(docs, e, k) != Votes(docs, f, k);
      CountsAgree(docs, e, {k});
      VotesAreSigned(docs, e, k);
      VotesAreSigned(docs, f, k);
      assert KeySum(docs, e, {k}) != Signed(docs, f, {k});
    }
  }

  lemma {:induction false} SameKeySum(docs: seq<StakeDoc>, e: nat, f: nat, keys: set<PubKey>)
    requires SameVotes(docs, e, f)
    ensures KeySum(docs, e, keys) == KeySum(docs, f, keys)
    decreases keys
  {
    if keys != {} {
      SameKeySum(docs, e, f, keys - {MaxOf(keys)});
    }
  }

  /** Everybody together holds the whole stake. */
  lemma {:induction false} AllKeysHoldTotal(docs: seq<StakeDoc>, epoch: nat, keys: set<PubKey>)
    requires forall d | d in docs :: d.pubkey in keys
    ensures Signed(docs, epoch, keys) == Total(docs, epoch)
  {
    if docs != [] {
      assert docs[|docs| - 1] in docs;
      AllKeysHoldTotal(docs[..|docs| - 1], epoch, keys);
    }
  }

  /** Stakes that do not fit: one document of 2^64 counts as nothing, and two smaller ones of the
      same key stop the process. */
  lemma LargeStakesMiscount()
    ensures Weights64([StakeDoc(1, 0, 1, 0x1_0000_0000_0000_0000)], 0) == Some(map[1 := 0])
    ensures Weights([StakeDoc(1, 0, 1, 0x1_0000_0000_0000_0000)], 0) == map[1 := 0x1_0000_0000_0000_0000]
    ensures Weights64([StakeDoc(1, 0, 1, 0xFFFF_FFFF_FFFF_FFFF), StakeDoc(1, 0, 1, 1)], 0) == None
  {
    var c, d := StakeDoc(1, 0, 1, 0xFFFF_FFFF_FFFF_FFFF), StakeDoc(1, 0, 1, 1);
    var large := StakeDoc(1, 0, 1, 0x1_0000_0000_0000_0000);
    assert [large][..0] == [] && [c, d][..1] == [c] && [c][..0] == [];
    assert Weights64([], 0) == Some(map[]) && Weights([], 0) == map[];
    assert Weights64([c], 0) == Some(map[1 := 0xFFFF_FFFF_FFFF_FFFF]);
  }

  /** With every gathered signature valid, and each key's stake the same in the base state's epoch
      and in the block's, the staker submits exactly the proofs a storage counting signed stake
      would pass. */
  lemma StakerAgreesWithStorage(docs: seq<StakeDoc>, base: nat, keys: set<PubKey>)
    requires SameVotes(docs, Epoch(base), Epoch(base + 1))
    ensures StakerPasses(docs, Epoch(base), keys) <==> Passes(Intended, docs, Epoch(base + 1), keys)
  {
    var e, f := Epoch(base), Epoch(base + 1);
    SameAmountsIff(docs, e, f);
    CountsAgree(docs, e, Keys(docs));
    AllKeysHoldTotal(docs, e, Keys(docs));
    AllKeysHoldTotal(docs, f, Keys(docs));
    assert KeySum(docs, e, Keys(docs)) == Signed(docs, f, Keys(docs)) && KeySum(docs, e, keys) == Signed(docs, f, keys);
  }

  /** Where a key's stake does change at the boundary, the staker's test and the storage's, as
      written and as intended, can disagree both ways: here the only staker of the old epoch
      satisfies just the staker's test and the only staker of the new one just the storage's. */
  lemma EpochBoundaryDisagreement()
    ensures var base := EPOCH_LENGTH - 1;
            var docs := [StakeDoc(1, 0, 1, 10), StakeDoc(2, 1, 2, 10)];
            && !SameVotes(docs, Epoch(base), Epoch(base + 1))
            && StakerPasses(docs, Epoch(base), {1}) && !StakerPasses(docs, Epoch(base), {2})
            && !Passes(Intended, docs, Epoch(base + 1), {1}) && Passes(Intended, docs, Epoch(base + 1), {2})
            && !Passes(Written, docs, Epoch(base + 1), {1}) && Passes(Written, docs, Epoch(base + 1), {2})
  {
    hide Total, Signed, RunningTotals, KeySum, Votes;
    var base := EPOCH_LENGTH - 1;
    var c, d := StakeDoc(1, 0, 1, 10), StakeDoc(2, 1, 2, 10);
    assert Epoch(base) == 0 && Epoch(base + 1) == 1;
    forall key | key in {1, 2}
      ensures KeySum([c, d], 0, {key}) == Signed([c, d], 0, {key}) == if key == 1 then 10 else 0
      ensures Signed([c, d], 1, {key}) == RunningTotals([c, d], 1, {key}) == if key == 2 then 10 else 0
    {
      CountsAgree([c, d], 0, {key});
      CountTwo(c, d, 0, {key});
      CountTwo(c, d, 1, {key});
    }
    CountTwo(c, d, 0, {});
    CountTwo(c, d, 1, {});
    VotesAreSigned([c, d], 0, 1);
    VotesAreSigned([c, d], 1, 1);
    assert 1 in {1, 2} && 2 in {1, 2};
    assert Votes([c, d], 0, 1) != Votes([c, d], 1, 1);
  }

  /** Where no key's stake changes at the boundary, a staker never waits for more signatures than
      needed: whatever subset of the gathered signatures verifies, its stake in the block's epoch is
      at most what the staker counted in the base state's. */
  lemma StakerNeverUndercounts(docs: seq<StakeDoc>, base: nat, gathered: set<PubKey>, valid: set<PubKey>)
    requires valid <= gathered && SameVotes(docs, Epoch(base), Epoch(base + 1))
    ensures Signed(docs, Epoch(base + 1), valid) <= KeySum(docs, Epoch(base), gathered)
    ensures Passes(Intended, docs, Epoch(base + 1), valid) ==> StakerPasses(docs, Epoch(base), gathered)
  {
    SameAmountsIff(docs, Epoch(base), Epoch(base + 1));
    SignedMonotone(docs, Epoch(base + 1), valid, gathered);
    StakerAgreesWithStorage(docs, base, gathered);
    assert KeySum(docs, Epoch(base), gathered) == Signed(docs, Epoch(base + 1), gathered);
  }

  // ---- The tally as the storage loop is written ----

  lemma {:induction false} TotalOfPrefix(docs: seq<StakeDoc>, epoch: nat, i: nat)
    requires i <= |docs|
    ensures Total(docs[..i], epoch) <= Total(docs, epoch)
  {
    if i == |docs| {
      assert docs[..i] == docs;
    } else {
      TotalOfPrefix(docs[..|docs| - 1], epoch, i);
      assert docs[..|docs| - 1][..i] == docs[..i];
    }
  }

  /** The written tally is never below the signed stake, and at most once the total per document. */
  lemma {:induction false} WrittenDominates(docs: seq<StakeDoc>, epoch: nat, keys: set<PubKey>)
    ensures Signed(docs, epoch, keys) <= RunningTotals(docs, epoch, keys) <= |docs| * Total(docs, epoch)
  {
    if docs != [] {
      var before := docs[..|docs| - 1];
      WrittenDominates(before, epoch, keys);
      OneMoreTotal(|before|, Total(before, epoch), Total(docs, epoch));
      assert Total(docs, epoch) >= Stake(docs[|docs| - 1], epoch);
    }
  }

  lemma OneMoreTotal(n: nat, t: nat, u: nat)
    requires t <= u
    ensures n * t + u <= (n + 1) * u
  {
    assert n * t <= n * u;
  }

  /** A true supermajority is never turned away for lack of votes. */
  lemma SupermajorityNeverRejected(docs: seq<StakeDoc>, epoch: nat, keys: set<PubKey>)
    requires Passes(Intended, docs, epoch, keys)
    ensures Passes(Written, docs, epoch, keys)
    ensures VoteVerdict(Written, docs, epoch, keys) != Reject
  {
    WrittenDominates(docs, epoch, keys);
  }

  /** Passing the written test takes at least one valid signature of an eligible document. */
  lemma WrittenNeedsASignature(docs: seq<StakeDoc>, epoch: nat, keys: set<PubKey>) returns (d: StakeDoc)
    requires Passes(Written, docs, epoch, keys)
    ensures d in docs && Eligible(d, epoch) && d.pubkey in keys
  {
    d := FirstCounted(docs, epoch, keys);
  }

  lemma {:induction false} FirstCounted(docs: seq<StakeDoc>, epoch: nat, keys: set<PubKey>) returns (d: StakeDoc)
    requires RunningTotals(docs, epoch, keys) > 0
    ensures d in docs && Eligible(d, epoch) && d.pubkey in keys
  {
    d := docs[|docs| - 1];
    if !(Eligible(d, epoch) && d.pubkey in keys) {
      d := FirstCounted(docs[..|docs| - 1], epoch, keys);
    }
  }

  /** The signer of the last eligible document, whose running total is the whole stake. */
  function LastSigner(docs: seq<StakeDoc>, epoch: nat): Option<PubKey>
  {
    if docs == [] then None else
    var d := docs[|docs| - 1];
    if Eligible(d, epoch) then Some(d.pubkey) else LastSigner(docs[..|docs| - 1], epoch)
  }

  function Keys(docs: seq<StakeDoc>): set<PubKey>
  {
    set d | d in docs :: d.pubkey
  }

  /** Whether the written tally decides like the signed stake on this electorate: there is nothing
      to count, or the last signer is a supermajority alone and nobody is one without it. */
  predicate TallyExact(docs: seq<StakeDoc>, epoch: nat)
  {
    var last := LastSigner(docs, epoch);
    || Total(docs, epoch) == 0
    || (&& last.Some?
        && Passes(Intended, docs, epoch, {last.value})
        && !Passes(Written, docs, epoch, Keys(docs) - {last.value}))
  }

  lemma {:induction false} LastSignerCountsAll(docs: seq<StakeDoc>, epoch: nat, keys: set<PubKey>)
    ensures Total(docs, epoch) > 0 ==> LastSigner(docs, epoch).Some?
    ensures LastSigner(docs, epoch).Some? && LastSigner(docs, epoch).value in keys
        ==> RunningTotals(docs, epoch, keys) >= Total(docs, epoch)
  {
    if docs != [] {
      LastSignerCountsAll(docs[..|docs| - 1], epoch, keys);
    }
  }

  /** The written tally accepts with less than a supermajority: a stake of 1 listed after a stake
      of 100 passes alone. */
  lemma WrittenIsNotSound()
    ensures var docs := [StakeDoc(1, 0, 1, 100), StakeDoc(2, 0, 1, 1)];
            Passes(Written, docs, 0, {2}) && !Passes(Intended, docs, 0, {2})
  {
    hide Total, Signed, RunningTotals;
    CountTwo(StakeDoc(1, 0, 1, 100), StakeDoc(2, 0, 1, 1), 0, {2});
  }

  /** Exactly when the written tally and the signed stake decide alike for every set of signers. */
  lemma WrittenSoundIff(docs: seq<StakeDoc>, epoch: nat)
    ensures TallyExact(docs, epoch)
       <==> forall keys :: Passes(Written, docs, epoch, keys) <==> Passes(Intended, docs, epoch, keys)
  {
    if TallyExact(docs, epoch) {
      forall keys ensures Passes(Written, docs, epoch, keys) <==> Passes(Intended, docs, epoch, keys) {
        ExactTallyDecides(docs, epoch, keys);
      }
    } else {
      var last := LastSigner(docs, epoch);
      LastSignerCountsAll(docs, epoch, if last.Some? then {last.value} else {});
      assert Passes(Written, docs, epoch, {last.value});
      if Passes(Intended, docs, epoch, {last.value}) {
        var others := Keys(docs) - {last.value};
        TwoQuorumsMeet(docs, epoch, {last.value}, others);
        assert Passes(Written, docs, epoch, others) && !Passes(Intended, docs, epoch, others);
      }
    }
  }

  lemma TwoQuorumsMeet(docs: seq<StakeDoc>, epoch: nat, a: set<PubKey>, b: set<PubKey>)
    requires Passes(Intended, docs, epoch, a) && a * b == {}
    ensures !Passes(Intended, docs, epoch, b)
  {
    if Passes(Intended, docs, epoch, b) {
      QuorumIntersection(docs, epoch, a, b);
      SignedEmpty(docs, epoch);
    }
  }

  lemma ExactTallyDecides(docs: seq<StakeDoc>, epoch: nat, keys: set<PubKey>)
    requires TallyExact(docs, epoch)
    ensures Passes(Written, docs, epoch, keys) <==> Passes(Intended, docs, epoch, keys)
  {
    WrittenDominates(docs, epoch, keys);
    if Total(docs, epoch) > 0 {
      var last := LastSigner(docs, epoch).value;
      if last in keys {
        SignedMonotone(docs, epoch, {last}, keys);
      } else {
        SignedMonotone(docs, epoch, keys, Keys(docs) - {last});
      }
    } else {
      assert |docs| * Total(docs, epoch) == 0;
    }
  }

  // ---- Which electorates are safe ----

  /** Any two quorums share a key outside every set that holds at most a third of the stake. */
  ghost predicate QuorumsShareGoodKey(tally: Tally, docs: seq<StakeDoc>, epoch: nat)
  {
    forall a, b, bad | Passes(tally, docs, epoch, a) && Passes(tally, docs, epoch, b)
                       && 3 * Signed(docs, epoch, bad) <= Total(docs, epoch) ::
      exists k :: k in a && k in b && k !in bad
  }

  /** There is nothing to count, or the last signer holds more than a third and no quorum can do
      without it. */
  predicate WrittenSafe(docs: seq<StakeDoc>, epoch: nat)
  {
    var last := LastSigner(docs, epoch);
    || Total(docs, epoch) == 0
    || (&& last.Some?
        && 3 * Signed(docs, epoch, {last.value}) > Total(docs, epoch)
        && !Passes(Written, docs, epoch, Keys(docs) - {last.value}))
  }

  /** On an unsafe electorate some two quorums have only bad keys in common. */
  lemma UnsafeQuorums(docs: seq<StakeDoc>, epoch: nat) returns (a: set<PubKey>, b: set<PubKey>, bad: set<PubKey>)
    requires !WrittenSafe(docs, epoch)
    ensures Passes(Written, docs, epoch, a) && Passes(Written, docs, epoch, b)
    ensures 3 * Signed(docs, epoch, bad) <= Total(docs, epoch)
    ensures a * b <= bad
  {
    var last := LastSigner(docs, epoch);
    LastSignerCountsAll(docs, epoch, if last.Some? then {last.value} else {});
    a := {last.value};
    if 3 * Signed(docs, epoch, a) <= Total(docs, epoch) {
      b, bad := a, a;
    } else {
      SignedEmpty(docs, epoch);
      b, bad := Keys(docs) - a, {};
    }
  }

  lemma SafeQuorumsMeet(docs: seq<StakeDoc>, epoch: nat, a: set<PubKey>, b: set<PubKey>, bad: set<PubKey>)
    returns (k: PubKey)
    requires WrittenSafe(docs, epoch)
    requires Passes(Written, docs, epoch, a) && Passes(Written, docs, epoch, b)
    requires 3 * Signed(docs, epoch, bad) <= Total(docs, epoch)
    ensures k in a && k in b && k !in bad
  {
    WrittenDominates(docs, epoch, a);
    assert Total(docs, epoch) == 0 ==> |docs| * Total(docs, epoch) == 0;
    k := LastSigner(docs, epoch).value;
    var others := Keys(docs) - {k};
    if k !in a {
      SignedMonotone(docs, epoch, a, others);
    }
    if k !in b {
      SignedMonotone(docs, epoch, b, others);
    }
    if k in bad {
      SignedMonotone(docs, epoch, {k}, bad);
    }
  }

  /** Exactly on which electorates the loop as written gives quorums that overlap in a good key,
      which is what agreement rests on. */
  lemma WrittenSafeIff(docs: seq<StakeDoc>, epoch: nat)
    ensures WrittenSafe(docs, epoch) <==> QuorumsShareGoodKey(Written, docs, epoch)
  {
    if WrittenSafe(docs, epoch) {
      forall a, b, bad | Passes(Written, docs, epoch, a) && Passes(Written, docs, epoch, b)
                         && 3 * Signed(docs, epoch, bad) <= Total(docs, epoch)
        ensures exists k :: k in a && k in b && k !in bad
      {
        var k := SafeQuorumsMeet(docs, epoch, a, b, bad);
      }
    } else {
      var a, b, bad := UnsafeQuorums(docs, epoch);
      assert forall k :: k in a && k in b ==> k in a * b;
    }
  }

  /** Counting signed stake, every electorate is safe. */
  predicate Safe(tally: Tally, docs: seq<StakeDoc>, epoch: nat)
  {
    tally == Intended || WrittenSafe(docs, epoch)
  }

  lemma GoodKeyOfQuorums(tally: Tally, docs: seq<StakeDoc>, epoch: nat, a: set<PubKey>, b: set<PubKey>,
                         bad: set<PubKey>)
    returns (k: PubKey)
    requires Safe(tally, docs, epoch)
    requires Passes(tally, docs, epoch, a) && Passes(tally, docs, epoch, b)
    requires 3 * Signed(docs, epoch, bad) <= Total(docs, epoch)
    ensures k in a && k in b && k !in bad
  {
    match tally
    case Written => k := SafeQuorumsMeet(docs, epoch, a, b, bad);
    case Intended => k := HonestOverlap(docs, epoch, a, b, bad);
  }

  /** The written tally may be safe although it does not decide like the signed stake: two equal
      stakers are one such electorate. */
  lemma ExactTallyIsSafe(docs: seq<StakeDoc>, epoch: nat)
    ensures TallyExact(docs, epoch) ==> WrittenSafe(docs, epoch)
    ensures var two := [StakeDoc(1, 0, 1, 1), StakeDoc(2, 0, 1, 1)]; WrittenSafe(two, 0) && !TallyExact(two, 0)
  {
    hide Total, Signed, RunningTotals;
    var c, d := StakeDoc(1, 0, 1, 1), StakeDoc(2, 0, 1, 1);
    CountTwo(c, d, 0, {2});
    CountTwo(c, d, 0, Keys([c, d]) - {2});
    assert LastSigner([c, d], 0) == Some(2);
  }

  /** What the staker's test means: strictly more than two thirds. */
  lemma StakerPassesExact(docs: seq<StakeDoc>, epoch: nat, keys: set<PubKey>)
    ensures StakerPasses(docs, epoch, keys) <==> 3 * KeySum(docs, epoch, keys) > 2 * Total(docs, epoch)
  {
    AboveTwoThirds(Total(docs, epoch), KeySum(docs, epoch, keys));
  }
}
