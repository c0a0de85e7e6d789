/** A staker collecting the signatures for a decided block. */
module Staker {
  import opened Ledger
  import opened Quorum
  import opened Tables
  import opened Chain
  import opened Growth

  /** The signature map after `n` attempts to hear from a peer; later signatures replace earlier ones. */
  function Gathered(own: Proof, reply: nat -> Option<Proof>, n: nat): Proof
  {
    if n == 0 then own else
    var before := Gathered(own, reply, n - 1);
    match reply(n - 1)
    case None => before
    case Some(more) => before + more
  }

  predicate Enough(base: State, proof: Proof)
  {
    StakerPasses(Docs(base.stakes), Epoch(base.header.height), proof.Keys)
  }

  /** More than two thirds of the stake, at the epoch of the base height. */
  lemma EnoughExact(base: State, proof: Proof)
    ensures var docs, epoch := Docs(base.stakes), base.header.height / 200000;
      Enough(base, proof) <==> 3 * KeySum(docs, epoch, proof.Keys) > 2 * Total(docs, epoch)
  {
    assert Epoch(base.header.height) == base.header.height / 200000;
    hide KeySum, Total, Docs, Epoch;
    StakerPassesExact(Docs(base.stakes), Epoch(base.header.height), proof.Keys);
  }

  /** The staker's test on the signatures gathered so far. */
  method GetProof(base: State, gathered: Proof) returns (enough: bool)
    ensures enough == Enough(base, gathered)
  {
    hide KeySum, Total, Docs, Epoch;
    var docs, epoch := Docs(base.stakes), Epoch(base.header.height);
    var voteThreshold := Total(docs, epoch) * 2 / 3;
    enough := KeySum(docs, epoch, gathered.Keys) > voteThreshold;
  }

  lemma NothingHeard(own: Proof, reply: nat -> Option<Proof>)
    ensures Gathered(own, reply, 0) == own
  {}

  lemma OneMoreReply(own: Proof, reply: nat -> Option<Proof>, n: nat)
    ensures var before := Gathered(own, reply, n);
      Gathered(own, reply, n + 1) == if reply(n).Some? then before + reply(n).value else before
  {}

  /** A key that some peer had a signature of is in the map, with the last one heard. */
  lemma {:induction false} LatestSignature(own: Proof, reply: nat -> Option<Proof>, n: nat, key: PubKey, i: nat)
    requires i < n && reply(i).Some? && key in reply(i).value
    requires forall j | i < j < n :: reply(j) == None || key !in reply(j).value
    ensures key in Gathered(own, reply, n) && Gathered(own, reply, n)[key] == reply(i).value[key]
  {
    if i < n - 1 {
      LatestSignature(own, reply, n - 1, key, i);
    }
  }

  /** A key that no peer had a signature of is there only with the staker's own. */
  lemma {:induction false} OwnSignature(own: Proof, reply: nat -> Option<Proof>, n: nat, key: PubKey)
    requires forall j | 0 <= j < n :: reply(j) == None || key !in reply(j).value
    ensures key in Gathered(own, reply, n) <==> key in own
    ensures key in own ==> Gathered(own, reply, n)[key] == own[key]
  {
    if n > 0 {
      OwnSignature(own, reply, n - 1, key);
    }
  }

  /** Asks peers until the signatures gathered pass the staker's test, and hands in the map of that
      very moment.  If that moment never comes, the node asks for ever; otherwise it comes after
      `enough` attempts at the latest. */
  method GatherProof(base: State, own: Proof, reply: nat -> Option<Proof>, ghost enough: nat)
    returns (proof: Proof, asked: nat)
    requires Enough(base, Gathered(own, reply, enough))
    ensures proof == Gathered(own, reply, asked)
    ensures var docs, epoch := Docs(base.stakes), base.header.height / 200000;
      && 3 * KeySum(docs, epoch, proof.Keys) > 2 * Total(docs, epoch)
      && forall i | 0 <= i < asked :: 3 * KeySum(docs, epoch, Gathered(own, reply, i).Keys) <= 2 * Total(docs, epoch)
  {
    hide Enough, Gathered, KeySum, Total, Docs;
    assert Gathered(own, reply, 0) == own by {
      NothingHeard(own, reply);
    }
    proof, asked := own, 0;
    var done := GetProof(base, proof);
    while !done
      invariant asked <= enough && proof == Gathered(own, reply, asked)
      invariant forall i | 0 <= i < asked :: !Enough(base, Gathered(own, reply, i))
      invariant done == Enough(base, proof)
      decreases enough - asked
    {
      assert asked < enough;
      OneMoreReply(own, reply, asked);
      var heard := reply(asked);
      if heard.Some? {
        proof := proof + heard.value;
      }
      asked := asked + 1;
      done := GetProof(base, proof);
    }
    EnoughExact(base, proof);
    forall i | 0 <= i < asked
      ensures 3 * KeySum(Docs(base.stakes), base.header.height / 200000, Gathered(own, reply, i).Keys)
           <= 2 * Total(Docs(base.stakes), base.header.height / 200000)
    {
      EnoughExact(base, Gathered(own, reply, i));
    }
  }

  /** What the storage does with a proof on the tip depends on the signatures in it that verify, which
      the staker does not look at: a valid block is refused for its votes if and only if, at the
      block's epoch, the storage counts at most two thirds for those. */
  lemma SubmittedProofExact(r: Rules, t: Tables, base: State, blk: Block, proof: Proof)
    requires ReadHighest(r, t) == Found(base) && ApplyToState(r, base, blk).Some?
    ensures var docs, epoch := Docs(base.stakes), (base.header.height + 1) / 200000;
      var total, present := Total(docs, epoch), RunningTotals(docs, epoch, Signers(r, blk.header, proof));
      var fits := present < U128 && 2 * total < U128;
      ApplyOutcome(r, Written, t, blk, proof).0 == Refused(TooFewVotes) <==> fits && 3 * present <= 2 * total
  {
    hide Docs, Epoch, Signers, Total, RunningTotals, VoteVerdict, ApplyOutcome, Decide, ReadHighest, Commit,
         ApplyToState;
    EpochIs(base.header.height + 1);
    VerdictExact(Written, Docs(base.stakes), Epoch(base.header.height + 1), Signers(r, blk.header, proof));
    DecidedByVotes(r, base, blk, proof);
    AnswersByDecision(r, Written, t, base, blk, proof);
  }

  /** A valid next block is turned away for its votes or not at all. */
  lemma DecidedByVotes(r: Rules, base: State, blk: Block, proof: Proof)
    requires ApplyToState(r, base, blk).Some?
    ensures match VoteVerdict(Written, Docs(base.stakes), Epoch(base.header.height + 1), Signers(r, blk.header, proof))
            case Accept => Decide(r, Written, base, blk, proof).Go?
            case Reject => Decide(r, Written, base, blk, proof) == Stop(Refused(TooFewVotes))
            case Overflow => Decide(r, Written, base, blk, proof) == Stop(Aborted)
  {
    hide Docs, Epoch, Signers, VoteVerdict;
  }

  /** The proof a staker hands in for a valid block on the tip is never refused by the storage for
      lack of votes, as the storage counts them, if the part of it that verifies passes the staker's
      own test and no key's stake changes between the base height and the next. */
  lemma SubmittedProofHasTheVotes(r: Rules, t: Tables, base: State, blk: Block, proof: Proof)
    requires ReadHighest(r, t) == Found(base) && ApplyToState(r, base, blk).Some?
    requires StakerPasses(Docs(base.stakes), Epoch(base.header.height), Signers(r, blk.header, proof))
    requires SameVotes(Docs(base.stakes), Epoch(base.header.height), Epoch(base.header.height + 1))
    ensures ApplyOutcome(r, Written, t, blk, proof).0 in {Applied, Aborted, Refused(KeyConflict)}
  {
    hide ReadHighest, Commit, StakerPasses, Passes, Docs, Signers;
    var docs, signers := Docs(base.stakes), Signers(r, blk.header, proof);
    StakerAgreesWithStorage(docs, base.header.height, signers);
    assert blk.header.height == base.header.height + 1;
    SupermajorityNeverRejected(docs, Epoch(blk.header.height), signers);
  }

  // ---- Signatures that do not verify ----

  /** Three equal stakers. */
  function ThreeStakers(): Rules
  {
    Rules(Custom(0), map[0 := StakeDoc(1, 0, 10, 1)][1 := StakeDoc(2, 0, 10, 1)][2 := StakeDoc(3, 0, 10, 1)], 0,
          (epoch, tx) => false,
          (root, height, txs, action) => Some(0),
          (key, header, sig) => sig == key)
  }

  /** The block the first of them has decided on. */
  function DecidedBlock(): Block
  {
    Block(Header(Custom(0), 1, ThreeStakers().genesisStakes, {}, 0), [], None)
  }

  /** Worthless signatures of the other two. */
  const JUNK: Proof := map[2 := 0, 3 := 0]

  /** One reply with worthless signatures of the other two ends the gathering, and the storage then
      refuses the proof, however it counts. */
  lemma JunkEndsGathering(tally: Tally)
    ensures var r, own, reply := ThreeStakers(), map[1 := 1], (n: nat) => Some(JUNK);
      var t := OpenTables(r, Tables(map[], map[], map[]));
      && !Enough(Genesis(r), Gathered(own, reply, 0)) && Enough(Genesis(r), Gathered(own, reply, 1))
      && ApplyToState(r, Genesis(r), DecidedBlock()).Some?
      && ApplyOutcome(r, tally, t, DecidedBlock(), Gathered(own, reply, 1)) == (Refused(TooFewVotes), t)
  {
    hide Enough, ApplyToState, ApplyOutcome;
    var own, reply := map[1 := 1], (n: nat) => Some(JUNK);
    NothingHeard(own, reply);
    OneMoreReply(own, reply, 0);
    JunkIsEnough();
    JunkIsRefused(tally);
  }

  lemma JunkIsEnough()
    ensures !Enough(Genesis(ThreeStakers()), map[1 := 1]) && Enough(Genesis(ThreeStakers()), map[1 := 1] + JUNK)
  {
    hide Total, KeySum, Docs;
    var own: Proof := map[1 := 1];
    assert own.Keys == {1} && (own + JUNK).Keys == {1, 2, 3} && Epoch(0) == 0;
    forall keys | keys in {own.Keys, (own + JUNK).Keys}
      ensures var docs := Docs(ThreeStakers().genesisStakes);
              Total(docs, 0) == 3 && KeySum(docs, 0, keys) == if 2 in keys then 3 else 1
    {
      hide Signed, RunningTotals, ThreeStakers;
      ThreeCounted(keys);
      CountsAgree(Docs(ThreeStakers().genesisStakes), 0, keys);
    }
  }

  lemma JunkIsRefused(tally: Tally)
    ensures var r, proof := ThreeStakers(), map[1 := 1] + JUNK;
      var t := OpenTables(r, Tables(map[], map[], map[]));
      && ApplyToState(r, Genesis(r), DecidedBlock()).Some?
      && ApplyOutcome(r, tally, t, DecidedBlock(), proof) == (Refused(TooFewVotes), t)
  {
    hide Total, Signed, RunningTotals, Docs;
    var r, blk, proof := ThreeStakers(), DecidedBlock(), map[1 := 1] + JUNK;
    assert Signers(r, blk.header, proof) == {1} && Epoch(1) == 0;
    ThreeCounted({1});
    assert BlockVerdict(r, tally, Genesis(r), blk.header, proof) == Reject;
    assert UnlockOld(r.genesisStakes, 0) + Admitted(r, 1, []) == r.genesisStakes;
  }

  lemma ThreeCounted(keys: set<PubKey>)
    ensures var docs := Docs(ThreeStakers().genesisStakes);
      && Total(docs, 0) == 3
      && Signed(docs, 0, keys)
         == (if 1 in keys then 1 else 0) + (if 2 in keys then 1 else 0) + (if 3 in keys then 1 else 0)
      && (2 !in keys && 3 !in keys ==> RunningTotals(docs, 0, keys) == if 1 in keys then 1 else 0)
  {
    hide Total, Signed, RunningTotals, Docs;
    var a, b, c := StakeDoc(1, 0, 10, 1), StakeDoc(2, 0, 10, 1), StakeDoc(3, 0, 10, 1);
    assert Docs(ThreeStakers().genesisStakes) == [a, b] + [c] by {
      LastDoc(map[], 0, a);
      LastDoc(map[0 := a], 1, b);
      LastDoc(map[0 := a][1 := b], 2, c);
      NoDocs();
    }
    CountTwo(a, b, 0, keys);
    OneMoreDoc([a, b], c, 0, keys);
  }

  // ---- The boundary of two epochs ----

  /** A quiet network with one staker in the first epoch and another in the second. */
  function Handover(): Rules
  {
    Rules(Custom(0), map[0 := StakeDoc(1, 0, 1, 10)][1 := StakeDoc(2, 1, 2, 10)], 0,
          (epoch, tx) => false,
          (root, height, txs, action) => Some(0),
          (key, header, sig) => sig == key)
  }

  /** The empty block at a height, whose header carries the stakes still locked there. */
  function QuietBlock(height: nat): Block
  {
    Block(Header(Custom(0), height, UnlockOld(Handover().genesisStakes, Epoch(height)), {}, 0), [], None)
  }

  lemma QuietBlockFollows(s: State)
    requires s.header.network == Custom(0) && s.header.root == 0
    requires s.stakes == Handover().genesisStakes
    ensures ApplyToState(Handover(), s, QuietBlock(s.header.height + 1)).Some?
  {
    var blk := QuietBlock(s.header.height + 1);
    assert (set tx | tx in blk.transactions) == {};
    assert UnlockOld(s.stakes, Epoch(s.header.height + 1)) + map[] == blk.header.stakesHash;
  }

  lemma HandoverCounted(epoch: nat, keys: set<PubKey>)
    requires epoch <= 1
    ensures var docs := Docs(Handover().genesisStakes);
      && Total(docs, epoch) == 10
      && Signed(docs, epoch, keys) == (if epoch + 1 in keys then 10 else 0)
      && RunningTotals(docs, epoch, keys) == (if epoch + 1 in keys then 10 else 0)
  {
    hide Total, Signed, RunningTotals, Docs;
    var a, b := StakeDoc(1, 0, 1, 10), StakeDoc(2, 1, 2, 10);
    assert Docs(Handover().genesisStakes) == [a, b] by {
      LastDoc(map[], 0, a);
      LastDoc(map[0 := a], 1, b);
      NoDocs();
    }
    CountTwo(a, b, epoch, keys);
  }

  /** At the last height of the first epoch, on any chain of this network, the staker submits the
      signature of the first staker alone and waits on that of the second alone; the storage, at the
      next height, refuses the first for its votes and does not refuse the second for them. */
  lemma BoundaryGathering(t: Tables, base: State)
    requires ReadHighest(Handover(), t) == Found(base)
    requires base.header.height == 199999 && base.header.network == Custom(0) && base.header.root == 0
    requires base.stakes == Handover().genesisStakes
    ensures Enough(base, map[1 := 1]) && !Enough(base, map[2 := 2])
    ensures var blk := QuietBlock(200000);
      && ApplyToState(Handover(), base, blk).Some?
      && ApplyOutcome(Handover(), Written, t, blk, map[1 := 1]) == (Refused(TooFewVotes), t)
      && ApplyOutcome(Handover(), Written, t, blk, map[2 := 2]).0 != Refused(TooFewVotes)
  {
    hide ReadHighest, KeySum, Total, RunningTotals, Signed, Docs, ApplyToState, Enough, ApplyOutcome;
    var r, blk := Handover(), QuietBlock(200000);
    QuietBlockFollows(base);
    forall key | key in {1, 2}
      ensures Enough(base, map[key := key]) <==> key == 1
      ensures ApplyOutcome(r, Written, t, blk, map[key := key]).0 == Refused(TooFewVotes) <==> key == 1
    {
      var proof: Proof := map[key := key];
      assert proof.Keys == {key} && Signers(r, blk.header, proof) == {key};
      HandoverCounted(0, {key});
      HandoverCounted(1, {key});
      CountsAgree(Docs(base.stakes), 0, {key});
      EnoughExact(base, proof);
      SubmittedProofExact(r, t, base, blk, proof);
    }
    assert 1 in {1, 2} && 2 in {1, 2};
    RefusedChangesNothing(r, Written, t, blk, map[1 := 1]);
  }

  lemma RefusedChangesNothing(r: Rules, tally: Tally, t: Tables, blk: Block, proof: Proof)
    ensures var (outcome, t') := ApplyOutcome(r, tally, t, blk, proof); outcome.Refused? ==> t' == t
  {
    hide ReadHighest, Decide, Commit;
  }

  /** A chain of this network of `n` empty blocks, with the stakes still those at the start. */
  ghost predicate QuietAt(t: Tables, n: nat)
  {
    && ValidChain(Handover(), Written, t) && Highest(t) == n && (n == 0 || n in t.history)
    && ReadHighest(Handover(), t) == Found(StateAt(Handover(), t, n))
    && StateAt(Handover(), t, n).stakes == Handover().genesisStakes
    && var header := StateAt(Handover(), t, n).header;
       header.height == n && header.network == Custom(0) && header.root == 0
  }

  /** There is such a chain: empty blocks signed by the first staker, up to the last height of the
      first epoch. */
  lemma {:induction false} QuietChain(n: nat) returns (t: Tables)
    requires n < 200000
    ensures QuietAt(t, n)
  {
    hide QuietAt, OpenTables, ApplyOutcome;
    if n == 0 {
      t := OpenTables(Handover(), Tables(map[], map[], map[]));
      QuietStart();
    } else {
      var before := QuietChain(n - 1);
      QuietStep(before, n);
      t := ApplyOutcome(Handover(), Written, before, QuietBlock(n), map[1 := 1]).1;
    }
  }

  lemma QuietStart()
    ensures QuietAt(OpenTables(Handover(), Tables(map[], map[], map[])), 0)
  {
    hide ValidChain;
    OpenedIsValid(Handover(), Written);
  }

  lemma QuietStep(t: Tables, n: nat)
    requires 0 < n < 200000 && QuietAt(t, n - 1)
    ensures QuietAt(ApplyOutcome(Handover(), Written, t, QuietBlock(n), map[1 := 1]).1, n)
  {
    hide ValidChain, Highest, Handover, ApplyOutcome, ReadHighest, BlockFits, Decide, InsertRows, QuietBlock, Truncate;
    QuietIsGood(t, n);
    ApplyExact(Handover(), Written, t, QuietBlock(n), map[1 := 1]);
    ApplyKeepsChain(Handover(), Written, t, QuietBlock(n), map[1 := 1]);
    QuietBlockFits(n);
    ValidTipHeight(Handover(), Written, ApplyOutcome(Handover(), Written, t, QuietBlock(n), map[1 := 1]).1);
  }

  lemma QuietIsGood(t: Tables, n: nat)
    requires 0 < n < 200000 && QuietAt(t, n - 1)
    ensures Highest(t) == 0 || (Highest(t) in t.history && BlockFits(Handover(), t.history[Highest(t)]))
    ensures BlockFits(Handover(), QuietBlock(n))
    ensures Decide(Handover(), Written, StateAt(Handover(), t, Highest(t)), QuietBlock(n), map[1 := 1]).Go?
    ensures InsertRows(Handover().network, n, QuietBlock(n).transactions, t.stakes).Some?
  {
    hide Decide, Handover, ReadHighest, BlockFits, Highest, ValidChain;
    HighestStateExact(Handover(), Written, t);
    QuietBlockFits(n);
    QuietDecided(StateAt(Handover(), t, n - 1));
  }

  lemma QuietBlockFits(n: nat)
    requires n < 200000
    ensures BlockFits(Handover(), QuietBlock(n)) && QuietBlock(n).transactions == []
    ensures QuietBlock(n).header == Header(Custom(0), n, Handover().genesisStakes, {}, 0)
  {
    assert UnlockOld(Handover().genesisStakes, Epoch(n)) == Handover().genesisStakes;
  }

  lemma QuietDecided(s: State)
    requires s.header.network == Custom(0) && s.header.root == 0 && s.header.height + 1 < 200000
    requires s.stakes == Handover().genesisStakes
    ensures Decide(Handover(), Written, s, QuietBlock(s.header.height + 1), map[1 := 1]).Go?
  {
    hide Total, Signed, RunningTotals, Docs, ApplyToState;
    var r, blk := Handover(), QuietBlock(s.header.height + 1);
    QuietBlockFollows(s);
    HandoverCounted(0, {1});
    assert Signers(r, blk.header, map[1 := 1]) == {1} && Epoch(blk.header.height) == 0;
    assert BlockVerdict(r, Written, s, blk.header, map[1 := 1]) == Accept;
  }

  /** So the two tests do part on a valid chain. */
  lemma BoundaryOnChain() returns (t: Tables, base: State)
    ensures ValidChain(Handover(), Written, t) && ReadHighest(Handover(), t) == Found(base) && Highest(t) == 199999
    ensures Enough(base, map[1 := 1]) && !Enough(base, map[2 := 2])
    ensures var blk := QuietBlock(200000);
      && ApplyToState(Handover(), base, blk).Some?
      && ApplyOutcome(Handover(), Written, t, blk, map[1 := 1]) == (Refused(TooFewVotes), t)
      && ApplyOutcome(Handover(), Written, t, blk, map[2 := 2]).0 != Refused(TooFewVotes)
  {
    t := QuietChain(199999);
    base := StateAt(Handover(), t, 199999);
    hide ValidChain, ReadHighest, Highest, Handover, StateAt, Enough, ApplyToState, ApplyOutcome;
    BoundaryGathering(t, base);
  }
}
