/** How the tables grow: `apply_block` appends one height, every earlier read stays the same, and
    an earlier committed state is a truncation of every later one. */
module Growth {
  import opened Ledger
  import opened Quorum
  import opened Tables
  import opened Chain

  /** The tables as they were when height `k` was the highest. */
  function Truncate(t: Tables, k: nat): Tables
  {
    Tables(
      t.history - (set h | h in t.history && k < h),
      t.proofs - (set h | h in t.proofs && k < h),
      t.stakes - (set x | x in t.stakes && k < t.stakes[x].height))
  }

  ghost predicate Extends(later: Tables, earlier: Tables)
  {
    Highest(earlier) <= Highest(later) && earlier == Truncate(later, Highest(earlier))
  }

  lemma HighestIs(t: Tables, n: nat)
    requires forall h :: h in t.history <==> 1 <= h <= n
    ensures Highest(t) == n
  {
    if n > 0 {
      assert n in t.history.Keys;
    }
  }

  lemma TruncateHighest(t: Tables, k: nat)
    requires Dense(t) && k <= Highest(t)
    ensures Highest(Truncate(t, k)) == k && Dense(Truncate(t, k))
  {
    HighestIs(Truncate(t, k), k);
  }

  lemma TruncateTwice(t: Tables, j: nat, k: nat)
    requires j <= k
    ensures Truncate(Truncate(t, k), j) == Truncate(t, j)
  {}

  lemma IndexedTruncate(r: Rules, t: Tables, k: nat, h: nat)
    requires h <= k
    ensures Indexed(r, Truncate(t, k), h) == Indexed(r, t, h)
  {
    assert RowsUpTo(Truncate(t, k), h) == RowsUpTo(t, h);
  }

  /** A read at a committed height returns the same from the tables then and at any later time:
      the block, its proof, its stake set and its state. */
  lemma ReadsAreImmutable(r: Rules, earlier: Tables, later: Tables, h: nat)
    requires Dense(earlier) && Extends(later, earlier) && 1 <= h <= Highest(earlier)
    ensures h in earlier.history && h in later.history && later.history[h] == earlier.history[h]
    ensures h in earlier.proofs && h in later.proofs && later.proofs[h] == earlier.proofs[h]
    ensures Indexed(r, later, h) == Indexed(r, earlier, h)
    ensures ReadState(r, later, h) == ReadState(r, earlier, h)
  {
    IndexedTruncate(r, later, Highest(earlier), h);
    assert h in Truncate(later, Highest(earlier)).history && h in Truncate(later, Highest(earlier)).proofs;
  }

  lemma ExtendsTransitive(a: Tables, b: Tables, c: Tables)
    requires Extends(b, a) && Extends(c, b)
    ensures Extends(c, a)
  {
    TruncateTwice(c, Highest(a), Highest(b));
  }

  lemma RowsBelowTip(r: Rules, t: Tables, x: TxHash)
    requires Dense(t) && RowsMatch(r, t) && x in t.stakes
    ensures t.stakes[x].height <= Highest(t)
  {
    assert t.stakes[x].height > 0 ==> t.stakes[x].height in t.history;
  }

  lemma ExtendsItself(r: Rules, t: Tables)
    requires Dense(t) && RowsMatch(r, t)
    ensures Extends(t, t)
  {
    var p := Truncate(t, Highest(t));
    forall x | x in t.stakes ensures x in p.stakes {
      RowsBelowTip(r, t, x);
    }
    assert p.stakes == t.stakes && p.proofs == t.proofs && p.history == t.history;
  }

  lemma ValidExtendsItself(r: Rules, tally: Tally, t: Tables)
    requires ValidChain(r, tally, t)
    ensures Extends(t, t)
  {
    ExtendsItself(r, t);
  }

  lemma StatesAreImmutable(r: Rules, earlier: Tables, later: Tables, h: nat)
    requires Dense(earlier) && Dense(later) && Extends(later, earlier) && h <= Highest(earlier)
    ensures StateAt(r, later, h) == StateAt(r, earlier, h)
  {
    if h > 0 {
      ReadsAreImmutable(r, earlier, later, h);
    }
  }

  /** Every earlier committed state of a valid chain is a valid chain, with nothing left to rebuild
      if it is strictly earlier. */
  lemma TruncateValid(r: Rules, tally: Tally, t: Tables, k: nat)
    requires ValidChain(r, tally, t) && k <= Highest(t)
    ensures ValidChain(r, tally, Truncate(t, k)) && Extends(t, Truncate(t, k)) && Highest(Truncate(t, k)) == k
    ensures k < Highest(t) ==> ReadHighest(r, Truncate(t, k)) == Found(StateAt(r, t, k))
  {
    var p := Truncate(t, k);
    TruncateHighest(t, k);
    assert RowsMatch(r, p);
    forall h | 1 <= h <= k
      ensures LinkedAt(r, p, h) && CertifiedAt(r, tally, p, h)
      ensures h < Highest(t) ==> ServesAt(r, p, h)
    {
      assert LinkedAt(r, t, h) && CertifiedAt(r, tally, t, h);
      HeightsAreImmutable(r, tally, p, t, h);
    }
    if 0 < k < Highest(t) {
      assert ServesAt(r, p, k);
      StatesAreImmutable(r, p, t, k);
    }
  }

  /** What makes one height of a chain valid does not change as the chain grows. */
  lemma HeightsAreImmutable(r: Rules, tally: Tally, earlier: Tables, later: Tables, h: nat)
    requires Dense(earlier) && Dense(later) && Extends(later, earlier) && 1 <= h <= Highest(earlier)
    ensures LinkedAt(r, earlier, h) == LinkedAt(r, later, h)
    ensures CertifiedAt(r, tally, earlier, h) == CertifiedAt(r, tally, later, h)
    ensures ServesAt(r, earlier, h) == ServesAt(r, later, h)
  {
    ReadsAreImmutable(r, earlier, later, h);
    StatesAreImmutable(r, earlier, later, h - 1);
    StatesAreImmutable(r, earlier, later, h);
  }

  // ---- What a read of a state returns ----

  /** On a valid chain every state below the tip is read back exactly; reading the tip's state
      aborts if and only if the tip block does not fit. */
  lemma GetStateExact(r: Rules, tally: Tally, t: Tables, h: nat)
    requires ValidChain(r, tally, t)
    ensures h == 0 || h > Highest(t) ==> ReadState(r, t, h) == Absent
    ensures 1 <= h < Highest(t) ==> ReadState(r, t, h) == Found(StateAt(r, t, h))
    ensures 1 <= h == Highest(t) ==>
      ReadState(r, t, h) == if BlockFits(r, t.history[h]) then Found(StateAt(r, t, h)) else Abort
  {
    if 1 <= h < Highest(t) {
      assert ServesAt(r, t, h);
    } else if 1 <= h == Highest(t) {
      TipFitsIff(r, t, h);
    }
  }

  lemma HighestStateExact(r: Rules, tally: Tally, t: Tables)
    requires ValidChain(r, tally, t)
    ensures ReadHighest(r, t) != Absent
    ensures ReadHighest(r, t).Found? ==> ReadHighest(r, t).state == StateAt(r, t, Highest(t))
    ensures ReadHighest(r, t) == Abort <==> Highest(t) > 0 && !BlockFits(r, t.history[Highest(t)])
  {
    GetStateExact(r, tally, t, Highest(t));
  }

  // ---- Appending one block ----

  lemma OpenedIsValid(r: Rules, tally: Tally)
    ensures ValidChain(r, tally, OpenTables(r, Tables(map[], map[], map[])))
    ensures Highest(OpenTables(r, Tables(map[], map[], map[]))) == 0
  {
    HighestIs(OpenTables(r, Tables(map[], map[], map[])), 0);
  }

  /** Opening an existing store changes nothing. */
  lemma ReopenIsIdentity(r: Rules, t: Tables)
    requires RowsMatch(r, t)
    ensures OpenTables(r, t) == t
  {
    assert OpenTables(r, t).stakes == t.stakes;
  }

  /** The tables after a commit: one more height, and the earlier tables as their truncation. */
  lemma CommitAppends(r: Rules, t: Tables, blk: Block, proof: Proof)
    requires Dense(t) && RowsMatch(r, t)
    requires blk.header.height == Highest(t) + 1
    requires Commit(t, blk, proof).Some?
    ensures var t' := Commit(t, blk, proof).value;
      && Dense(t') && Highest(t') == Highest(t) + 1
      && t'.history[Highest(t')] == blk && t'.proofs[Highest(t')] == proof
      && Extends(t', t)
  {
    hide Highest, InsertRows, RowsMatch;
    var t' := Commit(t, blk, proof).value;
    var n := Highest(t);
    HighestIs(t', n + 1);
    CommitKeepsRows(r, t, blk, proof);
    var p := Truncate(t', n);
    assert p.history == t.history && p.proofs == t.proofs;
  }

  lemma CommitKeepsRows(r: Rules, t: Tables, blk: Block, proof: Proof)
    requires Dense(t) && RowsMatch(r, t)
    requires blk.header.height == Highest(t) + 1
    requires Commit(t, blk, proof).Some?
    ensures Truncate(Commit(t, blk, proof).value, Highest(t)).stakes == t.stakes
  {
    hide Highest, InsertRows, WritesRow;
    var rows := Commit(t, blk, proof).value.stakes;
    var n := Highest(t);
    InsertedRows(blk.header.network, n + 1, blk.transactions, t.stakes);
    forall x | x in rows ensures x in t.stakes <==> rows[x].height <= n {
      if x in t.stakes {
        RowsBelowTip(r, t, x);
      } else {
        InsertedFrom(blk.header.network, n + 1, blk.transactions, t.stakes, x);
      }
    }
  }

  lemma CommitMatchesRows(r: Rules, t: Tables, blk: Block, proof: Proof)
    requires Dense(t) && RowsMatch(r, t)
    requires blk.header.height == Highest(t) + 1 && blk.header.network == r.network
    requires Commit(t, blk, proof).Some?
    ensures RowsMatch(r, Commit(t, blk, proof).value)
  {
    hide Highest, InsertRows, WritesRow;
    var t' := Commit(t, blk, proof).value;
    var n := Highest(t);
    InsertedRows(r.network, n + 1, blk.transactions, t.stakes);
    InsertRowsSomeIff(r.network, n + 1, blk.transactions, t.stakes);
    forall x | x in t'.stakes && t'.stakes[x].height > 0
      ensures var h := t'.stakes[x].height;
        h in t'.history && WrittenBy(r.network, h, t'.history[h].transactions, x, t'.stakes[x].doc)
    {
      if x !in t.stakes {
        InsertedFrom(r.network, n + 1, blk.transactions, t.stakes, x);
      }
    }
    forall x | x in t'.stakes && t'.stakes[x].height == 0 ensures x in r.genesisStakes {
      if x !in t.stakes {
        InsertedFrom(r.network, n + 1, blk.transactions, t.stakes, x);
      }
    }
  }

  /** One more sound and certified block on top of a rebuilt tip keeps the chain valid. */
  lemma AppendKeepsChain(r: Rules, tally: Tally, t: Tables, t': Tables)
    requires ValidChain(r, tally, t) && (Highest(t) > 0 ==> ServesAt(r, t, Highest(t)))
    requires Dense(t') && RowsMatch(r, t') && Extends(t', t) && Highest(t') == Highest(t) + 1
    requires LinkedAt(r, t', Highest(t')) && CertifiedAt(r, tally, t', Highest(t'))
    ensures ValidChain(r, tally, t')
  {
    hide LinkedAt, CertifiedAt, ServesAt, Highest, RowsMatch, Truncate;
    forall h | 1 <= h <= Highest(t')
      ensures LinkedAt(r, t', h) && CertifiedAt(r, tally, t', h)
      ensures h < Highest(t') ==> ServesAt(r, t', h)
    {
      if h < Highest(t') {
        assert LinkedAt(r, t, h) && CertifiedAt(r, tally, t, h) && ServesAt(r, t, h);
        HeightsAreImmutable(r, tally, t, t', h);
      }
    }
  }

  lemma DecidedBlock(r: Rules, tally: Tally, base: State, blk: Block, proof: Proof)
    requires Decide(r, tally, base, blk, proof).Go?
    ensures blk.header.height == base.header.height + 1 && blk.header.network == base.header.network
    ensures BlockVerdict(r, tally, base, blk.header, proof) == Accept
    ensures ApplyToState(r, base, blk) == Some(Decide(r, tally, base, blk, proof).next)
    ensures Decide(r, tally, base, blk, proof).next == FromBlock(blk, blk.header.stakesHash)
  {}

  /** Committing a block that was decided on the tip state keeps the chain valid. */
  lemma CommitKeepsChain(r: Rules, tally: Tally, t: Tables, blk: Block, proof: Proof)
    requires ValidChain(r, tally, t)
    requires ReadHighest(r, t).Found?
    requires Decide(r, tally, StateAt(r, t, Highest(t)), blk, proof).Go? && Commit(t, blk, proof).Some?
    ensures var t' := Commit(t, blk, proof).value;
      && ValidChain(r, tally, t') && Extends(t', t) && Highest(t') == Highest(t) + 1
      && t'.history[Highest(t')] == blk && t'.proofs[Highest(t')] == proof
      && Decide(r, tally, StateAt(r, t, Highest(t)), blk, proof).next == StateAt(r, t', Highest(t'))
  {
    hide ApplyToState, BlockVerdict, Indexed, Highest, RowsMatch, Truncate, Decide, Commit, BlockFits;
    TipHeight(r, t);
    DecidedBlock(r, tally, StateAt(r, t, Highest(t)), blk, proof);
    CommitAppends(r, t, blk, proof);
    CommitMatchesRows(r, t, blk, proof);
    HighestStateExact(r, tally, t);
    StatesAreImmutable(r, t, Commit(t, blk, proof).value, Highest(t));
    AppendKeepsChain(r, tally, t, Commit(t, blk, proof).value);
  }

  lemma TipHeight(r: Rules, t: Tables)
    requires Sound(r, t)
    ensures StateAt(r, t, Highest(t)).header.height == Highest(t)
    ensures StateAt(r, t, Highest(t)).header.network == r.network
  {
    assert Highest(t) > 0 ==> LinkedAt(r, t, Highest(t));
  }

  /** `apply_block` keeps every store valid, and only ever appends one height. */
  lemma ApplyKeepsChain(r: Rules, tally: Tally, t: Tables, blk: Block, proof: Proof)
    requires ValidChain(r, tally, t)
    ensures var (outcome, t') := ApplyOutcome(r, tally, t, blk, proof);
      && ValidChain(r, tally, t') && Extends(t', t)
      && (|| t' == t
          || (Highest(t') == Highest(t) + 1 && t'.history[Highest(t')] == blk && t'.proofs[Highest(t')] == proof))
      && (outcome == Applied ==> t' != t && ReadHighest(r, t') == Found(StateAt(r, t', Highest(t'))))
      && (outcome.Refused? ==> t' == t)
  {
    hide ValidChain, ApplyToState, BlockVerdict, Indexed, Highest, Truncate, Commit, BlockFits;
    HighestStateExact(r, tally, t);
    ValidExtendsItself(r, tally, t);
    if && ReadHighest(r, t).Found?
       && Decide(r, tally, StateAt(r, t, Highest(t)), blk, proof).Go?
       && Commit(t, blk, proof).Some? {
      CommitKeepsChain(r, tally, t, blk, proof);
      HighestStateExact(r, tally, Commit(t, blk, proof).value);
    }
  }

  /** Exactly when a block is applied, and exactly when applying it costs the process its life after
      the commit: everything else being right, the block does not fit. */
  lemma ApplyExact(r: Rules, tally: Tally, t: Tables, blk: Block, proof: Proof)
    requires ValidChain(r, tally, t) && (Highest(t) == 0 || BlockFits(r, t.history[Highest(t)]))
    ensures var (outcome, t') := ApplyOutcome(r, tally, t, blk, proof);
      var good := && Decide(r, tally, StateAt(r, t, Highest(t)), blk, proof).Go?
                  && InsertRows(r.network, Highest(t) + 1, blk.transactions, t.stakes).Some?;
      && (outcome == Applied <==> good && BlockFits(r, blk))
      && (outcome == Aborted && t' != t <==> good && !BlockFits(r, blk))
  {
    hide ApplyToState, BlockVerdict, Indexed, Highest, RowsMatch, Truncate, BlockFits;
    HighestStateExact(r, tally, t);
    TipHeight(r, t);
    var base := StateAt(r, t, Highest(t));
    if Decide(r, tally, base, blk, proof).Go? {
      DecidedBlock(r, tally, base, blk, proof);
      assert Highest(t) + 1 !in t.history && Highest(t) + 1 !in t.proofs;
      if Commit(t, blk, proof).Some? {
        CommitKeepsChain(r, tally, t, blk, proof);
        HighestStateExact(r, tally, Commit(t, blk, proof).value);
      }
    }
  }

  /** After a block that does not fit, the store never moves again: every later call aborts. */
  lemma MisfitIsFatal(r: Rules, tally: Tally, t: Tables, blk: Block, proof: Proof)
    requires ValidChain(r, tally, t) && Highest(t) > 0 && !BlockFits(r, t.history[Highest(t)])
    ensures ApplyOutcome(r, tally, t, blk, proof) == (Aborted, t)
  {
    HighestStateExact(r, tally, t);
  }

  // ---- A block that does not fit ----

  /** One staker, and a transition function that wants stakes to start in a later epoch. */
  function FutureStakesOnly(): Rules
  {
    Rules(Custom(0), map[0 := StakeDoc(1, 0, 10, 1)], 0,
          (epoch: nat, tx: Tx) => tx.data.Some? && epoch < tx.data.value.eStart,
          (root, height, txs, action) => Some(0),
          (key, header, sig) => true)
  }

  /** A first block with a stake that has already started. */
  function StartedStake(): Block
  {
    var tx := Tx(5, Stake, Some(StakeDoc(2, 0, 10, 1)), 0, 0);
    Block(Header(Custom(0), 1, FutureStakesOnly().genesisStakes, {tx}, 0), [tx], None)
  }

  /** Committing that block kills the process, and every later call does so again. */
  lemma MisfitExists(tally: Tally, later: Block, proof: Proof)
    ensures var r, blk := FutureStakesOnly(), StartedStake();
      var t := OpenTables(r, Tables(map[], map[], map[]));
      var (outcome, t') := ApplyOutcome(r, tally, t, blk, map[1 := 0]);
      && !BlockFits(r, blk)
      && outcome == Aborted && t' != t && 1 in t'.history && t'.history[1] == blk
      && ApplyOutcome(r, tally, t', later, proof) == (Aborted, t')
  {
    var r, blk, sigs := FutureStakesOnly(), StartedStake(), map[1 := 0];
    var t := OpenTables(r, Tables(map[], map[], map[]));
    OpenedIsValid(r, tally);
    MisfitIsDecided(tally);
    MisfitIsInserted();
    hide ValidChain, Highest, Decide, InsertRows, BlockFits, FutureStakesOnly, StartedStake, OpenTables, ApplyOutcome;
    ApplyExact(r, tally, t, blk, sigs);
    ApplyKeepsChain(r, tally, t, blk, sigs);
    MisfitIsFatal(r, tally, ApplyOutcome(r, tally, t, blk, sigs).1, later, proof);
  }

  lemma MisfitIsInserted()
    ensures var r, blk := FutureStakesOnly(), StartedStake();
      var t := OpenTables(r, Tables(map[], map[], map[]));
      && InsertRows(r.network, 1, blk.transactions, t.stakes).Some? && !BlockFits(r, blk)
  {
    var r, blk := FutureStakesOnly(), StartedStake();
    var t := OpenTables(r, Tables(map[], map[], map[]));
    assert InsertRows(r.network, 1, blk.transactions[..0], t.stakes) == Some(t.stakes);
    assert blk.transactions[0] in blk.transactions;
  }

  lemma MisfitIsDecided(tally: Tally)
    ensures Decide(FutureStakesOnly(), tally, Genesis(FutureStakesOnly()), StartedStake(), map[1 := 0]).Go?
  {
    hide BlockVerdict, ApplyToState;
    MisfitHasTheVotes(tally);
    MisfitIsApplied();
  }

  lemma MisfitHasTheVotes(tally: Tally)
    ensures var r := FutureStakesOnly();
      BlockVerdict(r, tally, Genesis(r), StartedStake().header, map[1 := 0]) == Accept
  {
    hide Total, Signed, RunningTotals, Docs;
    var doc := StakeDoc(1, 0, 10, 1);
    LastDoc(map[], 0, doc);
    NoDocs();
    assert Docs(FutureStakesOnly().genesisStakes) == [doc];
    assert Epoch(1) == 0 && Signers(FutureStakesOnly(), StartedStake().header, map[1 := 0]) == {1};
    CountOne(doc, 0, {1});
  }

  lemma MisfitIsApplied()
    ensures ApplyToState(FutureStakesOnly(), Genesis(FutureStakesOnly()), StartedStake()).Some?
  {
    var r, blk := FutureStakesOnly(), StartedStake();
    var tx := blk.transactions[0];
    assert !AddsStake(r, 1, tx) && Admitted(r, 1, blk.transactions[..0]) == map[];
    assert UnlockOld(r.genesisStakes, 0) + map[] == r.genesisStakes;
    assert (set x | x in blk.transactions) == {tx};
  }

  lemma ValidTipHeight(r: Rules, tally: Tally, t: Tables)
    requires ValidChain(r, tally, t)
    ensures Highest(t) == 0 || Highest(t) in t.history
    ensures StateAt(r, t, Highest(t)).header.height == Highest(t)
  {
    TipHeight(r, t);
  }

  /** Which answer `apply_block` gives on a chain whose tip can be read, case by case. */
  lemma OutcomeExact(r: Rules, tally: Tally, t: Tables, blk: Block, proof: Proof)
    requires ValidChain(r, tally, t) && (Highest(t) == 0 || BlockFits(r, t.history[Highest(t)]))
    ensures var outcome := ApplyOutcome(r, tally, t, blk, proof).0;
      var base := StateAt(r, t, Highest(t));
      var docs, epoch := Docs(base.stakes), (Highest(t) + 1) / 200000;
      var total, present := Total(docs, epoch), Present(tally, docs, epoch, Signers(r, blk.header, proof));
      var next := blk.header.height == Highest(t) + 1;
      var fits := present < U128 && 2 * total < U128;
      var certified := next && fits && 3 * present > 2 * total;
      var sound := certified && ApplyToState(r, base, blk).Some?;
      var inserts := InsertRows(r.network, Highest(t) + 1, blk.transactions, t.stakes).Some?;
      && (outcome == Refused(WrongHeight) <==> !next)
      && (outcome == Refused(TooFewVotes) <==> next && fits && 3 * present <= 2 * total)
      && (outcome == Refused(BadBlock) <==> certified && !sound)
      && (outcome == Refused(KeyConflict) <==> sound && !inserts)
      && (outcome == Applied <==> sound && inserts && BlockFits(r, blk))
      && (outcome == Aborted <==> (next && !fits) || (sound && inserts && !BlockFits(r, blk)))
  {
    hide ValidChain, Total, Present, Docs, Signers, ApplyToState, InsertRows, BlockFits, Highest, ReadHighest, Indexed,
         VoteVerdict, Epoch, ApplyOutcome;
    NextIsFree(r, tally, t, blk, proof);
    ValidTipHeight(r, tally, t);
    var base := StateAt(r, t, Highest(t));
    HighestStateExact(r, tally, t);
    if Decide(r, tally, base, blk, proof).Go? {
      DecidedBlock(r, tally, base, blk, proof);
    }
    ApplyExact(r, tally, t, blk, proof);
    ApplyKeepsChain(r, tally, t, blk, proof);
    EpochIs(Highest(t) + 1);
    VerdictExact(tally, Docs(base.stakes), Epoch(Highest(t) + 1), Signers(r, blk.header, proof));
    AnswersByDecision(r, tally, t, base, blk, proof);
  }

  lemma EpochIs(height: nat)
    ensures Epoch(height) == height / 200000
  {}

  lemma AnswersByDecision(r: Rules, tally: Tally, t: Tables, base: State, blk: Block, proof: Proof)
    requires ReadHighest(r, t) == Found(base)
    ensures var outcome := ApplyOutcome(r, tally, t, blk, proof).0;
      match Decide(r, tally, base, blk, proof)
      case Stop(why) => outcome == why
      case Go(_) =>
        if Commit(t, blk, proof) == None then outcome == Refused(KeyConflict)
        else outcome == Applied || outcome == Aborted
  {
    hide ReadHighest, Decide, Commit;
  }

  lemma NextIsFree(r: Rules, tally: Tally, t: Tables, blk: Block, proof: Proof)
    requires ValidChain(r, tally, t)
    ensures blk.header.height == Highest(t) + 1 && blk.header.network == r.network ==>
      (Commit(t, blk, proof).Some? <==> InsertRows(r.network, Highest(t) + 1, blk.transactions, t.stakes).Some?)
    ensures StateAt(r, t, Highest(t)).header.network == r.network
  {
    hide InsertRows, Highest;
    TipHeight(r, t);
    assert Highest(t) + 1 !in t.history && Highest(t) + 1 !in t.proofs;
  }
}
