/** Replaying stored blocks, and handing them on to another store. */
module Replay {
  import opened Ledger
  import opened Quorum
  import opened Tables
  import opened Chain
  import opened Growth

  /** The fold of `apply_block` over the stored blocks k+1..h, starting from a state. */
  function Replay(r: Rules, t: Tables, from: State, k: nat, h: nat): Option<State>
    decreases h
  {
    if h <= k then Some(from) else
    match Replay(r, t, from, k, h - 1)
    case None => None
    case Some(s) => if h in t.history then ApplyToState(r, s, t.history[h]) else None
  }

  /** Replaying from any reconstructed state to any later height never fails and gives the state
      that is reconstructed there from one block and one stakes query. */
  lemma ReplayIsReconstruction(r: Rules, tally: Tally, t: Tables, k: nat, h: nat)
    requires ValidChain(r, tally, t) && 1 <= k <= h <= Highest(t)
    requires BlockFits(r, t.history[Highest(t)])
    ensures ReadState(r, t, k).Found? && ReadState(r, t, h).Found?
    ensures Replay(r, t, ReadState(r, t, k).state, k, h) == Some(ReadState(r, t, h).state)
  {
    GetStateExact(r, tally, t, k);
    GetStateExact(r, tally, t, h);
    ReplayReaches(r, t, k, h);
  }

  /** Every stored state is the replay of the whole chain from genesis. */
  lemma {:induction false} ReplayReaches(r: Rules, t: Tables, k: nat, h: nat)
    requires Sound(r, t) && k <= h <= Highest(t)
    ensures Replay(r, t, StateAt(r, t, k), k, h) == Some(StateAt(r, t, h))
    decreases h
  {
    if k < h {
      ReplayReaches(r, t, k, h - 1);
      assert LinkedAt(r, t, h);
    }
  }

  /** A reader's successive looks at a store that others keep appending to. */
  ghost predicate Growing(views: nat -> Tables)
  {
    forall i, j | i <= j :: Extends(views(j), views(i))
  }

  datatype SelfTestResult = MissingBlock | Died | Passed(state: State, last: nat)

  /** One round of the self test: rebuild the state at height 9, then apply every stored block up
      to the highest height seen at the start, while the chain may keep growing.  The application
      that the node expects never to fail never does. */
  method SelfTest(r: Rules, ghost tally: Tally, views: nat -> Tables) returns (result: SelfTestResult)
    requires Growing(views) && forall i :: ValidChain(r, tally, views(i))
    ensures result == MissingBlock <==> Highest(views(0)) < 9
    ensures result == Died <==> Highest(views(0)) == 9 && !BlockFits(r, views(0).history[9])
    ensures result.Passed? ==> result.last == Highest(views(1)) && result.state == StateAt(r, views(1), result.last)
  {
    hide ValidChain, Extends, Indexed, Highest, ApplyToState, BlockFits;
    GetStateExact(r, tally, views(0), 9);
    var start := ReadState(r, views(0), 9);
    if start == Absent {
      return MissingBlock;
    } else if start == Abort {
      return Died;
    }
    var state := start.state;
    var last := Highest(views(1));
    SeenLater(r, tally, views(0), views(1), 9);
    for bh := 10 to last + 1
      invariant bh - 1 in views(1).history && state == StateAt(r, views(1), bh - 1)
    {
      var now := views(bh);
      SeenLater(r, tally, views(1), now, bh);
      if bh !in now.history {
        assert false;
      }
      var next := ApplyToState(r, state, now.history[bh]);
      if next == None {
        assert false;
      }
      state := next.value;
    }
    return Passed(state, last);
  }

  /** What a later look shows at a height already committed. */
  lemma SeenLater(r: Rules, tally: Tally, earlier: Tables, later: Tables, h: nat)
    requires ValidChain(r, tally, earlier) && ValidChain(r, tally, later) && Extends(later, earlier)
    requires 1 <= h <= Highest(earlier)
    ensures h in earlier.history && h in later.history && Highest(earlier) <= Highest(later)
    ensures h > 1 ==> h - 1 in earlier.history
    ensures ApplyToState(r, StateAt(r, earlier, h - 1), later.history[h]) == Some(StateAt(r, earlier, h))
    ensures StateAt(r, later, h) == StateAt(r, earlier, h)
  {
    hide ApplyToState;
    ReadsAreImmutable(r, earlier, later, h);
    assert LinkedAt(r, earlier, h);
  }

  // ---- Handing blocks on ----

  /** Re-inserting the next stored block into the tables that preceded it gives the tables that
      followed it. */
  lemma CommitStoredBlock(r: Rules, t: Tables, k: nat)
    requires Sound(r, t) && k < Highest(t)
    ensures Commit(Truncate(t, k), t.history[k + 1], t.proofs[k + 1]) == Some(Truncate(t, k + 1))
  {
    hide ApplyToState, Highest, InsertRows, RowsMatch;
    assert LinkedAt(r, t, k + 1);
    var before, want := Truncate(t, k), Truncate(t, k + 1);
    ReinsertedRows(r, t, k);
    assert before.history[k + 1 := t.history[k + 1]] == want.history;
    assert before.proofs[k + 1 := t.proofs[k + 1]] == want.proofs;
  }

  lemma ReinsertedRows(r: Rules, t: Tables, k: nat)
    requires Dense(t) && RowsMatch(r, t) && k < Highest(t)
    ensures InsertRows(r.network, k + 1, t.history[k + 1].transactions, Truncate(t, k).stakes)
         == Some(Truncate(t, k + 1).stakes)
  {
    hide Highest, InsertRows;
    var txs, before, want := t.history[k + 1].transactions, Truncate(t, k).stakes, Truncate(t, k + 1).stakes;
    InsertRowsSomeIff(r.network, k + 1, txs, before);
    InsertedRows(r.network, k + 1, txs, before);
    var rows := InsertRows(r.network, k + 1, txs, before).value;
    forall x ensures x in rows <==> x in want
             ensures x in rows && x in want ==> rows[x] == want[x]
    {
      ReinsertedRow(r, t, k, x);
    }
    assert rows == want;
  }

  lemma ReinsertedRow(r: Rules, t: Tables, k: nat, x: TxHash)
    requires Dense(t) && RowsMatch(r, t) && k < Highest(t)
    requires InsertRows(r.network, k + 1, t.history[k + 1].transactions, Truncate(t, k).stakes).Some?
    ensures var rows := InsertRows(r.network, k + 1, t.history[k + 1].transactions, Truncate(t, k).stakes).value;
      var want := Truncate(t, k + 1).stakes;
      && (x in rows <==> x in want)
      && (x in rows && x in want ==> rows[x] == want[x])
  {
    hide Highest, InsertRows;
    var txs, before := t.history[k + 1].transactions, Truncate(t, k).stakes;
    var rows := InsertRows(r.network, k + 1, txs, before).value;
    InsertedRows(r.network, k + 1, txs, before);
    if x in before {
    } else if x in rows {
      InsertedFrom(r.network, k + 1, txs, before, x);
      var tx :| tx in txs && WritesRow(r.network, k + 1, tx) && tx.hash == x && tx.data.value == rows[x].doc;
      assert t.stakes[x] == Row(k + 1, rows[x].doc);
    }
  }

  /** A store holding the first `k` blocks of a valid chain accepts that chain's next block with
      the proof stored beside it, and then holds the first k+1. */
  lemma NextStoredBlockIsAccepted(r: Rules, tally: Tally, t: Tables, k: nat)
    requires ValidChain(r, tally, t) && k < Highest(t) && BlockFits(r, t.history[Highest(t)])
    ensures ApplyOutcome(r, tally, Truncate(t, k), t.history[k + 1], t.proofs[k + 1]) == (Applied, Truncate(t, k + 1))
  {
    hide Linked, Certified, ServesBelowTip, RowsMatch, ApplyOutcome, ReadHighest, Decide, Commit, Truncate, Extends,
         Highest, BlockFits, StateAt;
    TruncateValid(r, tally, t, k);
    CommitStoredBlock(r, t, k);
    HighestAfter(r, tally, t, k + 1);
    NextIsDecided(r, tally, t, k);
    AppliedWhen(r, tally, Truncate(t, k), StateAt(r, t, k), t.history[k + 1], t.proofs[k + 1]);
  }

  lemma AppliedWhen(r: Rules, tally: Tally, t: Tables, base: State, blk: Block, proof: Proof)
    requires ReadHighest(r, t) == Found(base)
    requires Decide(r, tally, base, blk, proof).Go? && Commit(t, blk, proof).Some?
    requires ReadHighest(r, Commit(t, blk, proof).value).Found?
    ensures ApplyOutcome(r, tally, t, blk, proof) == (Applied, Commit(t, blk, proof).value)
  {
    hide ReadHighest, Decide, Commit;
  }

  lemma NextIsDecided(r: Rules, tally: Tally, t: Tables, k: nat)
    requires ValidChain(r, tally, t) && k < Highest(t)
    ensures Decide(r, tally, StateAt(r, t, k), t.history[k + 1], t.proofs[k + 1]) == Go(StateAt(r, t, k + 1))
  {
    hide ApplyToState, BlockVerdict, RowsMatch, ServesBelowTip, Highest;
    HeightOfState(r, t, k);
    assert LinkedAt(r, t, k + 1) && CertifiedAt(r, tally, t, k + 1);
  }

  lemma HeightOfState(r: Rules, t: Tables, h: nat)
    requires Sound(r, t) && h <= Highest(t)
    ensures StateAt(r, t, h).header.height == h
  {
    assert h > 0 ==> LinkedAt(r, t, h);
  }

  lemma HighestAfter(r: Rules, tally: Tally, t: Tables, k: nat)
    requires ValidChain(r, tally, t) && 0 < k <= Highest(t) && BlockFits(r, t.history[Highest(t)])
    ensures ReadHighest(r, Truncate(t, k)).Found?
  {
    TruncateValid(r, tally, t, k);
    if k == Highest(t) {
      ValidExtendsItself(r, tally, t);
      HighestStateExact(r, tally, t);
    }
  }
}
