/** The storage of a full node, updated in place. */
module Storage {
  import opened Ledger
  import opened Quorum
  import opened Tables
  import opened Chain
  import opened Growth
  import opened Mempool

  class Storage {
    const rules: Rules
    const mempool: Mempool
    var history: map<nat, Block>
    var consensusProofs: map<nat, Proof>
    var stakes: map<TxHash, Row>
    var oldCache: map<nat, Block>
    var notified: nat

    /** The contents of the SQLite tables. */
    function Disk(): Tables
      reads this
    {
      Tables(history, consensusProofs, stakes)
    }

    /** The chain is valid, and the block cache holds nothing but stored blocks. */
    ghost predicate Valid()
      reads this
    {
      && ValidChain(rules, Written, Disk())
      && forall h | h in oldCache :: h in history && history[h] == oldCache[h]
    }

    /** Opens the store on any disk, inserting the genesis stakes that are not there yet; the mempool
        starts over at genesis.  The store is valid if and only if what was on the disk is. */
    constructor Open(rules: Rules, applyTx: ApplyTx, disk: Tables)
      ensures this.rules == rules && Disk() == OpenTables(rules, disk) && oldCache == map[] && notified == 0
      ensures Valid() <==> ValidChain(rules, Written, OpenTables(rules, disk))
      ensures fresh(mempool) && mempool.applyTx == applyTx && mempool.Value() == NewPool(Realize(rules))
    {
      this.rules := rules;
      mempool := new Mempool(applyTx, Realize(rules));
      history, consensusProofs, oldCache, notified := disk.history, disk.proofs, map[], 0;
      new;
      InsertGenesis(disk.stakes);
    }

    method InsertGenesis(existing: map<TxHash, Row>)
      modifies this`stakes
      ensures stakes == GenesisRows(rules) + existing
    {
      stakes := existing;
      var todo := rules.genesisStakes.Keys;
      while todo != {}
        invariant todo <= rules.genesisStakes.Keys
        invariant forall x :: x in stakes <==> x in existing || (x in rules.genesisStakes && x !in todo)
        invariant forall x | x in stakes ::
          stakes[x] == if x in existing then existing[x] else Row(0, rules.genesisStakes[x])
      {
        var x :| x in todo;
        if x !in stakes {
          stakes := stakes[x := Row(0, rules.genesisStakes[x])];
        }
        todo := todo - {x};
      }
    }

    method HighestHeight() returns (h: nat)
      ensures h == Highest(Disk())
    {
      h := Highest(Disk());
    }

    /** There is a proof for exactly the heights of the chain, and it is the one on which the block
        there was accepted: its votes pass with the stakes of the state before. */
    method GetConsensus(h: nat) returns (proof: Option<Proof>)
      requires Valid()
      ensures proof.Some? <==> 1 <= h <= Highest(Disk())
      ensures proof.Some? ==>
        && h in consensusProofs && proof.value == consensusProofs[h]
        && h in history && (h == 1 || h - 1 in history)
        && BlockVerdict(rules, Written, StateAt(rules, Disk(), h - 1), history[h].header, proof.value) == Accept
    {
      hide Highest, Linked, ServesBelowTip, RowsMatch, BlockVerdict;
      assert 1 <= h <= Highest(Disk()) ==> CertifiedAt(rules, Written, Disk(), h);
      proof := if h in consensusProofs then Some(consensusProofs[h]) else None;
    }

    /** The cache may forget any blocks at any time. */
    method Evict(victims: set<nat>)
      requires Valid()
      modifies this`oldCache
      ensures Valid() && oldCache == old(oldCache) - victims
    {
      oldCache := oldCache - victims;
    }

    method GetBlock(h: nat) returns (blk: Option<Block>)
      requires Valid()
      modifies this`oldCache
      ensures Valid()
      ensures blk == if h in history then Some(history[h]) else None
      ensures oldCache == if h in history then old(oldCache)[h := history[h]] else old(oldCache)
    {
      if h in oldCache {
        assert oldCache == oldCache[h := history[h]];
        return Some(oldCache[h]);
      }
      blk := if h in history then Some(history[h]) else None;
      if blk.Some? {
        oldCache := oldCache[h := blk.value];
      }
    }

    /** Reconstructs the stake set at a height: genesis, then the selected rows, then one expiry. */
    method GetStakeset(h: nat) returns (stakeSet: StakeMap)
      ensures stakeSet == Indexed(rules, Disk(), h)
    {
      stakeSet := AddStakes(map[], rules.genesisStakes);
      stakeSet := AddStakes(stakeSet, RowsUpTo(Disk(), h));
      assert map[] + rules.genesisStakes == rules.genesisStakes;
      stakeSet := UnlockOld(stakeSet, Epoch(h));
    }

    static method AddStakes(stakes: StakeMap, more: StakeMap) returns (sum: StakeMap)
      ensures sum == stakes + more
    {
      sum := stakes;
      var todo := more.Keys;
      while todo != {}
        invariant todo <= more.Keys
        invariant forall x :: x in sum <==> x in stakes || (x in more && x !in todo)
        invariant forall x | x in sum :: sum[x] == if x in more && x !in todo then more[x] else stakes[x]
      {
        var x :| x in todo;
        sum := sum[x := more[x]];
        todo := todo - {x};
      }
    }

    method GetState(h: nat) returns (f: Fetched)
      requires Valid()
      modifies this`oldCache
      ensures Valid()
      ensures f == ReadState(rules, Disk(), h)
    {
      var blk := GetBlock(h);
      if blk == None {
        return Absent;
      }
      var stakeset := GetStakeset(h);
      f := Rebuild(blk.value, stakeset);
    }

    method HighestState() returns (f: Fetched)
      requires Valid()
      modifies this`oldCache
      ensures Valid()
      ensures f == ReadHighest(rules, Disk())
    {
      var h := HighestHeight();
      if h > 0 {
        f := GetState(h);
        if f == Absent {
          f := Abort;
        }
      } else {
        f := Found(Genesis(rules));
      }
    }

    /** The vote count of `apply_block`, as written. */
    method CountVotes(base: State, header: Header, proof: Proof) returns (verdict: Verdict)
      ensures verdict == BlockVerdict(rules, Written, base, header, proof)
    {
      hide Docs, Epoch;
      var total, present := 0, 0;
      var docs := Docs(base.stakes);
      var epoch := Epoch(header.height);
      ghost var keys := Signers(rules, header, proof);
      for i := 0 to |docs|
        invariant total == Total(docs[..i], epoch) < U128
        invariant present == RunningTotals(docs[..i], epoch, keys) < U128
      {
        var doc := docs[i];
        assert docs[..i + 1][..i] == docs[..i];
        PrefixCounts(docs, epoch, keys, i + 1);
        if epoch >= doc.eStart && epoch < doc.ePostEnd {
          total := total + doc.symsStaked;
          if total >= U128 {
            return Overflow;
          }
          if doc.pubkey in proof {
            if rules.verify(doc.pubkey, header, proof[doc.pubkey]) {
              present := present + total;
              if present >= U128 {
                return Overflow;
              }
            }
          }
        }
      }
      assert docs[..|docs|] == docs;
      if 2 * total >= U128 {
        return Overflow;
      }
      verdict := if present <= 2 * total / 3 then Reject else Accept;
    }

    /** Consumes a block: the tables move exactly as `ApplyOutcome` says, and on success the mempool
        is rebased onto the new tip and the waiters are notified once. */
    method ApplyBlock(blk: Block, proof: Proof) returns (outcome: Outcome)
      requires Valid()
      modifies this, mempool
      ensures Valid()
      ensures (outcome, Disk()) == ApplyOutcome(rules, Written, old(Disk()), blk, proof)
      ensures Extends(Disk(), old(Disk()))
      ensures outcome == Applied ==>
        && mempool.Value() == NewPool(NextUnsealed(StateAt(rules, Disk(), Highest(Disk()))))
        && mempool.Value().provisional.height == Highest(Disk()) + 1
        && mempool.Value().provisional.base == StateAt(rules, Disk(), Highest(Disk())).header.root
        && notified == old(notified) + 1
      ensures outcome != Applied ==> mempool.Value() == old(mempool.Value()) && notified == old(notified)
    {
      hide ValidChain, Extends, ReadHighest, Decide, Commit, Highest;
      ghost var before := Disk();
      ApplyKeepsChain(rules, Written, before, blk, proof);
      ApplyNeverLoses(rules, Written, before, blk, proof);
      var base := HighestState();
      if !base.Found? {
        return Aborted;
      }
      var decision := CheckBlock(base.state, blk, proof);
      if decision.Stop? {
        return decision.outcome;
      }
      var committed := SaveBlock(blk, proof);
      if !committed {
        return Refused(KeyConflict);
      }
      var next := HighestState();
      if !next.Found? {
        return Aborted;
      }
      mempool.Rebase(next.state);
      notified := notified + 1;
      ValidTipHeight(rules, Written, Disk());
      return Applied;
    }

    /** Everything `apply_block` checks before it stores anything. */
    method CheckBlock(base: State, blk: Block, proof: Proof) returns (decision: Decision)
      ensures decision == Decide(rules, Written, base, blk, proof)
    {
      hide BlockVerdict, ApplyToState;
      if blk.header.height != base.header.height + 1 {
        return Stop(Refused(WrongHeight));
      }
      var verdict := CountVotes(base, blk.header, proof);
      if verdict == Overflow {
        return Stop(Aborted);
      } else if verdict == Reject {
        return Stop(Refused(TooFewVotes));
      }
      var newState := ApplyToState(rules, base, blk);
      if newState == None {
        return Stop(Refused(BadBlock));
      }
      return Go(newState.value);
    }

    /** The SQL transaction: nothing is stored unless every insert succeeds. */
    method SaveBlock(blk: Block, proof: Proof) returns (committed: bool)
      modifies this`history, this`consensusProofs, this`stakes
      ensures committed == Commit(old(Disk()), blk, proof).Some?
      ensures Disk() == if committed then Commit(old(Disk()), blk, proof).value else old(Disk())
    {
      var h := blk.header.height;
      if h in history || h in consensusProofs {
        return false;
      }
      var rows := stakes;
      for i := 0 to |blk.transactions|
        invariant InsertRows(blk.header.network, h, blk.transactions[..i], stakes) == Some(rows)
      {
        var tx := blk.transactions[i];
        assert blk.transactions[..i + 1][..i] == blk.transactions[..i];
        if tx.kind == Stake && tx.data.Some? {
          if h >= STAKE_GATE || blk.header.network != Mainnet {
            if tx.hash in rows {
              ConflictIsFinal(blk.header.network, h, blk.transactions, stakes, i + 1);
              return false;
            }
            rows := rows[tx.hash := Row(h, tx.data.value)];
          }
        }
      }
      assert blk.transactions[..|blk.transactions|] == blk.transactions;
      history, consensusProofs, stakes := history[h := blk], consensusProofs[h := proof], rows;
      return true;
    }
  }

  /** No stored block is ever replaced. */
  lemma ApplyNeverLoses(r: Rules, tally: Tally, t: Tables, blk: Block, proof: Proof)
    ensures var t' := ApplyOutcome(r, tally, t, blk, proof).1;
            forall h | h in t.history :: h in t'.history && t'.history[h] == t.history[h]
  {
    hide ReadHighest, Decide, InsertRows;
  }

  lemma {:induction false} ConflictIsFinal(network: NetID, h: nat, txs: seq<Tx>, rows: map<TxHash, Row>, i: nat)
    requires i <= |txs| && InsertRows(network, h, txs[..i], rows) == None
    ensures InsertRows(network, h, txs, rows) == None
  {
    if i == |txs| {
      assert txs[..i] == txs;
    } else {
      assert txs[..|txs| - 1][..i] == txs[..i];
      ConflictIsFinal(network, h, txs[..|txs| - 1], rows, i);
    }
  }

  lemma {:induction false} PrefixCounts(docs: seq<StakeDoc>, epoch: nat, keys: set<PubKey>, i: nat)
    requires i <= |docs|
    ensures Total(docs[..i], epoch) <= Total(docs, epoch)
    ensures RunningTotals(docs[..i], epoch, keys) <= RunningTotals(docs, epoch, keys)
  {
    if i == |docs| {
      assert docs[..i] == docs;
    } else {
      assert docs[..|docs| - 1][..i] == docs[..i];
      PrefixCounts(docs[..|docs| - 1], epoch, keys, i);
    }
  }
}
