/** The invariant every store keeps, and what follows from it for historical reads. */
module Chain {
  import opened Ledger
  import opened Quorum
  import opened Tables

  /** The state after block `h`, as its header pins it down. */
  function StateAt(r: Rules, t: Tables, h: nat): State
    requires h == 0 || h in t.history
  {
    if h == 0 then Genesis(r) else FromBlock(t.history[h], t.history[h].header.stakesHash)
  }

  /** Heights run from 1 to the highest without a gap, each with its proof. */
  ghost predicate Dense(t: Tables)
  {
    && (forall h :: h in t.history <==> 1 <= h <= Highest(t))
    && (forall h :: h in t.proofs <==> h in t.history)
  }

  ghost predicate LinkedAt(r: Rules, t: Tables, h: nat)
    requires Dense(t) && 1 <= h <= Highest(t)
  {
    && t.history[h].header.height == h
    && t.history[h].header.network == r.network
    && ApplyToState(r, StateAt(r, t, h - 1), t.history[h]) == Some(StateAt(r, t, h))
  }

  /** Every block is the transition function's successor of its predecessor. */
  ghost predicate Linked(r: Rules, t: Tables)
    requires Dense(t)
  {
    forall h | 1 <= h <= Highest(t) :: LinkedAt(r, t, h)
  }

  ghost predicate CertifiedAt(r: Rules, tally: Tally, t: Tables, h: nat)
    requires Dense(t) && 1 <= h <= Highest(t)
  {
    BlockVerdict(r, tally, StateAt(r, t, h - 1), t.history[h].header, t.proofs[h]) == Accept
  }

  /** Every block's votes were accepted by the electorate of its predecessor. */
  ghost predicate Certified(r: Rules, tally: Tally, t: Tables)
    requires Dense(t)
  {
    forall h | 1 <= h <= Highest(t) :: CertifiedAt(r, tally, t, h)
  }

  /** The `stakes` table holds the genesis stakes and the row of every stake transaction, no more. */
  ghost predicate RowsMatch(r: Rules, t: Tables)
  {
    && (forall x | x in r.genesisStakes :: x in t.stakes && t.stakes[x] == Row(0, r.genesisStakes[x]))
    && (forall x | x in t.stakes && t.stakes[x].height == 0 :: x in r.genesisStakes)
    && (forall x | x in t.stakes && t.stakes[x].height > 0 ::
          var h := t.stakes[x].height;
          h in t.history && WrittenBy(r.network, h, t.history[h].transactions, x, t.stakes[x].doc))
    && (forall h, tx | h in t.history && tx in t.history[h].transactions && WritesRow(r.network, h, tx) ::
          tx.hash in t.stakes && t.stakes[tx.hash] == Row(h, tx.data.value))
    && (forall h | h in t.history :: DistinctRows(r.network, h, t.history[h].transactions))
  }

  ghost predicate Sound(r: Rules, t: Tables)
  {
    Dense(t) && Linked(r, t) && RowsMatch(r, t)
  }

  ghost predicate ServesAt(r: Rules, t: Tables, h: nat)
    requires Dense(t) && 1 <= h <= Highest(t)
  {
    Indexed(r, t, h) == StateAt(r, t, h).stakes
  }

  /** Every state below the tip can be rebuilt; the tip may still be waiting to be read. */
  ghost predicate ServesBelowTip(r: Rules, t: Tables)
    requires Dense(t)
  {
    forall h | 1 <= h < Highest(t) :: ServesAt(r, t, h)
  }

  ghost predicate ValidChain(r: Rules, tally: Tally, t: Tables)
  {
    Sound(r, t) && Certified(r, tally, t) && ServesBelowTip(r, t)
  }

  // ---- The stakes index against block-by-block evolution ----

  /** The transition function admitted the stake transaction that wrote this row. */
  ghost predicate RowAdmitted(r: Rules, t: Tables, x: TxHash)
    requires x in t.stakes
  {
    var h := t.stakes[x].height;
    h in t.history && exists tx :: tx in t.history[h].transactions && AddsStake(r, h, tx) && tx.hash == x
  }

  /** Row keys are distinct, so the transaction that wrote a row is the only one with its key. */
  lemma RowOfTx(r: Rules, t: Tables, h: nat, tx: Tx)
    requires RowsMatch(r, t) && h in t.history && tx in t.history[h].transactions && WritesRow(r.network, h, tx)
    ensures tx.hash in t.stakes && t.stakes[tx.hash] == Row(h, tx.data.value)
    ensures RowAdmitted(r, t, tx.hash) <==> AddsStake(r, h, tx)
  {
    var txs := t.history[h].transactions;
    if RowAdmitted(r, t, tx.hash) {
      var other :| other in txs && AddsStake(r, h, other) && other.hash == tx.hash;
      var i :| 0 <= i < |txs| && txs[i] == tx;
      var j :| 0 <= j < |txs| && txs[j] == other;
      assert DistinctRows(r.network, h, txs);
      assert i == j;
    }
  }

  /** A row is in the evolved stake set at `h`: it was admitted, and no expiry since has hit it. */
  ghost predicate Live(r: Rules, t: Tables, x: TxHash, h: nat)
    requires x in t.stakes
  {
    var row := t.stakes[x];
    && row.height <= h
    && (row.height == 0 || RowAdmitted(r, t, x))
    && (row.height == h || Epoch(h) < row.doc.ePostEnd)
  }

  lemma {:induction false} EvolvedStakes(r: Rules, t: Tables, h: nat, x: TxHash)
    requires Sound(r, t) && h <= Highest(t)
    ensures var s := StateAt(r, t, h).stakes;
      && (x in s <==> x in t.stakes && Live(r, t, x, h))
      && (x in s ==> s[x] == t.stakes[x].doc)
  {
    if h > 0 {
      EvolvedStakes(r, t, h - 1, x);
      assert LinkedAt(r, t, h);
      EpochMonotone(h - 1, h);
      var txs := t.history[h].transactions;
      AdmittedFrom(r, h, txs, x);
      var added := Admitted(r, h, txs);
      assert StateAt(r, t, h).stakes == UnlockOld(StateAt(r, t, h - 1).stakes, Epoch(h)) + added;
      if x in added {
        var tx :| tx in txs && AddsStake(r, h, tx) && tx.hash == x && tx.data.value == added[x];
        RowOfTx(r, t, h, tx);
      } else if x in t.stakes && t.stakes[x].height == h {
        var tx :| tx in txs && WritesRow(r.network, h, tx) && tx.hash == x && tx.data.value == t.stakes[x].doc;
        RowOfTx(r, t, h, tx);
      }
    }
  }

  lemma IndexedStakes(r: Rules, t: Tables, h: nat, x: TxHash)
    requires RowsMatch(r, t)
    ensures var s := Indexed(r, t, h);
      && (x in s <==> x in t.stakes && t.stakes[x].height <= h && Epoch(h) < t.stakes[x].doc.ePostEnd)
      && (x in s ==> s[x] == t.stakes[x].doc)
  {
    assert x in r.genesisStakes ==> x in RowsUpTo(t, h);
  }

  /** The transition function and the index treat this row alike at height `h`. */
  ghost predicate RowAgrees(r: Rules, t: Tables, x: TxHash, h: nat)
    requires x in t.stakes
  {
    var row := t.stakes[x];
    && (RowAdmitted(r, t, x) || row.doc.ePostEnd <= Epoch(h))
    && (row.height == h && RowAdmitted(r, t, x) ==> Epoch(h) < row.doc.ePostEnd)
  }

  lemma RowExactAt(r: Rules, t: Tables, h: nat, x: TxHash)
    requires Sound(r, t) && 1 <= h <= Highest(t)
    ensures var index, evolved := Indexed(r, t, h), StateAt(r, t, h).stakes;
      && ((x in index <==> x in evolved)
          <==> (x in t.stakes && 0 < t.stakes[x].height <= h ==> RowAgrees(r, t, x, h)))
      && (x in index && x in evolved ==> index[x] == evolved[x])
  {
    IndexedStakes(r, t, h, x);
    EvolvedStakes(r, t, h, x);
  }

  /** At one height, one range query with a single expiry gives the evolved stake set if and only
      if every row written so far is treated alike there. */
  lemma IndexExactAt(r: Rules, t: Tables, h: nat)
    requires Sound(r, t) && 1 <= h <= Highest(t)
    ensures ServesAt(r, t, h)
       <==> forall x | x in t.stakes && 0 < t.stakes[x].height <= h :: RowAgrees(r, t, x, h)
  {
    forall x: TxHash {
      RowExactAt(r, t, h, x);
    }
    ComparePointwise(Indexed(r, t, h), StateAt(r, t, h).stakes,
      x => x in t.stakes && 0 < t.stakes[x].height <= h ==> RowAgrees(r, t, x, h));
  }

  lemma ComparePointwise(a: StakeMap, b: StakeMap, same: TxHash -> bool)
    requires forall x :: (x in a <==> x in b) <==> same(x)
    requires forall x | x in a && x in b :: a[x] == b[x]
    ensures a == b <==> forall x :: same(x)
  {
    if a == b {
      forall x ensures same(x) {
        assert x in a <==> x in b;
      }
    }
  }

  /** Admission by the transition function coincides with not having expired yet. */
  predicate TxFits(r: Rules, height: nat, tx: Tx)
    requires tx.data.Some?
  {
    r.admits(Epoch(height), tx) <==> Epoch(height) < tx.data.value.ePostEnd
  }

  /** Every stake transaction the storage would write a row for fits.  This can be checked on the
      block alone, before it is applied. */
  predicate BlockFits(r: Rules, blk: Block)
  {
    forall tx | tx in blk.transactions && WritesRow(r.network, blk.header.height, tx) ::
      TxFits(r, blk.header.height, tx)
  }

  ghost predicate RowFits(r: Rules, t: Tables, x: TxHash)
    requires x in t.stakes
  {
    RowAdmitted(r, t, x) <==> Epoch(t.stakes[x].height) < t.stakes[x].doc.ePostEnd
  }

  lemma FittingRowAgrees(r: Rules, t: Tables, x: TxHash, h: nat)
    requires x in t.stakes && 0 < t.stakes[x].height <= h
    requires RowFits(r, t, x)
    ensures RowAgrees(r, t, x, h)
  {
    EpochMonotone(t.stakes[x].height, h);
  }

  lemma RowsOfFittingBlocks(r: Rules, t: Tables, h: nat)
    requires Sound(r, t) && h in t.history
    ensures BlockFits(r, t.history[h])
       <==> forall x | x in t.stakes && t.stakes[x].height == h :: RowFits(r, t, x)
  {
    assert LinkedAt(r, t, h);
    if BlockFits(r, t.history[h]) {
      forall x | x in t.stakes && t.stakes[x].height == h ensures RowFits(r, t, x) {
        var tx :| tx in t.history[h].transactions && WritesRow(r.network, h, tx) && tx.hash == x
                  && tx.data.value == t.stakes[x].doc;
        RowOfTx(r, t, h, tx);
      }
    } else {
      var tx :| tx in t.history[h].transactions && WritesRow(r.network, h, tx) && !TxFits(r, h, tx);
      RowOfTx(r, t, h, tx);
    }
  }

  /** Every stored state can be rebuilt from the index if and only if every stored block fits: the
      storage's approximation of stake validation is right exactly on the blocks whose stake
      transactions the transition function admits just when they have not expired. */
  lemma IndexRefinesReplayIff(r: Rules, t: Tables)
    requires Sound(r, t)
    ensures (forall h | 1 <= h <= Highest(t) :: ServesAt(r, t, h))
       <==> forall h | h in t.history :: BlockFits(r, t.history[h])
  {
    if forall h | h in t.history :: BlockFits(r, t.history[h]) {
      forall h | 1 <= h <= Highest(t) ensures ServesAt(r, t, h) {
        forall x | x in t.stakes && 0 < t.stakes[x].height <= h ensures RowAgrees(r, t, x, h) {
          RowsOfFittingBlocks(r, t, t.stakes[x].height);
          FittingRowAgrees(r, t, x, h);
        }
        IndexExactAt(r, t, h);
      }
    } else {
      var h :| h in t.history && !BlockFits(r, t.history[h]);
      RowsOfFittingBlocks(r, t, h);
      var x :| x in t.stakes && t.stakes[x].height == h && !RowFits(r, t, x);
      assert !RowAgrees(r, t, x, h);
      IndexExactAt(r, t, h);
    }
  }

  /** If every state below `h` can be rebuilt, then `h` can exactly when its own block fits. */
  lemma TipFitsIff(r: Rules, t: Tables, h: nat)
    requires Sound(r, t) && 1 <= h <= Highest(t)
    requires forall k | 1 <= k < h :: ServesAt(r, t, k)
    ensures ServesAt(r, t, h) <==> BlockFits(r, t.history[h])
  {
    IndexExactAt(r, t, h);
    RowsOfFittingBlocks(r, t, h);
    if BlockFits(r, t.history[h]) {
      forall x | x in t.stakes && 0 < t.stakes[x].height <= h ensures RowAgrees(r, t, x, h) {
        var k := t.stakes[x].height;
        if k < h {
          assert ServesAt(r, t, k);
          IndexExactAt(r, t, k);
          assert RowAgrees(r, t, x, k);
        }
        FittingRowAgrees(r, t, x, h);
      }
    } else {
      var x :| x in t.stakes && t.stakes[x].height == h && !RowFits(r, t, x);
      assert !RowAgrees(r, t, x, h);
    }
  }

  // ---- What a header commits to ----

  /** Every stored block's header holds the set of its transactions, the stakes after it, and the root
      that the transition function makes of its predecessor's. */
  lemma HeaderCommits(r: Rules, t: Tables, h: nat)
    requires Sound(r, t) && 1 <= h <= Highest(t)
    ensures var blk, before := t.history[h], StateAt(r, t, h - 1);
      && blk.header.height == h && blk.header.network == r.network
      && (forall tx :: tx in blk.header.txsHash <==> tx in blk.transactions)
      && blk.header.stakesHash == StateAt(r, t, h).stakes
      && r.advance(before.header.root, h, blk.transactions, blk.proposerAction) == Some(blk.header.root)
  {
    assert LinkedAt(r, t, h);
  }

  // ---- The gate for stakes ----

  /** On the main network no block below height 500000 writes a stake row or adds a stake, whatever it
      contains; and nowhere does any transaction but a stake transaction that carries a document. */
  lemma GateCloses(r: Rules, height: nat, tx: Tx)
    ensures r.network == Mainnet && height < 500000 ==> !WritesRow(r.network, height, tx) && !AddsStake(r, height, tx)
    ensures tx.kind != Stake || tx.data == None ==> !WritesRow(r.network, height, tx) && !AddsStake(r, height, tx)
    ensures tx.kind == Stake && tx.data.Some? && (r.network != Mainnet || height >= 500000) ==>
      WritesRow(r.network, height, tx) && (AddsStake(r, height, tx) <==> r.admits(height / 200000, tx))
  {}

  /** So on a valid chain every stake that is not a founding one comes from a stake transaction past
      the gate; below it, on the main network, the founding stakes are all there are. */
  lemma StakesPastTheGate(r: Rules, t: Tables, h: nat, x: TxHash)
    requires Sound(r, t) && h <= Highest(t) && x in StateAt(r, t, h).stakes
    ensures (x in r.genesisStakes && StateAt(r, t, h).stakes[x] == r.genesisStakes[x])
         || exists k, tx :: 0 < k <= h && k in t.history && tx in t.history[k].transactions && tx.hash == x
                            && tx.kind == Stake && tx.data == Some(StateAt(r, t, h).stakes[x])
                            && (r.network != Mainnet || k >= 500000)
    ensures r.network == Mainnet && h < 500000 ==> x in r.genesisStakes
  {
    hide Linked, Highest, Admitted;
    EvolvedStakes(r, t, h, x);
    var row := t.stakes[x];
    if row.height > 0 {
      var k := row.height;
      var tx :| tx in t.history[k].transactions && WritesRow(r.network, k, tx) && tx.hash == x
                && tx.data.value == row.doc;
      assert tx.data == Some(StateAt(r, t, h).stakes[x]);
    }
  }
}
