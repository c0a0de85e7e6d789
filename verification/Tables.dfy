/** The SQLite tables of a node and what the storage reads from and writes to them. */
module Tables {
  import opened Ledger
  import opened Quorum

  datatype Row = Row(height: nat, doc: StakeDoc)

  datatype Tables = Tables(history: map<nat, Block>, proofs: map<nat, Proof>, stakes: map<TxHash, Row>)

  function GenesisRows(r: Rules): map<TxHash, Row>
  {
    MapValues((doc: StakeDoc) => Row(0, doc), r.genesisStakes)
  }

  /** Storage::open: create missing tables and insert the genesis stakes, keeping existing rows. */
  function OpenTables(r: Rules, t: Tables): Tables
  {
    t.(stakes := GenesisRows(r) + t.stakes)
  }

  function Highest(t: Tables): nat
  {
    if t.history.Keys == {} then 0 else MaxOf(t.history.Keys)
  }

  /** The stake rows the range query `height <= h` selects. */
  function RowsUpTo(t: Tables, h: nat): StakeMap
  {
    MapValues((row: Row) => row.doc, t.stakes - set x | x in t.stakes && h < t.stakes[x].height)
  }

  /** Storage::get_stakeset: genesis, then every row up to the height, then one single expiry. */
  function Indexed(r: Rules, t: Tables, h: nat): StakeMap
  {
    UnlockOld(r.genesisStakes + RowsUpTo(t, h), Epoch(h))
  }

  /** The result of reading a state.  A failed assertion aborts the whole process. */
  datatype Fetched = Absent | Abort | Found(state: State)

  /** The second half of Storage::get_state, once the block has been read. */
  function Rebuild(blk: Block, stakes: StakeMap): Fetched
  {
    if stakes == blk.header.stakesHash then Found(FromBlock(blk, stakes)) else Abort
  }

  function ReadState(r: Rules, t: Tables, h: nat): Fetched
  {
    if h in t.history then Rebuild(t.history[h], Indexed(r, t, h)) else Absent
  }

  /** Storage::highest_state, where an absent state aborts. */
  function ReadHighest(r: Rules, t: Tables): Fetched
  {
    var h := Highest(t);
    if h == 0 then Found(Genesis(r)) else
    match ReadState(r, t, h)
    case Absent => Abort
    case f => f
  }

  /** Whether a block's votes suffice on top of `base`. */
  function BlockVerdict(r: Rules, tally: Tally, base: State, header: Header, proof: Proof): Verdict
  {
    VoteVerdict(tally, Docs(base.stakes), Epoch(header.height), Signers(r, header, proof))
  }

  /** The stake rows after inserting those of `txs`; None if a primary key is already taken. */
  function InsertRows(network: NetID, height: nat, txs: seq<Tx>, rows: map<TxHash, Row>): Option<map<TxHash, Row>>
  {
    if txs == [] then Some(rows) else
    var tx := txs[|txs| - 1];
    match InsertRows(network, height, txs[..|txs| - 1], rows)
    case None => None
    case Some(before) =>
      if !WritesRow(network, height, tx) then Some(before)
      else if tx.hash in before then None
      else Some(before[tx.hash := Row(height, tx.data.value)])
  }

  /** The SQL transaction of `apply_block`: all three inserts, or nothing. */
  function Commit(t: Tables, blk: Block, proof: Proof): Option<Tables>
  {
    var h := blk.header.height;
    if h in t.history || h in t.proofs then None else
    match InsertRows(blk.header.network, h, blk.transactions, t.stakes)
    case None => None
    case Some(rows) => Some(Tables(t.history[h := blk], t.proofs[h := proof], rows))
  }

  datatype Refusal = WrongHeight | TooFewVotes | BadBlock | KeyConflict

  /** `Aborted` is the death of the process: an overflow, or a state that cannot be rebuilt. */
  datatype Outcome = Applied | Refused(why: Refusal) | Aborted

  /** What `apply_block` decides before touching the tables: the new state, or a final outcome. */
  datatype Decision = Go(next: State) | Stop(outcome: Outcome)

  function Decide(r: Rules, tally: Tally, base: State, blk: Block, proof: Proof): Decision
  {
    if blk.header.height != base.header.height + 1 then Stop(Refused(WrongHeight)) else
    match BlockVerdict(r, tally, base, blk.header, proof)
    case Overflow => Stop(Aborted)
    case Reject => Stop(Refused(TooFewVotes))
    case Accept =>
      match ApplyToState(r, base, blk)
      case None => Stop(Refused(BadBlock))
      case Some(next) => Go(next)
  }

  /** Storage::apply_block as one atomic step on the tables. */
  function ApplyOutcome(r: Rules, tally: Tally, t: Tables, blk: Block, proof: Proof): (Outcome, Tables)
  {
    match ReadHighest(r, t)
    case Absent => (Aborted, t)
    case Abort => (Aborted, t)
    case Found(base) =>
      match Decide(r, tally, base, blk, proof)
      case Stop(outcome) => (outcome, t)
      case Go(_) =>
        match Commit(t, blk, proof)
        case None => (Refused(KeyConflict), t)
        case Some(t') => (if ReadHighest(r, t').Found? then Applied else Aborted, t')
  }

  // ---- Facts about inserting rows ----

  /** Some transaction of the list writes this row. */
  ghost predicate WrittenBy(network: NetID, height: nat, txs: seq<Tx>, x: TxHash, doc: StakeDoc)
  {
    exists tx :: tx in txs && WritesRow(network, height, tx) && tx.hash == x && tx.data.value == doc
  }

  /** Inserting keeps every old row and adds a row for every stake transaction of the block. */
  lemma {:induction false} InsertedRows(network: NetID, height: nat, txs: seq<Tx>, rows: map<TxHash, Row>)
    requires InsertRows(network, height, txs, rows).Some?
    ensures var out := InsertRows(network, height, txs, rows).value;
      && (forall x | x in rows :: x in out && out[x] == rows[x])
      && (forall tx | tx in txs && WritesRow(network, height, tx) ::
            tx.hash !in rows && tx.hash in out && out[tx.hash] == Row(height, tx.data.value))
  {
    if txs != [] {
      var before, tx := txs[..|txs| - 1], txs[|txs| - 1];
      InsertedRows(network, height, before, rows);
      assert forall w :: w in txs <==> w in before || w == tx;
    }
  }

  /** And it adds nothing else. */
  lemma {:induction false} InsertedFrom(network: NetID, height: nat, txs: seq<Tx>, rows: map<TxHash, Row>, x: TxHash)
    requires InsertRows(network, height, txs, rows).Some?
    requires x in InsertRows(network, height, txs, rows).value && x !in rows
    ensures var row := InsertRows(network, height, txs, rows).value[x];
            row.height == height && WrittenBy(network, height, txs, x, row.doc)
  {
    var before, tx := txs[..|txs| - 1], txs[|txs| - 1];
    assert forall w :: w in txs <==> w in before || w == tx;
    if x in InsertRows(network, height, before, rows).value {
      InsertedFrom(network, height, before, rows, x);
    }
  }

  /** No two stake transactions of the list write the same primary key. */
  ghost predicate DistinctRows(network: NetID, height: nat, txs: seq<Tx>)
  {
    forall i, j | 0 <= i < j < |txs| && WritesRow(network, height, txs[i]) && WritesRow(network, height, txs[j]) ::
      txs[i].hash != txs[j].hash
  }

  /** A key that the last transaction finds taken, but that was free, was written by an earlier one. */
  lemma WrittenEarlier(network: NetID, height: nat, txs: seq<Tx>, rows: map<TxHash, Row>)
    requires txs != [] && InsertRows(network, height, txs[..|txs| - 1], rows).Some?
    requires WritesRow(network, height, txs[|txs| - 1]) && txs[|txs| - 1].hash !in rows
    requires txs[|txs| - 1].hash in InsertRows(network, height, txs[..|txs| - 1], rows).value
    ensures !DistinctRows(network, height, txs)
  {
    hide InsertRows, WritesRow;
    var before, last := txs[..|txs| - 1], |txs| - 1;
    InsertedFrom(network, height, before, rows, txs[last].hash);
    var w :| w in before && WritesRow(network, height, w) && w.hash == txs[last].hash;
    var i :| 0 <= i < last && before[i] == w;
    assert txs[i] == w;
  }

  /** The inserts of a block succeed exactly when its keys are new and distinct. */
  lemma {:induction false} InsertRowsSomeIff(network: NetID, height: nat, txs: seq<Tx>, rows: map<TxHash, Row>)
    ensures InsertRows(network, height, txs, rows).Some?
       <==> && DistinctRows(network, height, txs)
            && forall tx | tx in txs && WritesRow(network, height, tx) :: tx.hash !in rows
  {
    if txs != [] {
      var before, last := txs[..|txs| - 1], |txs| - 1;
      InsertRowsSomeIff(network, height, before, rows);
      assert forall w :: w in txs <==> w in before || w == txs[last];
      if InsertRows(network, height, before, rows).Some? {
        InsertedRows(network, height, before, rows);
        var mid := InsertRows(network, height, before, rows).value;
        if WritesRow(network, height, txs[last]) && txs[last].hash in mid && txs[last].hash !in rows {
          WrittenEarlier(network, height, txs, rows);
        }
      } else if DistinctRows(network, height, txs) {
        assert DistinctRows(network, height, before);
      }
    }
  }

  /** The stakes a block adds to the state are exactly those of its admitted stake transactions. */
  lemma {:induction false} AdmittedFrom(r: Rules, height: nat, txs: seq<Tx>, x: TxHash)
    ensures var m := Admitted(r, height, txs);
      && (x in m ==> exists tx :: tx in txs && AddsStake(r, height, tx) && tx.hash == x && tx.data.value == m[x])
      && (x in m <==> exists tx :: tx in txs && AddsStake(r, height, tx) && tx.hash == x)
  {
    if txs != [] {
      var before, tx := txs[..|txs| - 1], txs[|txs| - 1];
      AdmittedFrom(r, height, before, x);
      assert forall w :: w in txs <==> w in before || w == tx;
    }
  }

  /** Opening keeps every row there is, adds the founding stakes that are not there, and no more. */
  lemma OpenExact(r: Rules, t: Tables, x: TxHash)
    ensures var t' := OpenTables(r, t);
      && t'.history == t.history && t'.proofs == t.proofs
      && (x in t'.stakes <==> x in t.stakes || x in r.genesisStakes)
      && (x in t.stakes ==> t'.stakes[x] == t.stakes[x])
      && (x in r.genesisStakes && x !in t.stakes ==> t'.stakes[x] == Row(0, r.genesisStakes[x]))
  {}

  /** The SQL transaction goes through exactly if none of its keys is taken, in any of the three
      tables, and then adds the block, its proof and its rows. */
  lemma CommitExact(t: Tables, blk: Block, proof: Proof)
    ensures var h, network := blk.header.height, blk.header.network;
      && (Commit(t, blk, proof).Some?
          <==> && h !in t.history && h !in t.proofs
               && DistinctRows(network, h, blk.transactions)
               && (forall tx | tx in blk.transactions && WritesRow(network, h, tx) :: tx.hash !in t.stakes))
      && (Commit(t, blk, proof).Some? ==>
            var t' := Commit(t, blk, proof).value;
            && t'.history == t.history[h := blk] && t'.proofs == t.proofs[h := proof]
            && (forall x | x in t.stakes :: x in t'.stakes && t'.stakes[x] == t.stakes[x])
            && (forall tx | tx in blk.transactions && WritesRow(network, h, tx) ::
                  tx.hash in t'.stakes && t'.stakes[tx.hash] == Row(h, tx.data.value)))
  {
    hide InsertRows, WritesRow, DistinctRows;
    var h, network := blk.header.height, blk.header.network;
    InsertRowsSomeIff(network, h, blk.transactions, t.stakes);
    if InsertRows(network, h, blk.transactions, t.stakes).Some? {
      InsertedRows(network, h, blk.transactions, t.stakes);
    }
  }

  /** If several stake transactions of a block have one hash, the last admitted one counts. */
  lemma {:induction false} LastAdmitted(r: Rules, height: nat, txs: seq<Tx>, i: nat)
    requires i < |txs| && AddsStake(r, height, txs[i])
    requires forall j | i < j < |txs| && AddsStake(r, height, txs[j]) :: txs[j].hash != txs[i].hash
    ensures txs[i].hash in Admitted(r, height, txs) && Admitted(r, height, txs)[txs[i].hash] == txs[i].data.value
  {
    hide AddsStake;
    if i < |txs| - 1 {
      LastAdmitted(r, height, txs[..|txs| - 1], i);
    }
  }
}
