/** The replicated ledger as the node sees it: stake documents, blocks, sealed states and the
    state transition function.  Hashes are modelled as injective, so a header carries the very
    objects its hash fields commit to. */
module Ledger {

  type PubKey = nat
  type Sig = nat
  type TxHash = nat
  type Digest = nat

  datatype Option<+T> = None | Some(value: T)

  datatype NetID = Mainnet | Testnet | Custom(id: nat)

  datatype TxKind = Stake | OtherKind(tag: nat)

  datatype StakeDoc = StakeDoc(pubkey: PubKey, eStart: nat, ePostEnd: nat, symsStaked: nat)

  type StakeMap = map<TxHash, StakeDoc>

  /** `data` is the result of decoding the transaction's data field as a stake document. */
  datatype Tx = Tx(hash: TxHash, kind: TxKind, data: Option<StakeDoc>, weight: nat, body: Digest)

  /** `root` stands for every commitment of the header except the stakes and the transactions. */
  datatype Header = Header(network: NetID, height: nat, stakesHash: StakeMap, txsHash: set<Tx>, root: Digest)

  datatype Block = Block(header: Header, transactions: seq<Tx>, proposerAction: Option<nat>)

  type Proof = map<PubKey, Sig>

  datatype State = State(header: Header, stakes: StakeMap, transactions: seq<Tx>, proposerAction: Option<nat>)

  /** The largest element of a finite set of numbers. */
  function MaxOf(s: set<nat>): (m: nat)
    requires s != {}
    ensures m in s && forall k | k in s :: k <= m
  {
    MaxExists(s);
    var m :| m in s && forall k | k in s :: k <= m;
    m
  }

  lemma MaxExists(s: set<nat>)
    requires s != {}
    ensures exists m :: m in s && forall k | k in s :: k <= m
  {
    var x :| x in s;
    if s != {x} {
      MaxExists(s - {x});
      var m :| m in s - {x} && forall k | k in s - {x} :: k <= m;
      assert forall k | k in s :: k == x || k in s - {x};
      var top := if x <= m then m else x;
      assert top in s && forall k | k in s :: k <= top;
    }
  }

  /** Applies a function to every value of a map.  Written out, because the values a map
      comprehension has outside its domain are not to be relied on. */
  function MapValues<V, W>(f: V -> W, m: map<nat, V>): (out: map<nat, W>)
    ensures out.Keys == m.Keys && forall x | x in m :: out[x] == f(m[x])
  {
    if m == map[] then map[] else
    var x := MaxOf(m.Keys);
    MapValues(f, m - {x})[x := f(m[x])]
  }

  /** Everything the nodes of one network share: the genesis configuration and the external
      parts of the state transition function, left arbitrary. */
  datatype Rules = Rules(
    network: NetID,
    genesisStakes: StakeMap,
    genesisRoot: Digest,
    admits: (nat, Tx) -> bool,
    advance: (Digest, nat, seq<Tx>, Option<nat>) -> Option<Digest>,
    verify: (PubKey, Header, Sig) -> bool)

  const EPOCH_LENGTH := 200000
  const STAKE_GATE := 500000

  function Epoch(height: nat): nat
  {
    height / EPOCH_LENGTH
  }

  lemma EpochMonotone(h: nat, k: nat)
    requires h <= k
    ensures Epoch(h) <= Epoch(k)
  {}

  /** Whether stake transactions count at all at this height. */
  predicate Gate(network: NetID, height: nat)
  {
    height >= STAKE_GATE || network != Mainnet
  }

  /** The transactions for which `apply_block` writes a row into the `stakes` table. */
  predicate WritesRow(network: NetID, height: nat, tx: Tx)
  {
    tx.kind == Stake && tx.data.Some? && Gate(network, height)
  }

  /** The transactions through which the transition function itself adds a stake. */
  predicate AddsStake(r: Rules, height: nat, tx: Tx)
  {
    WritesRow(r.network, height, tx) && r.admits(Epoch(height), tx)
  }

  function Admitted(r: Rules, height: nat, txs: seq<Tx>): StakeMap
  {
    if txs == [] then map[] else
    var tx := txs[|txs| - 1];
    var before := Admitted(r, height, txs[..|txs| - 1]);
    if AddsStake(r, height, tx) then before[tx.hash := tx.data.value] else before
  }

  /** StakeSet::unlock_old: drop every stake that has expired by `epoch`. */
  function UnlockOld(stakes: StakeMap, epoch: nat): StakeMap
  {
    stakes - set x | x in stakes && stakes[x].ePostEnd <= epoch
  }

  function Genesis(r: Rules): State
  {
    State(Header(r.network, 0, r.genesisStakes, {}, r.genesisRoot), r.genesisStakes, [], None)
  }

  /** SealedState::apply_block: expire old stakes, apply the transactions, seal, and insist that
      the resulting header is the one the block carries. */
  function ApplyToState(r: Rules, s: State, blk: Block): Option<State>
  {
    var height := s.header.height + 1;
    var stakes := UnlockOld(s.stakes, Epoch(height)) + Admitted(r, height, blk.transactions);
    match r.advance(s.header.root, height, blk.transactions, blk.proposerAction)
    case None => None
    case Some(root) =>
      var txsHash := set tx | tx in blk.transactions;
      var header := Header(s.header.network, height, stakes, txsHash, root);
      if header == blk.header
      then Some(State(header, stakes, blk.transactions, blk.proposerAction))
      else None
  }

  /** SealedState::from_block: rebuild a state from a stored block and a stake set. */
  function FromBlock(blk: Block, stakes: StakeMap): State
  {
    State(blk.header, stakes, blk.transactions, blk.proposerAction)
  }

  /** The keys whose signature on the header is present and verifies. */
  function Signers(r: Rules, header: Header, proof: Proof): set<PubKey>
  {
    set pk | pk in proof && r.verify(pk, header, proof[pk])
  }

  /** The stake documents in the fixed order in which the stake tree enumerates them. */
  function Docs(stakes: StakeMap): seq<StakeDoc>
  {
    if stakes == map[] then [] else
    var x := MaxOf(stakes.Keys);
    Docs(stakes - {x}) + [stakes[x]]
  }

  lemma NoDocs()
    ensures Docs(map[]) == []
  {}

  /** A stake whose key is above all others is enumerated last. */
  lemma LastDoc(stakes: StakeMap, x: TxHash, doc: StakeDoc)
    requires forall y | y in stakes :: y < x
    ensures Docs(stakes[x := doc]) == Docs(stakes) + [doc]
  {
    var more := stakes[x := doc];
    assert x in more && MaxOf(more.Keys) == x;
    assert more - {x} == stakes;
  }
}
