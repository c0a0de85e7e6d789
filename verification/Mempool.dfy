/** The mempool: a provisional state on top of the last rebase point. */
module Mempool {
  import opened Ledger

  /** A state that still takes transactions. */
  datatype Unsealed = Unsealed(height: nat, base: Digest, stakes: StakeMap, ledger: Digest, applied: seq<Tx>)

  /** The external transaction check; a refused transaction leaves the state as it was. */
  type ApplyTx = (Unsealed, Tx) -> Option<Unsealed>

  const WEIGHT_LIMIT := 10_000_000

  /** SealedState::next_unsealed: the empty state of the next height. */
  function NextUnsealed(s: State): Unsealed
  {
    var height := s.header.height + 1;
    Unsealed(height, s.header.root, UnlockOld(s.stakes, Epoch(height)), s.header.root, [])
  }

  /** GenesisConfig::realize: the state the genesis configuration describes, at height 0. */
  function Realize(r: Rules): Unsealed
  {
    Unsealed(0, r.genesisRoot, r.genesisStakes, r.genesisRoot, [])
  }

  datatype Pool = Pool(provisional: Unsealed, lastRebase: Unsealed, seen: set<TxHash>, nextWeight: nat)

  datatype Answer = Accepted | Duplicate | Invalid | Full

  function NewPool(s: Unsealed): Pool
  {
    Pool(s, s, {}, 0)
  }

  /** The hash is remembered before the transaction is tried, so a failed one counts as seen. */
  function Insert(applyTx: ApplyTx, p: Pool, tx: Tx): (Answer, Pool)
  {
    if p.nextWeight >= WEIGHT_LIMIT then (Full, p)
    else if tx.hash in p.seen then (Duplicate, p)
    else
      var q := p.(seen := p.seen + {tx.hash});
      match applyTx(p.provisional, tx)
      case None => (Invalid, q)
      case Some(s) => (Accepted, q.(provisional := s, nextWeight := p.nextWeight + tx.weight))
  }

  class Mempool {
    const applyTx: ApplyTx
    var provisionalState: Unsealed
    var lastRebase: Unsealed
    var txxInState: set<TxHash>
    var nextWeight: nat

    function Value(): Pool
      reads this
    {
      Pool(provisionalState, lastRebase, txxInState, nextWeight)
    }

    constructor (applyTx: ApplyTx, state: Unsealed)
      ensures Value() == NewPool(state) && this.applyTx == applyTx
    {
      this.applyTx := applyTx;
      provisionalState := state;
      lastRebase := state;
      txxInState := {};
      nextWeight := 0;
    }

    method ApplyTransaction(tx: Tx) returns (answer: Answer)
      modifies this
      ensures (answer, Value()) == Insert(applyTx, old(Value()), tx)
    {
      if nextWeight < WEIGHT_LIMIT {
        if tx.hash in txxInState {
          return Duplicate;
        }
        txxInState := txxInState + {tx.hash};
        var next := applyTx(provisionalState, tx);
        if next == None {
          return Invalid;
        }
        provisionalState := next.value;
        nextWeight := nextWeight + tx.weight;
        return Accepted;
      } else {
        return Full;
      }
    }

    method Rebase(state: State)
      modifies this
      ensures Value() == NewPool(NextUnsealed(state))
    {
      var next := NextUnsealed(state);
      provisionalState := next;
      lastRebase := next;
      txxInState := {};
      nextWeight := 0;
    }
  }

  // ---- Runs of operations ----

  datatype Op = Try(tx: Tx) | RebaseTo(state: State)

  function Perform(applyTx: ApplyTx, p: Pool, op: Op): Pool
  {
    match op
    case Try(tx) => Insert(applyTx, p, tx).1
    case RebaseTo(state) => NewPool(NextUnsealed(state))
  }

  function Run(applyTx: ApplyTx, p: Pool, ops: seq<Op>): Pool
  {
    if ops == [] then p else Perform(applyTx, Run(applyTx, p, ops[..|ops| - 1]), ops[|ops| - 1])
  }

  lemma RunOneMore(applyTx: ApplyTx, p: Pool, ops: seq<Op>, op: Op)
    ensures Run(applyTx, p, ops + [op]) == Perform(applyTx, Run(applyTx, p, ops), op)
  {
    assert (ops + [op])[..|ops|] == ops;
  }

  /** The answer to the last operation of a run, if it was an attempt. */
  function LastAnswer(applyTx: ApplyTx, p: Pool, ops: seq<Op>): Option<Answer>
  {
    if ops == [] || ops[|ops| - 1].RebaseTo? then None
    else Some(Insert(applyTx, Run(applyTx, p, ops[..|ops| - 1]), ops[|ops| - 1].tx).0)
  }

  /** The transactions accepted since the last rebase, in order. */
  function AcceptedSince(applyTx: ApplyTx, p: Pool, ops: seq<Op>): seq<Tx>
  {
    if ops == [] || ops[|ops| - 1].RebaseTo? then [] else
    var before := AcceptedSince(applyTx, p, ops[..|ops| - 1]);
    if LastAnswer(applyTx, p, ops) == Some(Accepted) then before + [ops[|ops| - 1].tx] else before
  }

  /** The state the last rebase left behind. */
  function RebasePoint(start: Unsealed, ops: seq<Op>): Unsealed
  {
    if ops == [] then start
    else if ops[|ops| - 1].RebaseTo? then NextUnsealed(ops[|ops| - 1].state)
    else RebasePoint(start, ops[..|ops| - 1])
  }

  function ApplyAll(applyTx: ApplyTx, s: Unsealed, txs: seq<Tx>): Option<Unsealed>
  {
    if txs == [] then Some(s) else
    match ApplyAll(applyTx, s, txs[..|txs| - 1])
    case None => None
    case Some(t) => applyTx(t, txs[|txs| - 1])
  }

  function WeightOfAll(txs: seq<Tx>): nat
  {
    if txs == [] then 0 else WeightOfAll(txs[..|txs| - 1]) + txs[|txs| - 1].weight
  }

  /** The provisional state is the fold of `txs` over the last rebase point, no two of them have
      the same hash, all were seen, and the weight is exactly theirs and was below the limit before
      the last of them. */
  ghost predicate Consistent(applyTx: ApplyTx, p: Pool, txs: seq<Tx>)
  {
    && ApplyAll(applyTx, p.lastRebase, txs) == Some(p.provisional)
    && (forall i, j | 0 <= i < j < |txs| :: txs[i].hash != txs[j].hash)
    && (forall i | 0 <= i < |txs| :: txs[i].hash in p.seen)
    && p.nextWeight == WeightOfAll(txs)
    && (txs != [] ==> p.nextWeight < WEIGHT_LIMIT + txs[|txs| - 1].weight)
  }

  lemma InsertKeepsConsistent(applyTx: ApplyTx, p: Pool, txs: seq<Tx>, tx: Tx)
    requires Consistent(applyTx, p, txs)
    ensures var (answer, q) := Insert(applyTx, p, tx);
      Consistent(applyTx, q, if answer == Accepted then txs + [tx] else txs) && q.lastRebase == p.lastRebase
  {
    assert (txs + [tx])[..|txs|] == txs;
  }

  /** After any operations, the mempool is consistent with the transactions accepted since the last
      rebase. */
  lemma {:induction false} PoolInvariant(applyTx: ApplyTx, start: Unsealed, ops: seq<Op>)
    ensures var p := Run(applyTx, NewPool(start), ops);
      p.lastRebase == RebasePoint(start, ops) && Consistent(applyTx, p, AcceptedSince(applyTx, NewPool(start), ops))
  {
    if ops != [] && ops[|ops| - 1].Try? {
      hide Insert, Consistent;
      PoolInvariant(applyTx, start, ops[..|ops| - 1]);
      var before := ops[..|ops| - 1];
      var p, txs := Run(applyTx, NewPool(start), before), AcceptedSince(applyTx, NewPool(start), before);
      InsertKeepsConsistent(applyTx, p, txs, ops[|ops| - 1].tx);
    }
  }

  /** The hash was tried, successfully or not, while there was room, and no rebase came since. */
  ghost predicate TriedWithRoom(applyTx: ApplyTx, start: Unsealed, ops: seq<Op>, x: TxHash)
  {
    exists i | 0 <= i < |ops| && ops[i].Try? :: TriedAt(applyTx, start, ops, x, i)
  }

  ghost predicate TriedAt(applyTx: ApplyTx, start: Unsealed, ops: seq<Op>, x: TxHash, i: nat)
    requires i < |ops| && ops[i].Try?
  {
    && ops[i].tx.hash == x
    && Run(applyTx, NewPool(start), ops[..i]).nextWeight < WEIGHT_LIMIT
    && forall j | i < j < |ops| :: ops[j].Try?
  }

  /** What the mempool remembers is exactly what was tried with room since the last rebase. */
  lemma {:induction false} SeenIff(applyTx: ApplyTx, start: Unsealed, ops: seq<Op>, x: TxHash)
    ensures x in Run(applyTx, NewPool(start), ops).seen <==> TriedWithRoom(applyTx, start, ops, x)
  {
    if ops != [] {
      var last := |ops| - 1;
      var before := ops[..last];
      SeenIff(applyTx, start, before, x);
      TriedOneMore(applyTx, start, ops, x);
    }
  }

  lemma TriedOneMore(applyTx: ApplyTx, start: Unsealed, ops: seq<Op>, x: TxHash)
    requires ops != []
    ensures var last := |ops| - 1;
      var before := ops[..last];
      var room := Run(applyTx, NewPool(start), before).nextWeight < WEIGHT_LIMIT;
      var now := ops[last].Try? && ops[last].tx.hash == x && room;
      TriedWithRoom(applyTx, start, ops, x) <==> ops[last].Try? && (now || TriedWithRoom(applyTx, start, before, x))
  {
    hide Run;
    var last := |ops| - 1;
    var before := ops[..last];
    if ops[last].Try? {
      forall i: nat | i < last && ops[i].Try?
        ensures TriedAt(applyTx, start, ops, x, i) <==> TriedAt(applyTx, start, before, x, i)
      {
        assert before[..i] == ops[..i];
      }
      if TriedWithRoom(applyTx, start, before, x) {
        var i: nat :| i < |before| && before[i].Try? && TriedAt(applyTx, start, before, x, i);
        assert TriedAt(applyTx, start, ops, x, i);
      }
      assert TriedAt(applyTx, start, ops, x, last)
        <==> ops[last].tx.hash == x && Run(applyTx, NewPool(start), before).nextWeight < WEIGHT_LIMIT;
    }
  }

  /** Exactly which answer an attempt gets after any operations; in particular, exactly when it is
      accepted. */
  lemma AnswerExact(applyTx: ApplyTx, start: Unsealed, ops: seq<Op>, tx: Tx)
    ensures var p := Run(applyTx, NewPool(start), ops);
      var answer := LastAnswer(applyTx, NewPool(start), ops + [Try(tx)]).value;
      var room := WeightOfAll(AcceptedSince(applyTx, NewPool(start), ops)) < 10_000_000;
      var tried := TriedWithRoom(applyTx, start, ops, tx.hash);
      && (answer == Full <==> !room)
      && (answer == Duplicate <==> room && tried)
      && (answer == Invalid <==> room && !tried && applyTx(p.provisional, tx) == None)
      && (answer == Accepted <==> room && !tried && applyTx(p.provisional, tx).Some?)
  {
    assert (ops + [Try(tx)])[..|ops|] == ops;
    SeenIff(applyTx, start, ops, tx.hash);
    PoolInvariant(applyTx, start, ops);
  }

  /** What was tried once while there was room is never accepted again until the next rebase, even
      if the first attempt failed and would now succeed. */
  lemma TriedOnceOnly(applyTx: ApplyTx, start: Unsealed, before: seq<Op>, first: Tx, between: seq<Op>, again: Tx)
    requires Run(applyTx, NewPool(start), before).nextWeight < WEIGHT_LIMIT
    requires forall op | op in between :: op.Try?
    requires again.hash == first.hash
    ensures var ops := before + [Try(first)] + between + [Try(again)];
      LastAnswer(applyTx, NewPool(start), ops).value in {Duplicate, Full}
  {
    var ops := before + [Try(first)] + between;
    assert ops[..|before|] == before;
    forall j | |before| < j < |ops| ensures ops[j].Try? {
      assert ops[j] == between[j - |before| - 1] && between[j - |before| - 1] in between;
    }
    assert TriedAt(applyTx, start, ops, first.hash, |before|);
    AnswerExact(applyTx, start, ops, again);
  }

  /** A ledger in which the transaction 2 spends an output of the transaction 1. */
  function SpendsFirst(s: Unsealed, tx: Tx): Option<Unsealed>
  {
    if tx.hash == 2 && forall t | t in s.applied :: t.hash != 1 then None
    else Some(s.(applied := s.applied + [tx]))
  }

  /** A transaction arrives before the one it depends on, and is refused; the other is accepted; the
      retry, which would now succeed, is turned away as a duplicate. */
  lemma EarlyBirdIsBarred(start: Unsealed, parent: Tx, child: Tx)
    requires start.applied == [] && parent.hash == 1 && child.hash == 2 && parent.weight < WEIGHT_LIMIT
    ensures var pool := NewPool(start);
      && LastAnswer(SpendsFirst, pool, [Try(child)]) == Some(Invalid)
      && LastAnswer(SpendsFirst, pool, [Try(child), Try(parent)]) == Some(Accepted)
      && LastAnswer(SpendsFirst, pool, [Try(child), Try(parent), Try(child)]) == Some(Duplicate)
      && SpendsFirst(Run(SpendsFirst, pool, [Try(child), Try(parent)]).provisional, child).Some?
  {
    var one, two, three := [Try(child)], [Try(child), Try(parent)], [Try(child), Try(parent), Try(child)];
    assert one[..0] == [] && two[..1] == one && three[..2] == two;
    var pool := NewPool(start);
    assert Run(SpendsFirst, pool, one) == pool.(seen := {2});
    var after := Run(SpendsFirst, pool, two);
    assert after == Pool(start.(applied := [parent]), start, {2, 1}, parent.weight);
    assert after.provisional.applied[0].hash == 1;
  }

  // ---- The mempool against the chain ----

  /** A rebased mempool is where the next block starts from: at the next height, on the root of the
      state, with the stakes that block finds, to which it only adds its own. */
  lemma RebasedForNextBlock(r: Rules, s: State, blk: Block)
    requires ApplyToState(r, s, blk).Some?
    ensures var u, next := NextUnsealed(s), ApplyToState(r, s, blk).value;
      && u.height == blk.header.height == s.header.height + 1
      && u.base == s.header.root && u.ledger == s.header.root && u.applied == []
      && next.stakes == u.stakes + Admitted(r, blk.header.height, blk.transactions)
      && r.advance(u.base, u.height, blk.transactions, blk.proposerAction) == Some(next.header.root)
  {}

  /** The state the mempool is opened on is the genesis state of the chain, before it is sealed. */
  lemma RealizedIsGenesis(r: Rules)
    ensures var u, s := Realize(r), Genesis(r);
      && u.height == s.header.height == 0 && u.stakes == s.stakes == s.header.stakesHash == r.genesisStakes
      && u.base == u.ledger == s.header.root && u.applied == s.transactions == [] && s.header.txsHash == {}
      && s.header.network == r.network && s.proposerAction == None
  {}
}
