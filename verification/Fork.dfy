/** How two nodes come to hold different chains when the votes are counted as written. */
module Fork {
  import opened Ledger
  import opened Quorum
  import opened Tables
  import opened Chain
  import opened Growth
  import opened Agreement

  ghost predicate Reachable(r: Rules, tally: Tally, bad: set<PubKey>, net: Network)
  {
    exists run :: IsRun(r, tally, bad, run) && run[|run| - 1] == net
  }

  lemma ReachNext(r: Rules, tally: Tally, bad: set<PubKey>, net: Network, e: Event)
    requires Reachable(r, tally, bad, net) && Enabled(r, bad, net, e)
    ensures Reachable(r, tally, bad, Next(r, tally, net, e))
  {
    assert e.Submit? || e.Crash? ==> e.node in net.stores;
    hide Enabled, Next;
    var run :| IsRun(r, tally, bad, run) && run[|run| - 1] == net;
    var longer := run + [Next(r, tally, net, e)];
    forall i | 0 < i < |longer| ensures StepsTo(r, tally, bad, longer[i - 1], longer[i]) {
      if i < |run| {
        assert StepsTo(r, tally, bad, run[i - 1], run[i]);
      }
    }
    assert IsRun(r, tally, bad, longer);
  }

  function SignaturesOf(keys: set<PubKey>, header: Header): Signatures
  {
    set k | k in keys :: (k, header)
  }

  /** A set of keys signs a header; the good ones have not signed another at its height. */
  lemma {:induction false} SignAll(r: Rules, tally: Tally, bad: set<PubKey>, net: Network, keys: set<PubKey>,
                                   header: Header)
    requires Reachable(r, tally, bad, net)
    requires forall s | s in net.signed && s.0 in keys && s.0 !in bad && s.1.height == header.height :: s.1 == header
    ensures Reachable(r, tally, bad, net.(signed := net.signed + SignaturesOf(keys, header)))
    decreases keys
  {
    if keys == {} {
      assert net.signed + SignaturesOf(keys, header) == net.signed;
    } else {
      var k :| k in keys;
      var rest := net.(signed := net.signed + SignaturesOf(keys - {k}, header));
      SignAll(r, tally, bad, net, keys - {k}, header);
      ReachNext(r, tally, bad, rest, Sign(k, header));
      assert rest.signed + {(k, header)} == net.signed + SignaturesOf(keys, header);
    }
  }

  lemma MoreBad(r: Rules, tally: Tally, bad: set<PubKey>, worse: set<PubKey>, net: Network)
    requires Reachable(r, tally, bad, net) && bad <= worse
    ensures Reachable(r, tally, worse, net)
  {
    var run :| IsRun(r, tally, bad, run) && run[|run| - 1] == net;
    forall i | 0 < i < |run| ensures StepsTo(r, tally, worse, run[i - 1], run[i]) {
      assert StepsTo(r, tally, bad, run[i - 1], run[i]);
      MoreBadSteps(r, tally, bad, worse, run[i - 1], run[i]);
    }
    assert IsRun(r, tally, worse, run);
  }

  lemma MoreBadSteps(r: Rules, tally: Tally, bad: set<PubKey>, worse: set<PubKey>, net: Network, net': Network)
    requires StepsTo(r, tally, bad, net, net') && bad <= worse
    ensures StepsTo(r, tally, worse, net, net')
  {
    var e :| Enabled(r, bad, net, e) && net' == Next(r, tally, net, e);
    hide Next;
    assert Enabled(r, worse, net, e);
  }

  lemma ReachableInv(r: Rules, tally: Tally, bad: set<PubKey>, net: Network)
    requires Reachable(r, tally, bad, net)
    ensures NetInv(r, tally, bad, net)
  {
    var run :| IsRun(r, tally, bad, run) && run[|run| - 1] == net;
    hide IsRun, NetInv;
    RunKeepsInv(r, tally, bad, run, |run| - 1, |run| - 1);
  }

  /** How a key signs a header. */
  type Signing = (PubKey, Header) -> Sig

  function ProofBy(sign: Signing, keys: set<PubKey>, header: Header): (proof: Proof)
    ensures proof.Keys == keys && forall k | k in keys :: proof[k] == sign(k, header)
  {
    if keys == {} then map[] else
    var k := MaxOf(keys);
    ProofBy(sign, keys - {k}, header)[k := sign(k, header)]
  }

  ghost predicate SignsRight(r: Rules, sign: Signing)
  {
    forall k, header :: r.verify(k, header, sign(k, header))
  }

  /** The stake documents that elect the block on top of `t`, and the epoch they are counted at. */
  ghost function NextElectorate(r: Rules, t: Tables): seq<StakeDoc>
    requires Dense(t)
  {
    Docs(StateAt(r, t, Highest(t)).stakes)
  }

  function NextEpoch(t: Tables): nat
  {
    Epoch(Highest(t) + 1)
  }

  /** A next block that lacks nothing but votes. */
  ghost predicate Proposable(r: Rules, t: Tables, blk: Block)
    requires Dense(t)
  {
    && blk.header.height == Highest(t) + 1
    && ApplyToState(r, StateAt(r, t, Highest(t)), blk).Some?
    && InsertRows(r.network, Highest(t) + 1, blk.transactions, t.stakes).Some?
  }

  /** Counting this electorate does not overflow 128 bits. */
  ghost predicate AmountsFit(r: Rules, t: Tables)
    requires Dense(t)
  {
    (|NextElectorate(r, t)| + 2) * Total(NextElectorate(r, t), NextEpoch(t)) < U128
  }

  /** A chain whose tip can be read back. */
  ghost predicate Ripe(r: Rules, t: Tables)
  {
    Dense(t) && ValidChain(r, Written, t) && ReadHighest(r, t).Found?
  }

  ghost predicate QuorumOn(r: Rules, t: Tables, keys: set<PubKey>)
    requires Dense(t)
  {
    Passes(Written, NextElectorate(r, t), NextEpoch(t), keys)
  }

  /** The store `t` with one more block. */
  ghost predicate Appended(r: Rules, t': Tables, t: Tables, blk: Block, proof: Proof)
  {
    && ValidChain(r, Written, t') && Extends(t', t) && Highest(t') == Highest(t) + 1
    && Highest(t') in t'.history && t'.history[Highest(t')] == blk
    && Highest(t') in t'.proofs && t'.proofs[Highest(t')] == proof
  }

  /** Two blocks to choose from, which keys can sign and amounts do not overflow on. */
  ghost predicate Contested(r: Rules, sign: Signing, t: Tables, x: Block, y: Block)
  {
    && Ripe(r, t) && SignsRight(r, sign) && AmountsFit(r, t)
    && Proposable(r, t, x) && Proposable(r, t, y) && x.header != y.header
  }

  /** With the votes as written, a store takes the block on any quorum's signatures. */
  lemma TakesNextBlock(r: Rules, sign: Signing, t: Tables, blk: Block, keys: set<PubKey>)
    requires Ripe(r, t) && SignsRight(r, sign) && AmountsFit(r, t) && Proposable(r, t, blk) && QuorumOn(r, t, keys)
    ensures var proof := ProofBy(sign, keys, blk.header);
      Appended(r, ApplyOutcome(r, Written, t, blk, proof).1, t, blk, proof)
  {
    hide Linked, Certified, ServesBelowTip, RowsMatch, ApplyToState, InsertRows, Docs, Passes, Total, Epoch, Highest,
         ReadHighest, Decide, Commit, Truncate, BlockFits, StateAt;
    var proof := ProofBy(sign, keys, blk.header);
    HighestStateExact(r, Written, t);
    assert Signers(r, blk.header, proof) == keys;
    NoOverflow(r, t, keys);
    IsDecided(r, t, blk, proof);
    CommitKeepsChain(r, Written, t, blk, proof);
    assert ApplyOutcome(r, Written, t, blk, proof).1 == Commit(t, blk, proof).value;
  }

  lemma NoOverflow(r: Rules, t: Tables, keys: set<PubKey>)
    requires Dense(t) && AmountsFit(r, t) && QuorumOn(r, t, keys)
    ensures VoteVerdict(Written, NextElectorate(r, t), NextEpoch(t), keys) == Accept
  {
    hide Docs, Total, RunningTotals, Epoch, Highest, Dense;
    WrittenDominates(NextElectorate(r, t), NextEpoch(t), keys);
  }

  lemma IsDecided(r: Rules, t: Tables, blk: Block, proof: Proof)
    requires Sound(r, t) && Proposable(r, t, blk)
    requires VoteVerdict(Written, NextElectorate(r, t), NextEpoch(t), Signers(r, blk.header, proof)) == Accept
    ensures Decide(r, Written, StateAt(r, t, Highest(t)), blk, proof).Go?
    ensures Commit(t, blk, proof).Some?
  {
    hide VoteVerdict, InsertRows, Docs, Epoch, Highest, Linked, RowsMatch, Signers;
    TipHeight(r, t);
    assert Highest(t) + 1 !in t.history && Highest(t) + 1 !in t.proofs;
  }

  /** The bad keys hold at most a third of the stake that elects the next block. */
  ghost predicate MinorityNext(r: Rules, bad: set<PubKey>, t: Tables)
    requires Dense(t)
  {
    3 * Signed(NextElectorate(r, t), NextEpoch(t), bad) <= Total(NextElectorate(r, t), NextEpoch(t))
  }

  /** Two nodes have the chain `t` in common and differ at the next height, under a minority of
      bad keys. */
  ghost predicate ForksAfter(r: Rules, tally: Tally, bad: set<PubKey>, net: Network, m: nat, n: nat, t: Tables)
    requires Dense(t)
  {
    && Reachable(r, tally, bad, net) && m in net.stores && n in net.stores
    && MinorityNext(r, bad, t)
    && var a, b, h := net.stores[m], net.stores[n], Highest(t) + 1;
       && Extends(a, t) && Extends(b, t)
       && h in a.history && h in b.history && a.history[h].header != b.history[h].header
  }

  /** Signers of `a` sign one block and signers of `b` the other; only bad keys sign both. */
  lemma BothAreSigned(r: Rules, bad: set<PubKey>, net: Network, x: Header, y: Header, a: set<PubKey>, b: set<PubKey>)
    requires Reachable(r, Written, bad, net) && a * b <= bad && x.height == y.height
    requires forall s | s in net.signed :: s.1.height != x.height
    ensures Reachable(r, Written, bad, net.(signed := net.signed + SignaturesOf(a, x) + SignaturesOf(b, y)))
  {
    hide Reachable;
    SignAll(r, Written, bad, net, a, x);
    var net' := net.(signed := net.signed + SignaturesOf(a, x));
    forall s | s in net'.signed && s.0 in b && s.1.height == y.height ensures s.0 in bad {
      assert s in SignaturesOf(a, x) && s.0 in a * b;
    }
    SignAll(r, Written, bad, net', b, y);
  }

  lemma SignedByAll(r: Rules, sign: Signing, bad: set<PubKey>, signed: Signatures, header: Header, keys: set<PubKey>)
    requires SignaturesOf(keys, header) <= signed
    ensures Unforged(r, bad, signed, header, ProofBy(sign, keys, header))
  {
    forall k | k in keys ensures (k, header) in signed {
      assert (k, header) in SignaturesOf(keys, header);
    }
  }

  /** Two nodes hold the same chain, can read its tip, and nothing is signed for the next height. */
  ghost predicate AtCommonTip(r: Rules, bad: set<PubKey>, net: Network, m: nat, n: nat, t: Tables)
  {
    && Reachable(r, Written, bad, net) && m != n && m in net.stores && n in net.stores
    && net.stores[m] == t && net.stores[n] == t && Ripe(r, t)
    && forall s | s in net.signed :: s.1.height != Highest(t) + 1
  }

  lemma BothSubmit(r: Rules, bad: set<PubKey>, net: Network, m: nat, n: nat, t: Tables, x: Block, p: Proof, y: Block,
                   q: Proof)
    returns (net': Network)
    requires Reachable(r, Written, bad, net) && m != n && m in net.stores && n in net.stores
    requires net.stores[m] == t && net.stores[n] == t
    requires Unforged(r, bad, net.signed, x.header, p) && Unforged(r, bad, net.signed, y.header, q)
    ensures Reachable(r, Written, bad, net') && m in net'.stores && n in net'.stores
    ensures net'.stores[m] == ApplyOutcome(r, Written, t, x, p).1
    ensures net'.stores[n] == ApplyOutcome(r, Written, t, y, q).1
  {
    hide Reachable, ApplyOutcome, Unforged;
    ReachNext(r, Written, bad, net, Submit(m, x, p));
    var net1 := Next(r, Written, net, Submit(m, x, p));
    ReachNext(r, Written, bad, net1, Submit(n, y, q));
    net' := Next(r, Written, net1, Submit(n, y, q));
  }

  /** Two quorums with only bad keys in common can certify two blocks. */
  lemma QuorumsFork(r: Rules, sign: Signing, bad: set<PubKey>, net: Network, m: nat, n: nat, t: Tables,
                    x: Block, y: Block, a: set<PubKey>, b: set<PubKey>)
    returns (net': Network)
    requires AtCommonTip(r, bad, net, m, n, t) && Contested(r, sign, t, x, y)
    requires QuorumOn(r, t, a) && QuorumOn(r, t, b) && a * b <= bad
    ensures Reachable(r, Written, bad, net') && m in net'.stores && n in net'.stores
    ensures Appended(r, net'.stores[m], t, x, ProofBy(sign, a, x.header))
    ensures Appended(r, net'.stores[n], t, y, ProofBy(sign, b, y.header))
  {
    hide Reachable, ApplyOutcome, QuorumOn, AmountsFit, SignsRight, SignaturesOf, ProofBy, Unforged, Ripe, Highest,
         Appended, ApplyToState, InsertRows, StateAt, Dense;
    BothAreSigned(r, bad, net, x.header, y.header, a, b);
    var net0 := net.(signed := net.signed + SignaturesOf(a, x.header) + SignaturesOf(b, y.header));
    SignedByAll(r, sign, bad, net0.signed, x.header, a);
    SignedByAll(r, sign, bad, net0.signed, y.header, b);
    TakesNextBlock(r, sign, t, x, a);
    TakesNextBlock(r, sign, t, y, b);
    net' := BothSubmit(r, bad, net0, m, n, t, x, ProofBy(sign, a, x.header), y, ProofBy(sign, b, y.header));
  }

  lemma AppendedFork(r: Rules, sign: Signing, bad: set<PubKey>, net: Network, m: nat, n: nat, t: Tables, x: Block,
                     y: Block,
                     p: Proof, q: Proof)
    requires Contested(r, sign, t, x, y)
    requires Reachable(r, Written, bad, net) && m in net.stores && n in net.stores
    requires Appended(r, net.stores[m], t, x, p) && Appended(r, net.stores[n], t, y, q)
    requires MinorityNext(r, bad, t)
    ensures ForksAfter(r, Written, bad, net, m, n, t)
  {
    hide Reachable, ValidChain, Highest, Extends, MinorityNext, AmountsFit, SignsRight, ApplyToState, InsertRows,
         StateAt;
  }

  /** From two nodes on a common tip that honest keys alone have brought about, with two blocks to
      sign next and votes counted as written: a minority of bad keys can make nodes on that chain
      differ at the next height if and only if the electorate is not a safe one. */
  lemma ForkIff(r: Rules, sign: Signing, net: Network, m: nat, n: nat, t: Tables, x: Block, y: Block)
    requires AtCommonTip(r, {}, net, m, n, t) && Contested(r, sign, t, x, y)
    ensures !WrittenSafe(NextElectorate(r, t), NextEpoch(t))
       <==> exists bad, net', p, q :: ForksAfter(r, Written, bad, net', p, q, t)
  {
    if !WrittenSafe(NextElectorate(r, t), NextEpoch(t)) {
      UnsafeForks(r, sign, net, m, n, t, x, y);
    } else {
      forall bad, net', p, q ensures !ForksAfter(r, Written, bad, net', p, q, t) {
        SafeNeverForks(r, bad, net', p, q, t);
      }
    }
  }

  lemma UnsafeForks(r: Rules, sign: Signing, net: Network, m: nat, n: nat, t: Tables, x: Block, y: Block)
    requires AtCommonTip(r, {}, net, m, n, t) && Contested(r, sign, t, x, y)
    requires !WrittenSafe(NextElectorate(r, t), NextEpoch(t))
    ensures exists bad, net', p, q :: ForksAfter(r, Written, bad, net', p, q, t)
  {
    assert Dense(t);
    hide *;
    var a, b, bad := UnsafeNext(r, t);
    WorseTip(r, {}, bad, net, m, n, t);
    var net' := QuorumsFork(r, sign, bad, net, m, n, t, x, y, a, b);
    AppendedFork(r, sign, bad, net', m, n, t, x, y, ProofBy(sign, a, x.header), ProofBy(sign, b, y.header));
    assert ForksAfter(r, Written, bad, net', m, n, t);
  }

  /** The quorums an unsafe electorate allows, for the electorate of the next block. */
  lemma UnsafeNext(r: Rules, t: Tables) returns (a: set<PubKey>, b: set<PubKey>, bad: set<PubKey>)
    requires Dense(t) && !WrittenSafe(NextElectorate(r, t), NextEpoch(t))
    ensures QuorumOn(r, t, a) && QuorumOn(r, t, b) && MinorityNext(r, bad, t) && a * b <= bad
  {
    hide Dense, WrittenSafe, NextElectorate, NextEpoch, Passes, Signed, Total;
    a, b, bad := UnsafeQuorums(NextElectorate(r, t), NextEpoch(t));
  }

  lemma WorseTip(r: Rules, bad: set<PubKey>, worse: set<PubKey>, net: Network, m: nat, n: nat, t: Tables)
    requires AtCommonTip(r, bad, net, m, n, t) && bad <= worse
    ensures AtCommonTip(r, worse, net, m, n, t)
  {
    hide Reachable, Ripe, Highest;
    MoreBad(r, Written, bad, worse, net);
  }

  lemma SafeNeverForks(r: Rules, bad: set<PubKey>, net: Network, m: nat, n: nat, t: Tables)
    requires Dense(t) && WrittenSafe(NextElectorate(r, t), NextEpoch(t))
    ensures !ForksAfter(r, Written, bad, net, m, n, t)
  {
    hide WrittenSafe, Docs, Highest, Epoch, Signed, Total, Reachable, Extends, Linked, Certified, ServesBelowTip,
         RowsMatch, StateAt,
         OneHeaderPerHeight, ProofsUnforged;
    if ForksAfter(r, Written, bad, net, m, n, t) {
      ReachableInv(r, Written, bad, net);
      var a, b, h := net.stores[m], net.stores[n], Highest(t) + 1;
      assert Unfaked(r, Written, bad, net.signed, a) && Unfaked(r, Written, bad, net.signed, b);
      StatesAreImmutable(r, t, a, Highest(t));
      StatesAreImmutable(r, t, b, Highest(t));
      HeadersAgreeAt(r, Written, bad, net.signed, a, b, h);
    }
  }

  // ---- The failing input ----

  /** Two founders, of whom the second, with 1 of 101, is counted last. */
  function TwoFounders(): Rules
  {
    Rules(Custom(0), map[0 := StakeDoc(1, 0, 10, 100), 1 := StakeDoc(2, 0, 10, 1)], 0,
          (epoch, tx) => false,
          (root, height, txs, action) => Some(if action == None then 1 else 2),
          (key, header, sig) => sig == key)
  }

  function FirstBlock(action: Option<nat>): Block
  {
    var r := TwoFounders();
    Block(Header(r.network, 1, r.genesisStakes, {}, if action == None then 1 else 2), [], action)
  }

  function Fresh(r: Rules): Tables
  {
    OpenTables(r, Tables(map[], map[], map[]))
  }

  lemma TwoFreshNodes(r: Rules, bad: set<PubKey>)
    ensures AtCommonTip(r, bad, Network(map[0 := Fresh(r), 1 := Fresh(r)], {}), 0, 1, Fresh(r))
    ensures Highest(Fresh(r)) == 0 && Dense(Fresh(r))
  {
    hide ValidChain;
    OpenedIsValid(r, Written);
    var start := Network(map[], {});
    assert IsRun(r, Written, bad, [start]);
    ReachNext(r, Written, bad, start, Join(0));
    ReachNext(r, Written, bad, Network(map[0 := Fresh(r)], {}), Join(1));
    assert map[0 := Fresh(r)][1 := Fresh(r)] == map[0 := Fresh(r), 1 := Fresh(r)];
  }

  /** Two nodes end up with different blocks at height 1, each certified by the key that holds 1 of
      101 and no other; that key is the only bad one. */
  lemma SmallStakerForks() returns (net: Network)
    ensures var r := TwoFounders();
      && Dense(Fresh(r)) && ForksAfter(r, Written, {2}, net, 0, 1, Fresh(r))
      && Appended(r, net.stores[0], Fresh(r), FirstBlock(None), map[2 := 2])
      && Appended(r, net.stores[1], Fresh(r), FirstBlock(Some(0)), map[2 := 2])
      && Signed(NextElectorate(r, Fresh(r)), NextEpoch(Fresh(r)), {2}) == 1
      && Total(NextElectorate(r, Fresh(r)), NextEpoch(Fresh(r))) == 101
  {
    hide *;
    var r := TwoFounders();
    var sign := (k: PubKey, header: Header) => k;
    var x, y := FirstBlock(None), FirstBlock(Some(0));
    TwoFreshNodes(r, {2});
    FirstBlocksContested(sign);
    FoundersCount();
    net := QuorumsFork(r, sign, {2}, Network(map[0 := Fresh(r), 1 := Fresh(r)], {}), 0, 1, Fresh(r), x, y, {2}, {2});
    OneSignature(sign, x.header);
    OneSignature(sign, y.header);
    AppendedFork(r, sign, {2}, net, 0, 1, Fresh(r), x, y, map[2 := 2], map[2 := 2]);
  }

  lemma OneSignature(sign: Signing, header: Header)
    requires sign(2, header) == 2
    ensures ProofBy(sign, {2}, header) == map[2 := 2]
  {}

  lemma FirstBlocksContested(sign: Signing)
    requires forall k, header :: sign(k, header) == k
    ensures Contested(TwoFounders(), sign, Fresh(TwoFounders()), FirstBlock(None), FirstBlock(Some(0)))
  {
    hide Highest, ValidChain;
    FirstBlockIsProposable(None);
    FirstBlockIsProposable(Some(0));
    TwoFreshNodes(TwoFounders(), {});
    FoundersCount();
  }

  lemma FirstBlockIsProposable(action: Option<nat>)
    ensures Dense(Fresh(TwoFounders())) && Proposable(TwoFounders(), Fresh(TwoFounders()), FirstBlock(action))
  {
    var r := TwoFounders();
    TwoFreshNodes(r, {});
    hide Highest, AtCommonTip;
    assert UnlockOld(r.genesisStakes, Epoch(1)) + Admitted(r, 1, []) == r.genesisStakes;
  }

  lemma FoundersCount()
    ensures var r := TwoFounders();
      && Dense(Fresh(r)) && QuorumOn(r, Fresh(r), {2}) && AmountsFit(r, Fresh(r)) && MinorityNext(r, {2}, Fresh(r))
      && Signed(NextElectorate(r, Fresh(r)), NextEpoch(Fresh(r)), {2}) == 1
      && Total(NextElectorate(r, Fresh(r)), NextEpoch(Fresh(r))) == 101
  {
    hide Docs, Highest, Dense;
    var first, last := StakeDoc(1, 0, 10, 100), StakeDoc(2, 0, 10, 1);
    FoundersInOrder(first, last);
    TwoFreshNodes(TwoFounders(), {});
    assert NextElectorate(TwoFounders(), Fresh(TwoFounders())) == [first, last] && NextEpoch(Fresh(TwoFounders())) == 0;
    TwoCounted(first, last);
  }

  lemma TwoCounted(first: StakeDoc, last: StakeDoc)
    requires first == StakeDoc(1, 0, 10, 100) && last == StakeDoc(2, 0, 10, 1)
    ensures Total([first, last], 0) == RunningTotals([first, last], 0, {2}) == 101
    ensures Signed([first, last], 0, {2}) == 1
  {
    hide Total, Signed, RunningTotals;
    CountTwo(first, last, 0, {2});
  }

  lemma FoundersInOrder(first: StakeDoc, last: StakeDoc)
    ensures Docs(map[0 := first, 1 := last]) == [first, last]
  {
    LastDoc(map[], 0, first);
    LastDoc(map[0 := first], 1, last);
    assert [] + [first] + [last] == [first, last];
  }
}
