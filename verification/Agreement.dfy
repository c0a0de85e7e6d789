/** Agreement between the stores of one network, over every run. */
module Agreement {
  import opened Ledger
  import opened Quorum
  import opened Tables
  import opened Chain
  import opened Growth

  /** Everything ever signed: pairs of a key and a header. */
  type Signatures = set<(PubKey, Header)>

  /** A key outside `bad` signs at most one header per height. */
  ghost predicate OneHeaderPerHeight(bad: set<PubKey>, signed: Signatures)
  {
    forall a, b | a in signed && b in signed && a.0 == b.0 && a.0 !in bad && a.1.height == b.1.height ::
      a.1 == b.1
  }

  /** The valid signatures a proof carries, other than those of bad keys, were really made. */
  ghost predicate Unforged(r: Rules, bad: set<PubKey>, signed: Signatures, header: Header, proof: Proof)
  {
    forall pk | pk in Signers(r, header, proof) && pk !in bad :: (pk, header) in signed
  }

  ghost predicate ProofsUnforged(r: Rules, bad: set<PubKey>, signed: Signatures, t: Tables)
  {
    forall h | h in t.history && h in t.proofs :: Unforged(r, bad, signed, t.history[h].header, t.proofs[h])
  }

  /** The documents that elect block `h`. */
  ghost function Electorate(r: Rules, t: Tables, h: nat): seq<StakeDoc>
    requires Dense(t) && 1 <= h <= Highest(t)
  {
    Docs(StateAt(r, t, h - 1).stakes)
  }

  /** At every height up to `n` the bad keys hold at most a third of the eligible stake. */
  ghost predicate BadMinority(r: Rules, bad: set<PubKey>, t: Tables, n: nat)
    requires Dense(t) && n <= Highest(t)
  {
    forall h | 1 <= h <= n ::
      3 * Signed(Electorate(r, t, h), Epoch(h), bad) <= Total(Electorate(r, t, h), Epoch(h))
  }

  /** Every electorate up to `n` is one on which two quorums share a good key. */
  ghost predicate SafeElectorates(r: Rules, tally: Tally, t: Tables, n: nat)
    requires Dense(t) && n <= Highest(t)
  {
    forall h | 1 <= h <= n :: Safe(tally, Electorate(r, t, h), Epoch(h))
  }

  ghost predicate Unfaked(r: Rules, tally: Tally, bad: set<PubKey>, signed: Signatures, t: Tables)
  {
    ValidChain(r, tally, t) && ProofsUnforged(r, bad, signed, t)
  }

  lemma CertifiedByQuorum(r: Rules, tally: Tally, t: Tables, h: nat)
    requires ValidChain(r, tally, t) && 1 <= h <= Highest(t)
    ensures Passes(tally, Electorate(r, t, h), Epoch(h), Signers(r, t.history[h].header, t.proofs[h]))
  {
    hide Total, Signed, RunningTotals, Docs, Highest, RowsMatch, ServesBelowTip;
    assert CertifiedAt(r, tally, t, h) && LinkedAt(r, t, h);
  }

  /** On one electorate, safe and with a bad minority, two stores cannot certify different headers. */
  lemma HeadersAgreeAt(r: Rules, tally: Tally, bad: set<PubKey>, signed: Signatures, a: Tables, b: Tables, h: nat)
    requires OneHeaderPerHeight(bad, signed)
    requires Unfaked(r, tally, bad, signed, a) && Unfaked(r, tally, bad, signed, b)
    requires 1 <= h <= Highest(a) && h <= Highest(b)
    requires Electorate(r, a, h) == Electorate(r, b, h)
    requires 3 * Signed(Electorate(r, a, h), Epoch(h), bad) <= Total(Electorate(r, a, h), Epoch(h))
    requires Safe(tally, Electorate(r, a, h), Epoch(h))
    ensures a.history[h].header == b.history[h].header
  {
    hide Certified, ServesBelowTip, RowsMatch, ApplyToState, Highest, Docs, Passes, Signed, Total, Safe;
    assert LinkedAt(r, a, h) && LinkedAt(r, b, h);
    var x, y := a.history[h].header, b.history[h].header;
    CertifiedByQuorum(r, tally, a, h);
    CertifiedByQuorum(r, tally, b, h);
    var k := GoodKeyOfQuorums(tally, Electorate(r, a, h), Epoch(h),
                              Signers(r, x, a.proofs[h]), Signers(r, y, b.proofs[h]), bad);
    assert Unforged(r, bad, signed, x, a.proofs[h]) && Unforged(r, bad, signed, y, b.proofs[h]);
    assert (k, x) in signed && (k, y) in signed;
  }

  /** Any two stores hold the same header at every height they have in common, if the electorates
      up to there, as either one of the two stores has them, are safe with a bad minority. */
  lemma {:induction false} HistoriesAgree(r: Rules, tally: Tally, bad: set<PubKey>, signed: Signatures, a: Tables,
                                          b: Tables, h: nat)
    requires OneHeaderPerHeight(bad, signed)
    requires Unfaked(r, tally, bad, signed, a) && Unfaked(r, tally, bad, signed, b)
    requires 1 <= h <= Highest(a) && h <= Highest(b)
    requires BadMinority(r, bad, a, h) && SafeElectorates(r, tally, a, h)
    ensures a.history[h].header == b.history[h].header
    ensures StateAt(r, a, h).stakes == StateAt(r, b, h).stakes
    ensures forall tx :: tx in a.history[h].transactions <==> tx in b.history[h].transactions
    decreases h
  {
    hide Linked, Certified, ServesBelowTip, RowsMatch, Highest, Docs, Signed, Total, Safe, ProofsUnforged,
         OneHeaderPerHeight;
    if h > 1 {
      HistoriesAgree(r, tally, bad, signed, a, b, h - 1);
    }
    HeadersAgreeAt(r, tally, bad, signed, a, b, h);
    HeaderCommits(r, a, h);
    HeaderCommits(r, b, h);
  }

  // ---- Runs of a network ----

  /** The stores of a network of any size, and everything signed so far. */
  datatype Network = Network(stores: map<nat, Tables>, signed: Signatures)

  datatype Event =
    | Join(node: nat)
    | Sign(key: PubKey, header: Header)
    | Submit(node: nat, blk: Block, proof: Proof)
    | Crash(node: nat, kept: nat)

  ghost predicate Enabled(r: Rules, bad: set<PubKey>, net: Network, e: Event)
  {
    match e
    case Join(node) => node !in net.stores
    case Sign(key, header) =>
      key in bad || forall s | s in net.signed && s.0 == key && s.1.height == header.height :: s.1 == header
    case Submit(node, blk, proof) => node in net.stores && Unforged(r, bad, net.signed, blk.header, proof)
    case Crash(node, kept) => node in net.stores && kept <= Highest(net.stores[node])
  }

  /** A crash may take a store back to any earlier committed state. */
  ghost function Next(r: Rules, tally: Tally, net: Network, e: Event): Network
    requires e.Submit? || e.Crash? ==> e.node in net.stores
  {
    match e
    case Join(node) => net.(stores := net.stores[node := OpenTables(r, Tables(map[], map[], map[]))])
    case Sign(key, header) => net.(signed := net.signed + {(key, header)})
    case Submit(node, blk, proof) =>
      net.(stores := net.stores[node := ApplyOutcome(r, tally, net.stores[node], blk, proof).1])
    case Crash(node, kept) => net.(stores := net.stores[node := OpenTables(r, Truncate(net.stores[node], kept))])
  }

  ghost predicate IsRun(r: Rules, tally: Tally, bad: set<PubKey>, run: seq<Network>)
  {
    && |run| > 0 && run[0] == Network(map[], {})
    && forall i | 0 < i < |run| :: StepsTo(r, tally, bad, run[i - 1], run[i])
  }

  ghost predicate StepsTo(r: Rules, tally: Tally, bad: set<PubKey>, net: Network, net': Network)
  {
    exists e :: Enabled(r, bad, net, e) && net' == Next(r, tally, net, e)
  }

  ghost predicate NetInv(r: Rules, tally: Tally, bad: set<PubKey>, net: Network)
  {
    && OneHeaderPerHeight(bad, net.signed)
    && forall n | n in net.stores :: Unfaked(r, tally, bad, net.signed, net.stores[n])
  }

  lemma NextKeepsInv(r: Rules, tally: Tally, bad: set<PubKey>, net: Network, e: Event)
    requires NetInv(r, tally, bad, net) && Enabled(r, bad, net, e)
    ensures NetInv(r, tally, bad, Next(r, tally, net, e))
    ensures net.signed <= Next(r, tally, net, e).signed
  {
    hide ValidChain, ApplyOutcome, Truncate, Highest, Extends, OpenTables, Signers;
    match e
    case Join(node) =>
      OpenedUnforged(r, tally, bad, net.signed);
    case Sign(_, _) =>
    case Submit(node, blk, proof) =>
      SubmitUnforged(r, tally, bad, net.signed, net.stores[node], blk, proof);
    case Crash(node, kept) =>
      CrashUnforged(r, tally, bad, net.signed, net.stores[node], kept);
  }

  lemma OpenedUnforged(r: Rules, tally: Tally, bad: set<PubKey>, signed: Signatures)
    ensures var t := OpenTables(r, Tables(map[], map[], map[]));
            ValidChain(r, tally, t) && ProofsUnforged(r, bad, signed, t)
  {
    OpenedIsValid(r, tally);
  }

  lemma SubmitUnforged(r: Rules, tally: Tally, bad: set<PubKey>, signed: Signatures, t: Tables, blk: Block,
                       proof: Proof)
    requires ValidChain(r, tally, t) && ProofsUnforged(r, bad, signed, t) && Unforged(r, bad, signed, blk.header, proof)
    ensures var t' := ApplyOutcome(r, tally, t, blk, proof).1;
            ValidChain(r, tally, t') && ProofsUnforged(r, bad, signed, t')
  {
    hide ApplyOutcome, Linked, Certified, RowsMatch, ServesBelowTip, Unforged;
    ApplyKeepsChain(r, tally, t, blk, proof);
    var t' := ApplyOutcome(r, tally, t, blk, proof).1;
    forall h | h in t'.history && h in t'.proofs ensures Unforged(r, bad, signed, t'.history[h].header, t'.proofs[h]) {
      if h <= Highest(t) {
        ReadsAreImmutable(r, t, t', h);
      }
    }
  }

  lemma CrashUnforged(r: Rules, tally: Tally, bad: set<PubKey>, signed: Signatures, t: Tables, kept: nat)
    requires ValidChain(r, tally, t) && ProofsUnforged(r, bad, signed, t) && kept <= Highest(t)
    ensures var t' := OpenTables(r, Truncate(t, kept));
            ValidChain(r, tally, t') && ProofsUnforged(r, bad, signed, t')
  {
    TruncateValid(r, tally, t, kept);
    ReopenIsIdentity(r, Truncate(t, kept));
  }

  lemma {:induction false} RunKeepsInv(r: Rules, tally: Tally, bad: set<PubKey>, run: seq<Network>, i: nat, j: nat)
    requires IsRun(r, tally, bad, run) && i <= j < |run|
    ensures NetInv(r, tally, bad, run[j]) && run[i].signed <= run[j].signed
    decreases j
  {
    if j > 0 {
      RunKeepsInv(r, tally, bad, run, if i < j then i else j - 1, j - 1);
      var net, net' := run[j - 1], run[j];
      assert StepsTo(r, tally, bad, net, net');
      var e :| Enabled(r, bad, net, e) && net' == Next(r, tally, net, e);
      NextKeepsInv(r, tally, bad, net, e);
    }
  }

  /** Over every run of a network of any size, with crashes and rollbacks: what one node holds at
      one time and what another holds at another time agree at every common height, if the electorates
      up to there are safe with a bad minority on either of the two. */
  lemma Agreement(r: Rules, tally: Tally, bad: set<PubKey>, run: seq<Network>, i: nat, m: nat, j: nat, n: nat, h: nat)
    requires IsRun(r, tally, bad, run) && i <= j < |run|
    requires m in run[i].stores && n in run[j].stores
    requires 1 <= h <= Highest(run[i].stores[m]) && h <= Highest(run[j].stores[n])
    requires var a, b := run[i].stores[m], run[j].stores[n];
      && Dense(a) && Dense(b)
      && (   (BadMinority(r, bad, a, h) && SafeElectorates(r, tally, a, h))
          || (BadMinority(r, bad, b, h) && SafeElectorates(r, tally, b, h)))
    ensures run[i].stores[m].history[h].header == run[j].stores[n].history[h].header
  {
    hide ValidChain, BadMinority, SafeElectorates, Highest, Unforged;
    RunKeepsInv(r, tally, bad, run, i, i);
    RunKeepsInv(r, tally, bad, run, i, j);
    var a, b := run[i].stores[m], run[j].stores[n];
    assert ProofsUnforged(r, bad, run[j].signed, a) by {
      MoreSignatures(r, bad, run[i].signed, run[j].signed, a);
    }
    if BadMinority(r, bad, a, h) && SafeElectorates(r, tally, a, h) {
      HistoriesAgree(r, tally, bad, run[j].signed, a, b, h);
    } else {
      HistoriesAgree(r, tally, bad, run[j].signed, b, a, h);
    }
  }

  lemma MoreSignatures(r: Rules, bad: set<PubKey>, less: Signatures, more: Signatures, t: Tables)
    requires less <= more && ProofsUnforged(r, bad, less, t)
    ensures ProofsUnforged(r, bad, more, t)
  {}
}
