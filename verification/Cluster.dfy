/** Agreement between nodes that run in small steps. */
module Cluster {
  import opened Ledger
  import opened Quorum
  import opened Tables
  import opened Chain
  import opened Growth
  import opened Interleaving
  import opened Runs
  import A = Agreement
  import M = Machine

  /** Nodes with all their tasks, caches and locks, and everything signed so far. */
  datatype Cluster = Cluster(nodes: map<nat, M.Machine>, signed: A.Signatures)

  datatype Act =
    | Start(node: nat)
    | Sign(key: PubKey, header: Header)
    | Move(node: nat, step: M.Step)

  /** A node may take any of its steps, but a writer only has proofs whose good signatures were made. */
  ghost predicate Enabled(r: Rules, bad: set<PubKey>, c: Cluster, act: Act)
  {
    match act
    case Start(node) => node !in c.nodes
    case Sign(key, header) =>
      key in bad || forall s | s in c.signed && s.0 == key && s.1.height == header.height :: s.1 == header
    case Move(node, step) =>
      && node in c.nodes && M.Enabled(c.nodes[node], step)
      && (step.Run? ==> WriterUnforged(r, bad, c.signed, c.nodes[node], step.id))
  }

  ghost predicate WriterUnforged(r: Rules, bad: set<PubKey>, signed: A.Signatures, m: M.Machine, id: nat)
    requires id in m.tasks
  {
    m.tasks[id].Writer? ==> A.Unforged(r, bad, signed, m.tasks[id].blk.header, m.tasks[id].proof)
  }

  function Next(r: Rules, tally: Tally, c: Cluster, act: Act): Cluster
    requires act.Move? ==> act.node in c.nodes && M.Enabled(c.nodes[act.node], act.step)
  {
    match act
    case Start(node) => c.(nodes := c.nodes[node := M.Opened(r, M.NO_TABLES, {})])
    case Sign(key, header) => c.(signed := c.signed + {(key, header)})
    case Move(node, step) => c.(nodes := c.nodes[node := M.Next(r, tally, c.nodes[node], step)])
  }

  ghost predicate ActsTo(r: Rules, tally: Tally, bad: set<PubKey>, c: Cluster, c': Cluster)
  {
    exists act :: Enabled(r, bad, c, act) && c' == Next(r, tally, c, act)
  }

  ghost predicate IsRun(r: Rules, tally: Tally, bad: set<PubKey>, run: seq<Cluster>)
  {
    && |run| > 0 && run[0] == Cluster(map[], {})
    && forall i | 0 < i < |run| :: ActsTo(r, tally, bad, run[i - 1], run[i])
  }

  /** What the network of stores sees of the cluster. */
  function Stores(c: Cluster): A.Network
  {
    A.Network(MapValues((m: M.Machine) => m.tables, c.nodes), c.signed)
  }

  /** A step of a node, a crash included, does nothing to the stores or is one event of the network. */
  lemma StepSimulates(r: Rules, tally: Tally, bad: set<PubKey>, net: A.Network, n: nat, m: M.Machine, s: M.Step)
    requires Inv(r, tally, m) && M.Enabled(m, s) && n in net.stores && net.stores[n] == m.tables
    requires s.Run? ==> WriterUnforged(r, bad, net.signed, m, s.id)
    ensures var t := M.Next(r, tally, m, s).tables;
      t == m.tables || A.StepsTo(r, tally, bad, net, net.(stores := net.stores[n := t]))
  {
    var t := M.Next(r, tally, m, s).tables;
    if s.Crash? {
      CrashSimulates(r, tally, bad, net, n, m, s);
    } else if t != m.tables {
      hide Inv, M.Next, M.Enabled, ApplyOutcome, A.Unforged;
      CommitsAreAtomic(r, tally, m, s);
      var w := m.tasks[s.id];
      var e := A.Submit(n, w.blk, w.proof);
      assert A.Enabled(r, bad, net, e) && net.(stores := net.stores[n := t]) == A.Next(r, tally, net, e);
    }
  }

  lemma CrashSimulates(r: Rules, tally: Tally, bad: set<PubKey>, net: A.Network, n: nat, m: M.Machine, s: M.Step)
    requires M.Enabled(m, s) && s.Crash? && n in net.stores && net.stores[n] == m.tables
    ensures A.StepsTo(r, tally, bad, net, net.(stores := net.stores[n := M.Next(r, tally, m, s).tables]))
  {
    hide Truncate, OpenTables, Highest;
    var e := A.Crash(n, s.kept);
    assert A.Enabled(r, bad, net, e);
    assert net.(stores := net.stores[n := M.Next(r, tally, m, s).tables]) == A.Next(r, tally, net, e);
  }

  ghost predicate AllInv(r: Rules, tally: Tally, c: Cluster)
  {
    forall n | n in c.nodes :: Inv(r, tally, c.nodes[n])
  }

  /** The same for an act of the cluster. */
  lemma ActsToSimulates(r: Rules, tally: Tally, bad: set<PubKey>, c: Cluster, c': Cluster)
    requires AllInv(r, tally, c) && ActsTo(r, tally, bad, c, c')
    ensures AllInv(r, tally, c')
    ensures Stores(c') == Stores(c) || A.StepsTo(r, tally, bad, Stores(c), Stores(c'))
  {
    var act :| Enabled(r, bad, c, act) && c' == Next(r, tally, c, act);
    hide Enabled, Next, AllInv, Stores, A.StepsTo;
    ActKeepsAll(r, tally, bad, c, act);
    match act
    case Start(node) => JoinSimulates(r, tally, bad, c, node);
    case Sign(key, header) => SignSimulates(r, tally, bad, c, key, header);
    case Move(node, step) => MoveSimulates(r, tally, bad, c, node, step);
  }

  lemma ActKeepsAll(r: Rules, tally: Tally, bad: set<PubKey>, c: Cluster, act: Act)
    requires AllInv(r, tally, c) && Enabled(r, bad, c, act)
    ensures AllInv(r, tally, Next(r, tally, c, act))
  {
    hide Inv, M.Next, M.Enabled, A.Unforged, M.Opened;
    match act
    case Start(_) => FreshInv(r, tally);
    case Sign(_, _) =>
    case Move(node, step) => StepKeeps(r, tally, c.nodes[node], step);
  }

  lemma JoinSimulates(r: Rules, tally: Tally, bad: set<PubKey>, c: Cluster, node: nat)
    requires Enabled(r, bad, c, Start(node))
    ensures A.StepsTo(r, tally, bad, Stores(c), Stores(Next(r, tally, c, Start(node))))
  {
    FreshInv(r, tally);
    hide OpenTables, M.Opened, Inv;
    OneNode(c, node, M.Opened(r, M.NO_TABLES, {}));
    assert A.Enabled(r, bad, Stores(c), A.Join(node));
    assert Stores(Next(r, tally, c, Start(node))) == A.Next(r, tally, Stores(c), A.Join(node));
  }

  lemma OneNode(c: Cluster, node: nat, m: M.Machine)
    ensures Stores(c.(nodes := c.nodes[node := m])) == Stores(c).(stores := Stores(c).stores[node := m.tables])
  {
    assert Stores(c.(nodes := c.nodes[node := m])).stores == Stores(c).stores[node := m.tables];
  }

  lemma SignSimulates(r: Rules, tally: Tally, bad: set<PubKey>, c: Cluster, key: PubKey, header: Header)
    requires Enabled(r, bad, c, Sign(key, header))
    ensures A.StepsTo(r, tally, bad, Stores(c), Stores(Next(r, tally, c, Sign(key, header))))
  {
    assert A.Enabled(r, bad, Stores(c), A.Sign(key, header));
    assert Stores(Next(r, tally, c, Sign(key, header))) == A.Next(r, tally, Stores(c), A.Sign(key, header));
  }

  lemma MoveSimulates(r: Rules, tally: Tally, bad: set<PubKey>, c: Cluster, node: nat, step: M.Step)
    requires AllInv(r, tally, c) && Enabled(r, bad, c, Move(node, step))
    ensures var c' := Next(r, tally, c, Move(node, step));
      Stores(c') == Stores(c) || A.StepsTo(r, tally, bad, Stores(c), Stores(c'))
  {
    hide Inv, M.Next, M.Enabled, A.StepsTo, WriterUnforged;
    var t := M.Next(r, tally, c.nodes[node], step).tables;
    SameUnforged(r, bad, c, node, step);
    StepSimulates(r, tally, bad, Stores(c), node, c.nodes[node], step);
    OneNode(c, node, M.Next(r, tally, c.nodes[node], step));
    if t == c.nodes[node].tables {
      assert Stores(c).stores[node := t] == Stores(c).stores;
    }
  }

  lemma SameUnforged(r: Rules, bad: set<PubKey>, c: Cluster, node: nat, step: M.Step)
    requires Enabled(r, bad, c, Move(node, step))
    ensures step.Run? ==>
      step.id in c.nodes[node].tasks && WriterUnforged(r, bad, Stores(c).signed, c.nodes[node], step.id)
  {}

  lemma FreshInv(r: Rules, tally: Tally)
    ensures Inv(r, tally, M.Opened(r, M.NO_TABLES, {}))
    ensures M.Opened(r, M.NO_TABLES, {}).tables == OpenTables(r, M.NO_TABLES)
  {
    OpenedIsValid(r, tally);
  }

  lemma NoNodes(r: Rules, tally: Tally)
    ensures AllInv(r, tally, Cluster(map[], {}))
  {}

  lemma {:induction false} RunKeepsAll(r: Rules, tally: Tally, bad: set<PubKey>, run: seq<Cluster>, i: nat)
    requires IsRun(r, tally, bad, run) && i < |run|
    ensures AllInv(r, tally, run[i])
  {
    hide ActsTo, AllInv;
    if i == 0 {
      assert AllInv(r, tally, Cluster(map[], {})) by {
        NoNodes(r, tally);
      }
    } else {
      RunKeepsAll(r, tally, bad, run, i - 1);
      ActsToSimulates(r, tally, bad, run[i - 1], run[i]);
    }
  }

  /** Every run of the cluster is, in its stores, a run of the network: here with the two moments
      that correspond to `i` and `j`. */
  lemma {:induction false} ClusterRefinesNetwork(r: Rules, tally: Tally, bad: set<PubKey>, run: seq<Cluster>, i: nat,
                                                 j: nat)
    returns (nets: seq<A.Network>, k: nat)
    requires IsRun(r, tally, bad, run) && i <= j < |run|
    ensures A.IsRun(r, tally, bad, nets) && k < |nets|
    ensures nets[k] == Stores(run[i]) && nets[|nets| - 1] == Stores(run[j])
    decreases j
  {
    hide ActsTo, AllInv, A.StepsTo;
    if j == 0 {
      nets, k := [A.Network(map[], {})], 0;
    } else {
      nets, k := ClusterRefinesNetwork(r, tally, bad, run, if i < j then i else j - 1, j - 1);
      RunKeepsAll(r, tally, bad, run, j - 1);
      ActsToSimulates(r, tally, bad, run[j - 1], run[j]);
      if Stores(run[j]) != Stores(run[j - 1]) {
        nets := nets + [Stores(run[j])];
      }
      if i == j {
        k := |nets| - 1;
      }
    }
  }

  /** Nodes with any number of concurrent tasks, which crash at any of their steps, agree as the
      atomic stores do: what one holds at one time and another at another time is the same at every
      common height. */
  lemma ClusterAgreement(r: Rules, tally: Tally, bad: set<PubKey>, run: seq<Cluster>, i: nat, m: nat, j: nat, n: nat,
                         h: nat)
    requires IsRun(r, tally, bad, run) && i <= j < |run|
    requires m in run[i].nodes && n in run[j].nodes
    requires 1 <= h <= Highest(run[i].nodes[m].tables) && h <= Highest(run[j].nodes[n].tables)
    requires var a, b := run[i].nodes[m].tables, run[j].nodes[n].tables;
      && Dense(a) && Dense(b)
      && (   (A.BadMinority(r, bad, a, h) && A.SafeElectorates(r, tally, a, h))
          || (A.BadMinority(r, bad, b, h) && A.SafeElectorates(r, tally, b, h)))
    ensures run[i].nodes[m].tables.history[h].header == run[j].nodes[n].tables.history[h].header
  {
    hide IsRun, A.IsRun, A.BadMinority, A.SafeElectorates, Highest;
    var nets, k := ClusterRefinesNetwork(r, tally, bad, run, i, j);
    assert nets[k].stores[m] == run[i].nodes[m].tables && nets[|nets| - 1].stores[n] == run[j].nodes[n].tables;
    A.Agreement(r, tally, bad, nets, k, m, |nets| - 1, n, h);
  }
}
