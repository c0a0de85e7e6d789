/** One transaction flooding through a network of nodes. */
module Flood {
  import opened Ledger
  import opened Mempool

  const FANOUT := 16

  /** The nodes' mempools, the copies of the transaction in flight (by destination), and how many
      were ever sent from node to node. */
  datatype Net = Net(pools: map<nat, Pool>, inflight: multiset<nat>, sends: nat)

  datatype Event =
    | Submit(node: nat)                        // a wallet hands the transaction in
    | Deliver(node: nat, recent: bool, peers: seq<nat>)   // `recent`: refused as seen within ten seconds
    | Lose(node: nat)                          // a copy is lost or its destination is unknown
    | OtherTx(node: nat, tx: Tx)
    | RebaseNode(node: nat, state: State)

  predicate Enabled(net: Net, tx: Tx, e: Event)
  {
    match e
    case Submit(_) => true
    case Deliver(node, _, peers) => node in net.pools && node in net.inflight
    case Lose(node) => node in net.inflight
    case OtherTx(node, other) => node in net.pools && other.hash != tx.hash
    case RebaseNode(node, _) => node in net.pools
  }

  /** send_tx: insert into the mempool, and forward to the first sixteen peers if it was accepted. */
  function Next(applyTx: ApplyTx, tx: Tx, net: Net, e: Event): Net
    requires Enabled(net, tx, e)
  {
    match e
    case Submit(node) => net.(inflight := net.inflight + multiset{node})
    case Deliver(node, recent, peers) =>
      var left := net.inflight - multiset{node};
      if recent then net.(inflight := left) else
      var (answer, pool) := Insert(applyTx, net.pools[node], tx);
      var targets := if answer != Accepted then [] else if |peers| <= FANOUT then peers else peers[..FANOUT];
      Net(net.pools[node := pool], left + multiset(targets), net.sends + |targets|)
    case Lose(node) => net.(inflight := net.inflight - multiset{node})
    case OtherTx(node, other) => net.(pools := net.pools[node := Insert(applyTx, net.pools[node], other).1])
    case RebaseNode(node, state) => net.(pools := net.pools[node := NewPool(NextUnsealed(state))])
  }

  ghost predicate IsRun(applyTx: ApplyTx, tx: Tx, run: seq<Net>, events: seq<Event>)
  {
    && |run| == |events| + 1 && run[0].inflight == multiset{} && run[0].sends == 0
    && forall i | 0 <= i < |events| :: Leads(applyTx, tx, run[i], events[i], run[i + 1])
  }

  predicate Leads(applyTx: ApplyTx, tx: Tx, net: Net, e: Event, net': Net)
  {
    Enabled(net, tx, e) && net' == Next(applyTx, tx, net, e)
  }

  function CountUntil(events: seq<Event>, counted: Event -> bool, i: nat): nat
    requires i <= |events|
  {
    if i == 0 then 0 else CountUntil(events, counted, i - 1) + if counted(events[i - 1]) then 1 else 0
  }

  /** Whether this event makes the node accept, and so forward, the transaction. */
  predicate ForwardsAt(applyTx: ApplyTx, tx: Tx, net: Net, e: Event, node: nat)
  {
    && e.Deliver? && e.node == node && !e.recent && node in net.pools
    && Insert(applyTx, net.pools[node], tx).0 == Accepted
  }

  function Forwards(applyTx: ApplyTx, tx: Tx, run: seq<Net>, events: seq<Event>, node: nat, i: nat): nat
    requires i <= |events| && |events| < |run|
  {
    if i == 0 then 0 else
    Forwards(applyTx, tx, run, events, node, i - 1)
    + if ForwardsAt(applyTx, tx, run[i - 1], events[i - 1], node) then 1 else 0
  }

  predicate IsUnseen(net: Net, tx: Tx, node: nat)
  {
    node in net.pools && tx.hash !in net.pools[node].seen
  }

  /** Only forgetting makes a node ready to accept, and accepting uses that up. */
  lemma StepOfNode(applyTx: ApplyTx, tx: Tx, net: Net, e: Event, node: nat)
    requires Enabled(net, tx, e)
    ensures var net' := Next(applyTx, tx, net, e);
      && (node in net'.pools <==> node in net.pools)
      && (IsUnseen(net', tx, node) ==> IsUnseen(net, tx, node) || (e.RebaseNode? && e.node == node))
      && (ForwardsAt(applyTx, tx, net, e, node) ==> IsUnseen(net, tx, node) && !IsUnseen(net', tx, node))
  {}

  lemma {:induction false} CountGrows(events: seq<Event>, counted: Event -> bool, i: nat, j: nat)
    requires i <= j <= |events|
    ensures CountUntil(events, counted, i) <= CountUntil(events, counted, j)
    ensures (forall k | i <= k < j :: !counted(events[k])) ==>
      CountUntil(events, counted, i) == CountUntil(events, counted, j)
    decreases j
  {
    if i < j {
      CountGrows(events, counted, i, j - 1);
    }
  }

  function RebasesOf(events: seq<Event>, node: nat, i: nat): nat
    requires i <= |events|
  {
    CountUntil(events, (e: Event) => e.RebaseNode? && e.node == node, i)
  }

  /** From any point of a run to any later one, each copy a node forwards is paid for by its not
      having seen the transaction at the start, or by one of its rebases in between. */
  lemma {:induction false} ForwardsArePaidFor(applyTx: ApplyTx, tx: Tx, run: seq<Net>, events: seq<Event>, node: nat,
                                              i: nat, j: nat)
    requires IsRun(applyTx, tx, run, events) && i <= j <= |events|
    ensures Forwards(applyTx, tx, run, events, node, j) + (if IsUnseen(run[j], tx, node) then 1 else 0)
         <= Forwards(applyTx, tx, run, events, node, i) + (if IsUnseen(run[i], tx, node) then 1 else 0)
            + RebasesOf(events, node, j) - RebasesOf(events, node, i)
    decreases j
  {
    if i < j {
      ForwardsArePaidFor(applyTx, tx, run, events, node, i, j - 1);
      assert Leads(applyTx, tx, run[j - 1], events[j - 1], run[j - 1 + 1]);
      hide Next, Enabled, IsUnseen, ForwardsAt;
      StepOfNode(applyTx, tx, run[j - 1], events[j - 1], node);
    }
  }

  /** In any stretch of a run without a rebase of its own, a node forwards the transaction at most
      once, and not at all if it had seen it before or is still to see it afterwards. */
  lemma ForwardsOncePerRebase(applyTx: ApplyTx, tx: Tx, run: seq<Net>, events: seq<Event>, node: nat, i: nat, j: nat)
    requires IsRun(applyTx, tx, run, events) && i <= j <= |events|
    requires forall k | i <= k < j :: !(events[k].RebaseNode? && events[k].node == node)
    ensures Forwards(applyTx, tx, run, events, node, j) - Forwards(applyTx, tx, run, events, node, i)
            + (if IsUnseen(run[j], tx, node) then 1 else 0)
         <= (if IsUnseen(run[i], tx, node) then 1 else 0)
  {
    hide IsRun, Forwards, IsUnseen, CountUntil;
    ForwardsArePaidFor(applyTx, tx, run, events, node, i, j);
    CountGrows(events, (e: Event) => e.RebaseNode? && e.node == node, i, j);
  }

  function Unseen(net: Net, tx: Tx): set<nat>
  {
    set n | n in net.pools && IsUnseen(net, tx, n)
  }

  /** The copies one event sends. */
  lemma StepSends(applyTx: ApplyTx, tx: Tx, net: Net, e: Event)
    requires Enabled(net, tx, e)
    ensures var net' := Next(applyTx, tx, net, e);
      && net.sends <= net'.sends
      && net'.sends - net.sends <= (if e.Deliver? && ForwardsAt(applyTx, tx, net, e, e.node) then FANOUT else 0)
      && |net'.inflight| + (if e.Deliver? || e.Lose? then 1 else 0)
         == |net.inflight| + (net'.sends - net.sends) + (if e.Submit? then 1 else 0)
  {
    hide Insert;
  }

  lemma StepUnseen(applyTx: ApplyTx, tx: Tx, net: Net, e: Event)
    requires Enabled(net, tx, e)
    ensures var net' := Next(applyTx, tx, net, e);
      && net'.pools.Keys == net.pools.Keys
      && |Unseen(net', tx)| + (if e.Deliver? && ForwardsAt(applyTx, tx, net, e, e.node) then 1 else 0)
         <= |Unseen(net, tx)| + (if e.RebaseNode? then 1 else 0)
  {
    hide Next, Enabled, IsUnseen, ForwardsAt;
    var net' := Next(applyTx, tx, net, e);
    var a, b := Unseen(net, tx), Unseen(net', tx);
    forall n
      ensures n in net'.pools <==> n in net.pools
      ensures n in b ==> n in a || (e.RebaseNode? && e.node == n)
      ensures ForwardsAt(applyTx, tx, net, e, n) ==> IsUnseen(net, tx, n) && !IsUnseen(net', tx, n)
    {
      StepOfNode(applyTx, tx, net, e, n);
    }
    if e.RebaseNode? {
      SmallerSet(b, a + {e.node});
    } else if e.Deliver? && ForwardsAt(applyTx, tx, net, e, e.node) {
      assert e.node in net.pools by {
        DeliveredToNode(applyTx, tx, net, e);
      }
      SmallerSet(b, a - {e.node});
    } else {
      SmallerSet(b, a);
    }
  }

  lemma DeliveredToNode(applyTx: ApplyTx, tx: Tx, net: Net, e: Event)
    requires e.Deliver? && ForwardsAt(applyTx, tx, net, e, e.node)
    ensures e.node in net.pools
  {}

  /** One step of a run. */
  lemma StepOfRun(applyTx: ApplyTx, tx: Tx, run: seq<Net>, events: seq<Event>, i: nat)
    requires IsRun(applyTx, tx, run, events) && 0 < i <= |events|
    ensures Enabled(run[i - 1], tx, events[i - 1]) && run[i] == Next(applyTx, tx, run[i - 1], events[i - 1])
  {
    hide Next, Enabled;
    assert Leads(applyTx, tx, run[i - 1], events[i - 1], run[i - 1 + 1]);
  }

  /** Every node starts with at most one forwarding to make, and gets another only by a rebase. */
  lemma {:induction false} SendsArePaidFor(applyTx: ApplyTx, tx: Tx, run: seq<Net>, events: seq<Event>, i: nat)
    requires IsRun(applyTx, tx, run, events) && i <= |events|
    ensures var rebases := CountUntil(events, (e: Event) => e.RebaseNode?, i);
      && run[i].pools.Keys == run[0].pools.Keys
      && run[i].sends + FANOUT * |Unseen(run[i], tx)| <= FANOUT * (|run[0].pools| + rebases)
  {
    hide Next, Enabled, Unseen, ForwardsAt;
    if i == 0 {
      UnseenAtMostAll(run[0], tx);
    } else {
      SendsArePaidFor(applyTx, tx, run, events, i - 1);
      StepOfRun(applyTx, tx, run, events, i);
      hide IsRun;
      StepSends(applyTx, tx, run[i - 1], events[i - 1]);
      StepUnseen(applyTx, tx, run[i - 1], events[i - 1]);
    }
  }

  /** No copy appears or disappears: what was delivered or lost or is under way was handed in or sent. */
  lemma {:induction false} CopiesAreConserved(applyTx: ApplyTx, tx: Tx, run: seq<Net>, events: seq<Event>, i: nat)
    requires IsRun(applyTx, tx, run, events) && i <= |events|
    ensures CountUntil(events, (e: Event) => e.Deliver? || e.Lose?, i) + |run[i].inflight|
         == CountUntil(events, (e: Event) => e.Submit?, i) + run[i].sends
  {
    hide Next, Enabled, ForwardsAt;
    if i > 0 {
      CopiesAreConserved(applyTx, tx, run, events, i - 1);
      StepOfRun(applyTx, tx, run, events, i);
      hide IsRun;
      StepSends(applyTx, tx, run[i - 1], events[i - 1]);
    }
  }

  /** The flood dies out: over any number of nodes and any peer graph, the copies sent are at most
      sixteen per node and rebase, and no more copies are delivered or lost than were handed in or
      sent. */
  lemma FloodIsBounded(applyTx: ApplyTx, tx: Tx, run: seq<Net>, events: seq<Event>, i: nat)
    requires IsRun(applyTx, tx, run, events) && i <= |events|
    ensures var rebases := CountUntil(events, (e: Event) => e.RebaseNode?, i);
      var submitted := CountUntil(events, (e: Event) => e.Submit?, i);
      var consumed := CountUntil(events, (e: Event) => e.Deliver? || e.Lose?, i);
      && run[i].pools.Keys == run[0].pools.Keys
      && run[i].sends + FANOUT * |Unseen(run[i], tx)| <= FANOUT * (|run[0].pools| + rebases)
      && consumed + |run[i].inflight| == submitted + run[i].sends
      && consumed <= submitted + FANOUT * (|run[0].pools| + rebases)
  {
    hide IsRun, CountUntil, Unseen;
    SendsArePaidFor(applyTx, tx, run, events, i);
    CopiesAreConserved(applyTx, tx, run, events, i);
  }

  lemma UnseenAtMostAll(net: Net, tx: Tx)
    ensures |Unseen(net, tx)| <= |net.pools|
  {
    SmallerSet(Unseen(net, tx), net.pools.Keys);
    assert |net.pools.Keys| == |net.pools|;
  }

  lemma {:induction false} SmallerSet(a: set<nat>, b: set<nat>)
    requires a <= b
    ensures |a| <= |b|
    decreases b
  {
    if a != {} {
      var x :| x in a;
      SmallerSet(a - {x}, b - {x});
    }
  }

  // ---- Where the copies go ----

  /** A node that accepts the transaction sends one copy to each of its first sixteen peers. */
  lemma ForwardsToPeers(applyTx: ApplyTx, tx: Tx, net: Net, e: Event)
    requires Enabled(net, tx, e) && e.Deliver?
    ensures var net' := Next(applyTx, tx, net, e);
      var firstPeers := if |e.peers| <= 16 then e.peers else e.peers[..16];
      if ForwardsAt(applyTx, tx, net, e, e.node)
      then && net'.inflight == net.inflight - multiset{e.node} + multiset(firstPeers)
           && net'.sends == net.sends + |firstPeers|
      else net'.inflight == net.inflight - multiset{e.node} && net'.sends == net.sends
  {}

  /** How many copies to node `n` the forwarding deliveries among the first `i` events call for. */
  function CalledFor(applyTx: ApplyTx, tx: Tx, run: seq<Net>, events: seq<Event>, n: nat, i: nat): nat
    requires i <= |events| && |events| < |run|
  {
    if i == 0 then 0 else
    var e := events[i - 1];
    CalledFor(applyTx, tx, run, events, n, i - 1)
    + if e.Deliver? && ForwardsAt(applyTx, tx, run[i - 1], e, e.node)
      then multiset(if |e.peers| <= 16 then e.peers else e.peers[..16])[n] else 0
  }

  lemma StepInflight(applyTx: ApplyTx, tx: Tx, net: Net, e: Event, n: nat)
    requires Enabled(net, tx, e)
    ensures Next(applyTx, tx, net, e).inflight[n] + (if (e.Deliver? || e.Lose?) && e.node == n then 1 else 0)
         == net.inflight[n] + (if e.Submit? && e.node == n then 1 else 0)
            + if e.Deliver? && ForwardsAt(applyTx, tx, net, e, e.node)
              then multiset(if |e.peers| <= 16 then e.peers else e.peers[..16])[n] else 0
  {
    hide Insert;
  }

  /** Node by node: what was delivered to it or lost on the way to it, or is still under way, is what
      was handed in there and what accepting nodes that have it among their first sixteen peers sent. */
  lemma {:induction false} CopiesReachPeers(applyTx: ApplyTx, tx: Tx, run: seq<Net>, events: seq<Event>, n: nat, i: nat)
    requires IsRun(applyTx, tx, run, events) && i <= |events|
    ensures CountUntil(events, (e: Event) => (e.Deliver? || e.Lose?) && e.node == n, i) + run[i].inflight[n]
         == CountUntil(events, (e: Event) => e.Submit? && e.node == n, i) + CalledFor(applyTx, tx, run, events, n, i)
  {
    hide Next, Enabled, ForwardsAt;
    if i > 0 {
      CopiesReachPeers(applyTx, tx, run, events, n, i - 1);
      StepOfRun(applyTx, tx, run, events, i);
      hide IsRun;
      StepInflight(applyTx, tx, run[i - 1], events[i - 1], n);
    }
  }

  /** The flood spreads: if no copy is lost or refused as recent, and none is left under way at the
      end, then after every forwarding each of the first sixteen peers was handed the transaction, and
      from then has seen it unless its mempool was full. */
  lemma FloodSpreads(applyTx: ApplyTx, tx: Tx, run: seq<Net>, events: seq<Event>, k: nat, n: nat) returns (j: nat)
    requires IsRun(applyTx, tx, run, events) && k < |events|
    requires forall i | 0 <= i < |events| :: !events[i].Lose? && (events[i].Deliver? ==> !events[i].recent)
    requires run[|events|].inflight == multiset{}
    requires var e := events[k]; e.Deliver? && ForwardsAt(applyTx, tx, run[k], e, e.node)
    requires var e := events[k]; n in (if |e.peers| <= 16 then e.peers else e.peers[..16])
    ensures k < j < |events| && events[j].Deliver? && events[j].node == n
    ensures n in run[j].pools && n in run[j + 1].pools
    ensures tx.hash in run[j + 1].pools[n].seen || run[j].pools[n].nextWeight >= 10_000_000
  {
    hide Next, Enabled, ForwardsAt;
    StepOfRun(applyTx, tx, run, events, k + 1);
    StepInflight(applyTx, tx, run[k], events[k], n);
    SomebodyToDeliver(run[k], tx, events[k]);
    j := NextDelivery(applyTx, tx, run, events, n, k + 1);
    StepOfRun(applyTx, tx, run, events, j + 1);
    HandedIn(applyTx, tx, run[j], events[j]);
  }

  lemma SomebodyToDeliver(net: Net, tx: Tx, e: Event)
    requires Enabled(net, tx, e) && e.Deliver?
    ensures net.inflight[e.node] > 0
  {}

  /** A copy under way, none of which is left at the end, is taken up by some event. */
  lemma {:induction false} NextDelivery(applyTx: ApplyTx, tx: Tx, run: seq<Net>, events: seq<Event>, n: nat, i: nat)
    returns (j: nat)
    requires IsRun(applyTx, tx, run, events) && i <= |events| && run[i].inflight[n] > 0
    requires forall k | 0 <= k < |events| :: !events[k].Lose?
    requires run[|events|].inflight == multiset{}
    ensures i <= j < |events| && events[j].Deliver? && events[j].node == n
    decreases |events| - i
  {
    hide Next, Enabled, ForwardsAt;
    if events[i].Deliver? && events[i].node == n {
      j := i;
    } else {
      StepOfRun(applyTx, tx, run, events, i + 1);
      StepInflight(applyTx, tx, run[i], events[i], n);
      j := NextDelivery(applyTx, tx, run, events, n, i + 1);
    }
  }

  lemma HandedIn(applyTx: ApplyTx, tx: Tx, net: Net, e: Event)
    requires Enabled(net, tx, e) && e.Deliver? && !e.recent
    ensures e.node in net.pools && e.node in Next(applyTx, tx, net, e).pools
    ensures tx.hash in Next(applyTx, tx, net, e).pools[e.node].seen || net.pools[e.node].nextWeight >= 10_000_000
  {}

  // ---- The mempools of the nodes ----

  /** What an event does to the mempool of a node. */
  function OpOf(tx: Tx, e: Event, node: nat): Option<Op>
  {
    match e
    case Deliver(n, recent, _) => if n == node && !recent then Some(Try(tx)) else None
    case OtherTx(n, other) => if n == node then Some(Try(other)) else None
    case RebaseNode(n, state) => if n == node then Some(RebaseTo(state)) else None
    case _ => None
  }

  function OpsOf(tx: Tx, events: seq<Event>, node: nat, i: nat): seq<Op>
    requires i <= |events|
  {
    if i == 0 then [] else
    var op := OpOf(tx, events[i - 1], node);
    OpsOf(tx, events, node, i - 1) + if op.Some? then [op.value] else []
  }

  lemma StepOfPool(applyTx: ApplyTx, tx: Tx, net: Net, e: Event, node: nat)
    requires Enabled(net, tx, e) && node in net.pools
    ensures var p, op := net.pools[node], OpOf(tx, e, node);
      && node in Next(applyTx, tx, net, e).pools
      && Next(applyTx, tx, net, e).pools[node] == if op.Some? then Perform(applyTx, p, op.value) else p
  {
    hide Insert;
  }

  /** At every point of a run the mempool of a node is what its own operations have made of it, so all
      that holds of a mempool after any operations holds of each node's. */
  lemma {:induction false} PoolsAreMempools(applyTx: ApplyTx, tx: Tx, run: seq<Net>, events: seq<Event>, node: nat,
                                            i: nat)
    requires IsRun(applyTx, tx, run, events) && i <= |events| && node in run[0].pools
    ensures node in run[i].pools
    ensures run[i].pools[node] == Run(applyTx, run[0].pools[node], OpsOf(tx, events, node, i))
  {
    if i > 0 {
      PoolsAreMempools(applyTx, tx, run, events, node, i - 1);
      StepOfRun(applyTx, tx, run, events, i);
      hide IsRun, Next, Enabled, OpOf, Perform, Run;
      StepOfPool(applyTx, tx, run[i - 1], events[i - 1], node);
      var before, op := OpsOf(tx, events, node, i - 1), OpOf(tx, events[i - 1], node);
      if op.Some? {
        RunOneMore(applyTx, run[0].pools[node], before, op.value);
      } else {
        assert before + [] == before;
      }
    }
  }
}
