/** Catching up with a peer. */
module Sync {
  import opened Ledger
  import opened Quorum
  import opened Tables
  import opened Chain
  import opened Growth
  import opened Replay
  import opened Batch
  import opened Storage

  /** How far a series of applications got; `status` says why it stopped. */
  datatype Status = Going | Broken | Fatal
  datatype Progress = Progress(t: Tables, applied: nat, status: Status)

  /** Applies one received pair, insisting on its height. */
  function ApplyOne(r: Rules, tally: Tally, p: Progress, want: nat, blk: Block, proof: Proof): Progress
  {
    if p.status != Going then p
    else if blk.header.height != want then p.(status := Broken)
    else
      match ApplyOutcome(r, tally, p.t, blk, proof)
      case (Applied, t') => Progress(t', p.applied + 1, Going)
      case (Refused(_), t') => p.(t := t', status := Broken)
      case (Aborted, t') => p.(t := t', status := Fatal)
  }

  /** Applies the first `n` received pairs, at the consecutive heights from `want` on. */
  function ApplyPairs(r: Rules, tally: Tally, p: Progress, want: nat, b: Batch, n: nat): Progress
    requires n <= |b.blocks| && n <= |b.proofs|
  {
    if n == 0 then p
    else ApplyOne(r, tally, ApplyPairs(r, tally, p, want, b, n - 1), want + n - 1, b.blocks[n - 1], b.proofs[n - 1])
  }

  function Zipped(b: Batch): nat
  {
    if |b.blocks| <= |b.proofs| then |b.blocks| else |b.proofs|
  }

  /** A peer: its answer to the i-th request, for the blocks from a height on.  None is any failure. */
  type Peer = (nat, nat) -> Option<Batch>

  /** Where the client stands: what it applied, and the height it asks for next. */
  datatype Position = Position(p: Progress, height: nat)

  predicate Asking(pos: Position, target: nat)
  {
    pos.p.status == Going && pos.height <= target
  }

  /** One request and what comes of it.  The height moves on by the number of blocks received,
      whatever was applied of them. */
  function Request(r: Rules, tally: Tally, pos: Position, peer: Peer, i: nat): Position
  {
    match peer(i, pos.height)
    case None => pos.(p := pos.p.(status := Broken))
    case Some(b) => Position(ApplyPairs(r, tally, pos.p, pos.height, b, Zipped(b)), pos.height + |b.blocks|)
  }

  /** The client after `n` requests, or where it stopped before that. */
  function After(r: Rules, tally: Tally, start: Position, target: nat, peer: Peer, n: nat): Position
  {
    if n == 0 then start else
    var before := After(r, tally, start, target, peer, n - 1);
    if Asking(before, target) then Request(r, tally, before, peer, n - 1) else before
  }

  function StartAt(t: Tables): Position
  {
    Position(Progress(t, 0, Going), Highest(t) + 1)
  }

  datatype SyncResult = Synced(applied: nat) | Failed | Dead

  function ResultOf(p: Progress): SyncResult
  {
    match p.status
    case Going => Synced(p.applied)
    case Broken => Failed
    case Fatal => Dead
  }

  method ApplyReceived(storage: Storage, want: nat, blk: Block, proof: Proof, applied: nat)
    returns (status: Status, count: nat)
    requires storage.Valid()
    modifies storage, storage.mempool
    ensures storage.Valid()
    ensures Progress(storage.Disk(), count, status)
         == ApplyOne(storage.rules, Written, Progress(old(storage.Disk()), applied, Going), want, blk, proof)
  {
    hide ApplyOutcome;
    if blk.header.height != want {
      return Broken, applied;
    }
    var outcome := storage.ApplyBlock(blk, proof);
    match outcome
    case Applied => return Going, applied + 1;
    case Refused(_) => return Broken, applied;
    case Aborted => return Fatal, applied;
  }

  /** One attempt to sync from a peer that reported `theirHighest`, in the case that it comes to an
      end, within `enough` requests; `RunsForeverIff` says exactly when it does not. */
  method AttemptBlksync(storage: Storage, theirHighest: nat, peer: Peer, ghost enough: nat) returns (result: SyncResult)
    requires storage.Valid()
    requires !Asking(After(storage.rules, Written, StartAt(storage.Disk()), theirHighest, peer, enough), theirHighest)
    modifies storage, storage.mempool
    ensures storage.Valid()
    ensures var end := After(storage.rules, Written, StartAt(old(storage.Disk())), theirHighest, peer, enough);
      storage.Disk() == end.p.t && result == ResultOf(end.p)
  {
    hide ApplyPairs, ValidChain, Highest;
    ghost var start := StartAt(storage.Disk());
    var myHighest := storage.HighestHeight();
    if theirHighest <= myHighest {
      StopsStay(storage.rules, Written, start, theirHighest, peer, 0, enough);
      return Synced(0);
    }
    var numApplied := 0;
    var height: nat := myHighest + 1;
    var asked: nat := 0;
    while height <= theirHighest
      invariant storage.Valid() && asked <= enough
      invariant Position(Progress(storage.Disk(), numApplied, Going), height)
             == After(storage.rules, Written, start, theirHighest, peer, asked)
      decreases enough - asked
    {
      assert asked < enough;
      var reply := peer(asked, height);
      if reply == None {
        StopsStay(storage.rules, Written, start, theirHighest, peer, asked + 1, enough);
        return Failed;
      }
      var batch := reply.value;
      var status;
      status, numApplied := ApplyBatch(storage, height, batch, numApplied);
      height := height + |batch.blocks|;
      asked := asked + 1;
      if status != Going {
        StopsStay(storage.rules, Written, start, theirHighest, peer, asked, enough);
        return ResultOf(Progress(storage.Disk(), numApplied, status));
      }
    }
    StopsStay(storage.rules, Written, start, theirHighest, peer, asked, enough);
    return Synced(numApplied);
  }

  /** Applies the zip of the received blocks and proofs, stopping at the first problem. */
  method ApplyBatch(storage: Storage, height: nat, batch: Batch, applied: nat) returns (status: Status, count: nat)
    requires storage.Valid()
    modifies storage, storage.mempool
    ensures storage.Valid()
    ensures Progress(storage.Disk(), count, status)
         == ApplyPairs(storage.rules, Written, Progress(old(storage.Disk()), applied, Going),
                       height, batch, Zipped(batch))
  {
    hide ApplyOne, ValidChain;
    ghost var before := Progress(storage.Disk(), applied, Going);
    var lastApplied: nat := height;
    status, count := Going, applied;
    for k := 0 to Zipped(batch)
      invariant storage.Valid() && status == Going && lastApplied == height + k
      invariant Progress(storage.Disk(), count, Going) == ApplyPairs(storage.rules, Written, before, height, batch, k)
    {
      status, count := ApplyReceived(storage, lastApplied, batch.blocks[k], batch.proofs[k], count);
      if status != Going {
        StoppedEarly(storage.rules, Written, before, height, batch, k + 1, Zipped(batch));
        return;
      }
      lastApplied := lastApplied + 1;
    }
  }

  lemma {:induction false} StoppedEarly(r: Rules, tally: Tally, p: Progress, want: nat, b: Batch, k: nat, n: nat)
    requires k <= n <= |b.blocks| && n <= |b.proofs|
    requires ApplyPairs(r, tally, p, want, b, k).status != Going
    ensures ApplyPairs(r, tally, p, want, b, n) == ApplyPairs(r, tally, p, want, b, k)
    decreases n
  {
    hide ApplyOutcome;
    if k < n {
      StoppedEarly(r, tally, p, want, b, k, n - 1);
    }
  }

  // ---- Any peer ----

  /** Nothing a peer sends makes the store invalid or loses a block, and the count returned is the
      growth of the highest height. */
  ghost predicate SafeStep(r: Rules, tally: Tally, t: Tables, p: Progress, p': Progress)
  {
    && ValidChain(r, tally, p'.t) && Extends(p'.t, t)
    && (p'.status != Fatal ==> Highest(p'.t) == Highest(p.t) + (p'.applied - p.applied))
  }

  lemma OneKeeps(r: Rules, tally: Tally, p: Progress, want: nat, blk: Block, proof: Proof)
    requires ValidChain(r, tally, p.t)
    ensures SafeStep(r, tally, p.t, p, ApplyOne(r, tally, p, want, blk, proof))
    ensures p.status == Fatal ==> ApplyOne(r, tally, p, want, blk, proof) == p
  {
    hide ValidChain, ApplyOutcome, Highest, Truncate;
    ValidExtendsItself(r, tally, p.t);
    ApplyKeepsChain(r, tally, p.t, blk, proof);
  }

  lemma {:induction false} PairsKeep(r: Rules, tally: Tally, p: Progress, want: nat, b: Batch, n: nat)
    requires ValidChain(r, tally, p.t) && n <= |b.blocks| && n <= |b.proofs|
    ensures SafeStep(r, tally, p.t, p, ApplyPairs(r, tally, p, want, b, n))
  {
    hide ValidChain, ApplyOne, Highest, Truncate;
    if n == 0 {
      ValidExtendsItself(r, tally, p.t);
    } else {
      var q := ApplyPairs(r, tally, p, want, b, n - 1);
      PairsKeep(r, tally, p, want, b, n - 1);
      OneKeeps(r, tally, q, want + n - 1, b.blocks[n - 1], b.proofs[n - 1]);
      ExtendsTransitive(p.t, q.t, ApplyPairs(r, tally, p, want, b, n).t);
    }
  }

  /** For every peer, however it answers, and at every moment of the sync, even an endless one. */
  lemma {:induction false} SyncKeeps(r: Rules, tally: Tally, start: Position, target: nat, peer: Peer, n: nat)
    requires ValidChain(r, tally, start.p.t)
    ensures SafeStep(r, tally, start.p.t, start.p, After(r, tally, start, target, peer, n).p)
  {
    hide ValidChain, ApplyPairs, Highest, Truncate;
    if n == 0 {
      ValidExtendsItself(r, tally, start.p.t);
    } else {
      SyncKeeps(r, tally, start, target, peer, n - 1);
      var pos := After(r, tally, start, target, peer, n - 1);
      if Asking(pos, target) && peer(n - 1, pos.height).Some? {
        var b := peer(n - 1, pos.height).value;
        PairsKeep(r, tally, pos.p, pos.height, b, Zipped(b));
        ExtendsTransitive(start.p.t, pos.p.t, After(r, tally, start, target, peer, n).p.t);
      }
    }
  }

  // ---- When the sync ends ----

  lemma {:induction false} StopsStay(r: Rules, tally: Tally, start: Position, target: nat, peer: Peer, m: nat, n: nat)
    requires m <= n && !Asking(After(r, tally, start, target, peer, m), target)
    ensures After(r, tally, start, target, peer, n) == After(r, tally, start, target, peer, m)
    decreases n
  {
    hide Request;
    if m < n {
      StopsStay(r, tally, start, target, peer, m, n - 1);
    }
  }

  /** The peer's answer carries no block. */
  predicate Empty(reply: Option<Batch>)
  {
    reply.Some? && reply.value.blocks == []
  }

  /** From the request `n` on, every answer for the height asked for then is without a block. */
  ghost predicate StallsAt(r: Rules, tally: Tally, start: Position, target: nat, peer: Peer, n: nat)
  {
    var pos := After(r, tally, start, target, peer, n);
    Asking(pos, target) && forall j | n <= j :: Empty(peer(j, pos.height))
  }

  ghost predicate RunsForever(r: Rules, tally: Tally, start: Position, target: nat, peer: Peer)
  {
    forall n :: Asking(After(r, tally, start, target, peer, n), target)
  }

  /** The sync never ends if and only if from some request on all it gets is answers without blocks,
      with or without proofs in them. */
  lemma RunsForeverIff(r: Rules, tally: Tally, start: Position, target: nat, peer: Peer)
    ensures RunsForever(r, tally, start, target, peer) <==> exists n :: StallsAt(r, tally, start, target, peer, n)
  {
    hide After;
    if RunsForever(r, tally, start, target, peer) {
      var n := FindStall(r, tally, start, target, peer, 0);
    } else if n :| StallsAt(r, tally, start, target, peer, n) {
      forall k ensures Asking(After(r, tally, start, target, peer, k), target) {
        if k >= n {
          StalledStays(r, tally, start, target, peer, n, k);
        } else if !Asking(After(r, tally, start, target, peer, k), target) {
          StopsStay(r, tally, start, target, peer, k, n);
        }
      }
    }
  }

  lemma {:induction false} StalledStays(r: Rules, tally: Tally, start: Position, target: nat, peer: Peer, n: nat,
                                        k: nat)
    requires StallsAt(r, tally, start, target, peer, n) && n <= k
    ensures After(r, tally, start, target, peer, k) == After(r, tally, start, target, peer, n)
    decreases k
  {
    hide ApplyOne;
    if n < k {
      StalledStays(r, tally, start, target, peer, n, k - 1);
      assert Empty(peer(k - 1, After(r, tally, start, target, peer, n).height));
    }
  }

  lemma {:induction false} HeightsGrow(r: Rules, tally: Tally, start: Position, target: nat, peer: Peer, m: nat, n: nat)
    requires m <= n
    ensures After(r, tally, start, target, peer, m).height <= After(r, tally, start, target, peer, n).height
    decreases n
  {
    hide ApplyPairs;
    if m < n {
      HeightsGrow(r, tally, start, target, peer, m, n - 1);
    }
  }

  /** Every answer with a block moves the height on, which the target bounds. */
  lemma {:induction false} FindStall(r: Rules, tally: Tally, start: Position, target: nat, peer: Peer, n: nat)
    returns (m: nat)
    requires RunsForever(r, tally, start, target, peer)
    ensures StallsAt(r, tally, start, target, peer, m)
    decreases target + 1 - After(r, tally, start, target, peer, n).height
  {
    hide ApplyPairs;
    var pos := After(r, tally, start, target, peer, n);
    assert Asking(pos, target);
    if j: nat :| n <= j && !Empty(peer(j, pos.height)) {
      HeightsGrow(r, tally, start, target, peer, n, j);
      var here, next := After(r, tally, start, target, peer, j), After(r, tally, start, target, peer, j + 1);
      assert Asking(here, target) && Asking(next, target);
      if here.height == pos.height {
        m := FindStall(r, tally, start, target, peer, j + 1);
      } else {
        m := FindStall(r, tally, start, target, peer, j);
      }
    } else {
      m := n;
    }
  }

  /** If no batch is ever empty, the sync ends within one request per missing height. */
  lemma {:induction false} NonemptyBatchesEnd(r: Rules, tally: Tally, start: Position, target: nat, peer: Peer, n: nat)
    requires forall j, h :: !Empty(peer(j, h))
    ensures var end := After(r, tally, start, target, peer, n);
      Asking(end, target) ==> end.height >= start.height + n
    ensures target + 1 <= start.height + n ==> !Asking(After(r, tally, start, target, peer, n), target)
  {
    hide ApplyPairs;
    if n > 0 {
      NonemptyBatchesEnd(r, tally, start, target, peer, n - 1);
    }
  }

  /** A peer that only ever sends batches without blocks is asked again and again, and the client
      stays where it was. */
  lemma EmptyBatchesStall(r: Rules, tally: Tally, start: Position, target: nat, peer: Peer, n: nat)
    requires Asking(start, target)
    requires forall j, h :: Empty(peer(j, h))
    ensures After(r, tally, start, target, peer, n) == start
  {
    assert StallsAt(r, tally, start, target, peer, 0);
    StalledStays(r, tally, start, target, peer, 0, n);
  }

  // ---- When the sync ends caught up ----

  lemma {:induction false} PairsCount(r: Rules, tally: Tally, p: Progress, want: nat, b: Batch, n: nat)
    requires n <= |b.blocks| && n <= |b.proofs|
    ensures ApplyPairs(r, tally, p, want, b, n).status == Going ==>
      p.status == Going && ApplyPairs(r, tally, p, want, b, n).applied == p.applied + n
  {
    hide ApplyOutcome;
    if n > 0 {
      PairsCount(r, tally, p, want, b, n - 1);
    }
  }

  /** One request that the client comes out of going on: what it applied and where it stands. */
  lemma GoingOn(r: Rules, tally: Tally, pos: Position, peer: Peer, i: nat)
    requires ValidChain(r, tally, pos.p.t) && pos.p.status == Going
    requires Request(r, tally, pos, peer, i).p.status == Going
    ensures peer(i, pos.height).Some?
    ensures var b, q := peer(i, pos.height).value, Request(r, tally, pos, peer, i);
      && q.height == pos.height + |b.blocks| && Highest(q.p.t) == Highest(pos.p.t) + Zipped(b)
      && (pos.height > Highest(pos.p.t) + 1 ==> Zipped(b) == 0)
  {
    hide ValidChain, ApplyPairs, Highest, Extends;
    var b := peer(i, pos.height).value;
    PairsKeep(r, tally, pos.p, pos.height, b, Zipped(b));
    PairsCount(r, tally, pos.p, pos.height, b, Zipped(b));
    if pos.height > Highest(pos.p.t) + 1 && Zipped(b) > 0 {
      TooHighBreaks(r, tally, pos.p, pos.height, b, Zipped(b));
    }
  }

  /** No block above the next height is ever applied. */
  lemma TooHighBreaks(r: Rules, tally: Tally, p: Progress, want: nat, b: Batch, n: nat)
    requires ValidChain(r, tally, p.t) && want > Highest(p.t) + 1
    requires 1 <= n <= |b.blocks| && n <= |b.proofs|
    ensures ApplyPairs(r, tally, p, want, b, n).status != Going
  {
    hide ValidChain, ApplyOutcome, Highest, Extends, ApplyOne;
    NotTheNext(r, tally, p, want, b.blocks[0], b.proofs[0]);
    assert ApplyPairs(r, tally, p, want, b, 1) == ApplyOne(r, tally, p, want, b.blocks[0], b.proofs[0]) by {
      assert ApplyPairs(r, tally, p, want, b, 0) == p;
    }
    StoppedEarly(r, tally, p, want, b, 1, n);
  }

  lemma NotTheNext(r: Rules, tally: Tally, p: Progress, want: nat, blk: Block, proof: Proof)
    requires ValidChain(r, tally, p.t) && want > Highest(p.t) + 1
    ensures ApplyOne(r, tally, p, want, blk, proof).status != Going
  {
    hide ApplyOutcome, Extends, Highest, Certified, RowsMatch, ServesBelowTip;
    ApplyKeepsChain(r, tally, p.t, blk, proof);
    var t' := ApplyOutcome(r, tally, p.t, blk, proof).1;
    assert t' != p.t ==> LinkedAt(r, t', Highest(t'));
  }

  /** The blocks received beyond the proofs they came with. */
  function Unproven(r: Rules, tally: Tally, start: Position, target: nat, peer: Peer, n: nat): nat
  {
    if n == 0 then 0 else
    var pos := After(r, tally, start, target, peer, n - 1);
    Unproven(r, tally, start, target, peer, n - 1)
    + if Asking(pos, target) && peer(n - 1, pos.height).Some? then
        |peer(n - 1, pos.height).value.blocks| - Zipped(peer(n - 1, pos.height).value)
      else 0
  }

  /** While the client goes on, it is ahead of its chain by exactly the blocks that came without a
      proof. */
  lemma {:induction false} HeightAccounts(r: Rules, tally: Tally, start: Position, target: nat, peer: Peer, n: nat)
    requires ValidChain(r, tally, start.p.t) && start.height == Highest(start.p.t) + 1
    ensures var pos := After(r, tally, start, target, peer, n);
      pos.p.status == Going ==> pos.height == Highest(pos.p.t) + 1 + Unproven(r, tally, start, target, peer, n)
  {
    hide ValidChain, Highest, Request, Extends;
    if n > 0 {
      HeightAccounts(r, tally, start, target, peer, n - 1);
      SyncKeeps(r, tally, start, target, peer, n - 1);
      var pos := After(r, tally, start, target, peer, n - 1);
      if Asking(pos, target) && Request(r, tally, pos, peer, n - 1).p.status == Going {
        GoingOn(r, tally, pos, peer, n - 1);
      }
    }
  }

  /** The batch has more blocks than proofs, and the proofs do not reach the target. */
  predicate Short(reply: Option<Batch>, height: nat, target: nat)
  {
    reply.Some? && |reply.value.blocks| > |reply.value.proofs| && height + |reply.value.proofs| <= target
  }

  ghost predicate CutShort(r: Rules, tally: Tally, start: Position, target: nat, peer: Peer, n: nat)
  {
    exists i: nat :: i < n && ShortAt(r, tally, start, target, peer, i)
  }

  predicate ShortAt(r: Rules, tally: Tally, start: Position, target: nat, peer: Peer, i: nat)
  {
    var pos := After(r, tally, start, target, peer, i);
    Asking(pos, target) && Short(peer(i, pos.height), pos.height, target)
  }

  /** A sync that reports success has reached the target if and only if it was never sent a batch
      with more blocks than proofs whose proofs end below the target. */
  lemma CaughtUpIff(r: Rules, tally: Tally, start: Position, target: nat, peer: Peer, n: nat)
    requires ValidChain(r, tally, start.p.t) && start.height == Highest(start.p.t) + 1
    requires var end := After(r, tally, start, target, peer, n); !Asking(end, target) && ResultOf(end.p).Synced?
    ensures var end := After(r, tally, start, target, peer, n);
      Highest(end.p.t) >= target <==> !CutShort(r, tally, start, target, peer, n)
  {
    hide ValidChain, Highest, After, CutShort;
    BehindIfShort(r, tally, start, target, peer, n);
  }

  lemma {:induction false} BehindIfShort(r: Rules, tally: Tally, start: Position, target: nat, peer: Peer, n: nat)
    requires ValidChain(r, tally, start.p.t) && start.height == Highest(start.p.t) + 1
    ensures var pos := After(r, tally, start, target, peer, n);
      pos.p.status == Going ==>
        if CutShort(r, tally, start, target, peer, n)
        then Highest(pos.p.t) < target && pos.height > Highest(pos.p.t) + 1
        else pos.height == Highest(pos.p.t) + 1 || Highest(pos.p.t) >= target
  {
    hide ValidChain, Highest, Request, Extends, Short;
    if n > 0 {
      BehindIfShort(r, tally, start, target, peer, n - 1);
      SyncKeeps(r, tally, start, target, peer, n - 1);
      HeightAccounts(r, tally, start, target, peer, n - 1);
      OneMoreRequest(r, tally, start, target, peer, n);
      var pos := After(r, tally, start, target, peer, n - 1);
      if Asking(pos, target) && Request(r, tally, pos, peer, n - 1).p.status == Going {
        GoingOn(r, tally, pos, peer, n - 1);
        ShortMeans(peer(n - 1, pos.height).value, pos.height, target);
      }
    }
  }

  lemma OneMoreRequest(r: Rules, tally: Tally, start: Position, target: nat, peer: Peer, n: nat)
    requires n > 0
    ensures CutShort(r, tally, start, target, peer, n)
       <==> CutShort(r, tally, start, target, peer, n - 1) || ShortAt(r, tally, start, target, peer, n - 1)
  {
    hide ShortAt;
  }

  lemma ShortMeans(b: Batch, height: nat, target: nat)
    ensures Short(Some(b), height, target) <==> |b.blocks| > Zipped(b) && height + Zipped(b) <= target
  {}

  /** A single batch of enough blocks, of any content, without proofs makes the client report success
      with nothing applied. */
  lemma NothingProvenIsSuccess(r: Rules, tally: Tally, t: Tables, target: nat, peer: Peer, blocks: seq<Block>)
    requires Highest(t) < target <= Highest(t) + |blocks|
    requires peer(0, Highest(t) + 1) == Some(Batch(blocks, []))
    ensures var end := After(r, tally, StartAt(t), target, peer, 1);
      !Asking(end, target) && ResultOf(end.p) == Synced(0) && end.p.t == t && Highest(end.p.t) < target
  {
    hide Highest, ApplyOne;
    var start := StartAt(t);
    assert After(r, tally, start, target, peer, 0) == start && Asking(start, target);
    assert Request(r, tally, start, peer, 0) == Position(start.p, start.height + |blocks|);
  }

  // ---- An honest peer ----

  /** At every time the chain is valid and all of it can be read back. */
  ghost predicate ServesValidChain(r: Rules, tally: Tally, views: nat -> Tables)
  {
    forall i ::
      && ValidChain(r, tally, views(i))
      && (Highest(views(i)) > 0 ==> BlockFits(r, views(i).history[Highest(views(i))]))
  }

  /** A peer that serves batches off its own growing chain, as `GetLz4Blocks` does. */
  ghost predicate Honest(r: Rules, tally: Tally, views: nat -> Tables, peer: Peer, target: nat)
  {
    && Growing(views)
    && ServesValidChain(r, tally, views)
    && (forall i :: Highest(views(i)) >= target)
    && (forall i, h: nat | 1 <= h <= target :: peer(i, h).Some? && GoodBatch(views(i), h, peer(i, h).value))
  }

  /** A good batch on top of a prefix of the peer's chain gives a longer prefix. */
  lemma {:induction false} GoodBatchApplies(r: Rules, tally: Tally, v: Tables, k: nat, applied: nat, b: Batch, n: nat)
    requires ValidChain(r, tally, v) && (Highest(v) > 0 ==> BlockFits(r, v.history[Highest(v)]))
    requires k <= Highest(v) && GoodBatch(v, k + 1, b) && n <= |b.blocks|
    ensures k + n <= Highest(v)
    ensures ApplyPairs(r, tally, Progress(Truncate(v, k), applied, Going), k + 1, b, n)
         == Progress(Truncate(v, k + n), applied + n, Going)
  {
    hide ValidChain, GoodBatch, ApplyOne, Truncate, Highest, BlockFits;
    if n > 0 {
      GoodBatchApplies(r, tally, v, k, applied, b, n - 1);
      PairOfBatch(r, tally, v, k + 1, b, n);
      var m := k + n - 1;
      StoredPairApplies(r, tally, v, m, applied + n - 1);
      assert k + 1 + n - 1 == m + 1 && k + n == m + 1 && applied + n - 1 + 1 == applied + n;
    }
  }

  lemma PairOfBatch(r: Rules, tally: Tally, v: Tables, start: nat, b: Batch, n: nat)
    requires ValidChain(r, tally, v) && GoodBatch(v, start, b) && 1 <= n <= |b.blocks|
    ensures n <= |b.proofs|
    ensures start + n - 1 in v.history && v.history[start + n - 1] == b.blocks[n - 1]
    ensures start + n - 1 in v.proofs && v.proofs[start + n - 1] == b.proofs[n - 1]
    ensures 1 <= start + n - 1 <= Highest(v)
  {
    hide Linked, Certified, RowsMatch, ServesBelowTip, Highest;
  }

  lemma StoredPairApplies(r: Rules, tally: Tally, v: Tables, k: nat, applied: nat)
    requires ValidChain(r, tally, v) && k < Highest(v) && BlockFits(r, v.history[Highest(v)])
    ensures ApplyOne(r, tally, Progress(Truncate(v, k), applied, Going), k + 1, v.history[k + 1], v.proofs[k + 1])
         == Progress(Truncate(v, k + 1), applied + 1, Going)
  {
    hide ApplyOutcome, Certified, RowsMatch, ServesBelowTip, Truncate, Highest, BlockFits, ApplyToState;
    assert LinkedAt(r, v, k + 1);
    NextStoredBlockIsAccepted(r, tally, v, k);
  }

  /** Against an honest peer whose chain extends the client's own, the sync ends within one request
      per missing height, with a prefix of the peer's chain that reaches the target. */
  lemma {:induction false} SyncReachesTarget(r: Rules, tally: Tally, views: nat -> Tables, start: Position,
                                             target: nat, peer: Peer, n: nat)
    requires Honest(r, tally, views, peer, target)
    requires start.p.status == Going && start.height == Highest(start.p.t) + 1
    requires Extends(views(0), start.p.t) && ValidChain(r, tally, start.p.t)
    ensures var end := After(r, tally, start, target, peer, n);
      && end.p.status == Going && end.height == Highest(end.p.t) + 1
      && Extends(views(n), end.p.t) && ValidChain(r, tally, end.p.t)
      && end.p.applied - start.p.applied == Highest(end.p.t) - Highest(start.p.t)
      && (Asking(end, target) ==> end.height >= start.height + n)
      && (target <= Highest(start.p.t) + n ==> Highest(end.p.t) >= target && !Asking(end, target))
  {
    hide Honest, ValidChain, ApplyPairs, Highest, Extends;
    if n > 0 {
      SyncReachesTarget(r, tally, views, start, target, peer, n - 1);
      var pos := After(r, tally, start, target, peer, n - 1);
      if Asking(pos, target) {
        HonestStep(r, tally, views, pos.p, target, peer, n - 1);
      } else {
        LaterView(r, tally, views, peer, target, n - 1, pos.p.t);
      }
    }
  }

  lemma LaterView(r: Rules, tally: Tally, views: nat -> Tables, peer: Peer, target: nat, i: nat, t: Tables)
    requires Honest(r, tally, views, peer, target) && Extends(views(i), t)
    ensures Extends(views(i + 1), t)
  {
    hide Extends, ValidChain;
    assert Extends(views(i + 1), views(i));
    ExtendsTransitive(t, views(i), views(i + 1));
  }

  /** One batch from an honest peer takes the client on by the batch's length, still on the peer's chain. */
  lemma HonestStep(r: Rules, tally: Tally, views: nat -> Tables, p: Progress, target: nat, peer: Peer, i: nat)
    requires Honest(r, tally, views, peer, target)
    requires p.status == Going && Extends(views(i), p.t) && Highest(p.t) < target
    ensures peer(i, Highest(p.t) + 1).Some?
    ensures var b := peer(i, Highest(p.t) + 1).value;
      var q := ApplyPairs(r, tally, p, Highest(p.t) + 1, b, Zipped(b));
      && q.status == Going && Extends(views(i + 1), q.t) && ValidChain(r, tally, q.t)
      && Highest(q.t) == Highest(p.t) + |b.blocks| && |b.blocks| >= 1
      && q.applied == p.applied + |b.blocks|
  {
    hide ValidChain, ApplyPairs, Highest, Truncate, BlockFits;
    var b := peer(i, Highest(p.t) + 1).value;
    assert GoodBatch(views(i), Highest(p.t) + 1, b);
    GoodBatchApplies(r, tally, views(i), Highest(p.t), p.applied, b, |b.blocks|);
    TruncateValid(r, tally, views(i), Highest(p.t) + |b.blocks|);
    assert Extends(views(i + 1), views(i));
    ExtendsTransitive(Truncate(views(i), Highest(p.t) + |b.blocks|), views(i), views(i + 1));
  }

  const REQUEST_LIMIT := 500_000

  /** A peer that answers every request by running its batch loop on its own store, the i-th one
      between the times `at(i)` and `at(i + 1)`. */
  ghost predicate RunsServer(sz: Sizes, views: nat -> Tables, at: nat -> nat, peer: Peer, target: nat)
  {
    forall i: nat, h: nat | 1 <= h <= target ::
      exists end :: at(i) <= end <= at(i + 1) && Served(sz, views, at(i), end, h, REQUEST_LIMIT, peer(i, h))
  }

  /** Such a peer is honest, if its own chain is valid, fits, and reaches the target. */
  lemma ServerIsHonest(r: Rules, tally: Tally, sz: Sizes, views: nat -> Tables, at: nat -> nat, peer: Peer, target: nat)
    requires Growing(views) && RunsServer(sz, views, at, peer, target) && target >= 1
    requires ServesValidChain(r, tally, views)
    requires Highest(views(at(0))) >= target
    ensures Honest(r, tally, (i: nat) => views(at(i + 1)), peer, target)
    ensures at(0) <= at(1)
  {
    hide ValidChain, Extends, Highest, Served, GoodBatch, BlockFits;
    var later := (i: nat) => views(at(i + 1));
    forall i: nat, j: nat | i <= j ensures at(i) <= at(j) {
      TimesGrow(sz, views, at, peer, target, i, j);
    }
    forall i: nat, j: nat | i <= j ensures Extends(later(j), later(i)) {
      assert at(i + 1) <= at(j + 1);
    }
    forall i: nat ensures Highest(views(at(i))) >= target {
      HigherLater(views, at(0), at(i));
    }
    forall i: nat, h: nat | 1 <= h <= target ensures peer(i, h).Some? && GoodBatch(later(i), h, peer(i, h).value) {
      var end :| at(i) <= end <= at(i + 1) && Served(sz, views, at(i), end, h, REQUEST_LIMIT, peer(i, h));
      StoredHeight(r, tally, views(at(i)), h);
      ServedIsGood(sz, views, at(i), end, at(i + 1), h, peer(i, h));
    }
  }

  lemma HigherLater(views: nat -> Tables, i: nat, j: nat)
    requires Growing(views) && i <= j
    ensures Highest(views(i)) <= Highest(views(j))
  {
    assert Extends(views(j), views(i));
  }

  lemma StoredHeight(r: Rules, tally: Tally, t: Tables, h: nat)
    requires ValidChain(r, tally, t) && 1 <= h <= Highest(t)
    ensures h in t.history
  {}

  lemma {:induction false} TimesGrow(sz: Sizes, views: nat -> Tables, at: nat -> nat, peer: Peer, target: nat, i: nat,
                                     j: nat)
    requires RunsServer(sz, views, at, peer, target) && target >= 1 && i <= j
    ensures at(i) <= at(j)
    decreases j
  {
    hide Served;
    if i < j {
      TimesGrow(sz, views, at, peer, target, i, j - 1);
      var k := j - 1;
      var end :| at(k) <= end <= at(k + 1) && Served(sz, views, at(k), end, 1, REQUEST_LIMIT, peer(k, 1));
    }
  }

  lemma ServedIsGood(sz: Sizes, views: nat -> Tables, from: nat, end: nat, later: nat, h: nat, reply: Option<Batch>)
    requires Growing(views) && end <= later && Served(sz, views, from, end, h, REQUEST_LIMIT, reply)
    requires h in views(from).history
    ensures reply.Some? && GoodBatch(views(later), h, reply.value)
  {
    hide Extends, Fits, Maximal;
    GrowsTo(views, end, later);
    ReadFromLater(views(end), views(later), h, reply.value);
  }

  /** End to end: a client whose chain is a prefix of the peer's, against a peer that runs the batch
      loop on a store that keeps growing.  The sync ends, reports as many blocks as its chain grew
      by, and leaves a prefix of the peer's chain that reaches the height the peer announced. */
  lemma EndToEnd(r: Rules, tally: Tally, sz: Sizes, views: nat -> Tables, at: nat -> nat, peer: Peer, t: Tables,
                 target: nat, n: nat)
    requires Growing(views) && RunsServer(sz, views, at, peer, target)
    requires ServesValidChain(r, tally, views)
    requires Highest(views(at(0))) >= target
    requires ValidChain(r, tally, t) && Extends(views(at(0)), t)
    requires target <= Highest(t) + n
    ensures var end := After(r, tally, StartAt(t), target, peer, n);
      && !Asking(end, target) && ResultOf(end.p) == Synced(end.p.applied)
      && Highest(end.p.t) == Highest(t) + end.p.applied
      && Highest(end.p.t) >= target && Extends(end.p.t, t)
      && exists i :: Extends(views(i), end.p.t)
  {
    hide ValidChain, Extends, Highest, RunsServer, After, Honest, BlockFits, Growing;
    SyncKeeps(r, tally, StartAt(t), target, peer, n);
    if target <= Highest(t) {
      StoppedAtStart(r, tally, t, target, peer, n);
    } else {
      ServerIsHonest(r, tally, sz, views, at, peer, target);
      GrowsTo(views, at(0), at(1));
      ExtendsTransitive(t, views(at(0)), views(at(1)));
      HonestEnd(r, tally, views, at, peer, t, target, n);
      assert Extends(views(at(n + 1)), After(r, tally, StartAt(t), target, peer, n).p.t);
    }
  }

  lemma HonestEnd(r: Rules, tally: Tally, views: nat -> Tables, at: nat -> nat, peer: Peer, t: Tables, target: nat,
                  n: nat)
    requires Honest(r, tally, (i: nat) => views(at(i + 1)), peer, target)
    requires ValidChain(r, tally, t) && Extends(views(at(1)), t) && target <= Highest(t) + n
    ensures var end := After(r, tally, StartAt(t), target, peer, n);
      && !Asking(end, target) && ResultOf(end.p) == Synced(end.p.applied)
      && Highest(end.p.t) == Highest(t) + end.p.applied
      && Highest(end.p.t) >= target && Extends(views(at(n + 1)), end.p.t)
  {
    hide ValidChain, Extends, Highest, After, Honest;
    SyncReachesTarget(r, tally, (i: nat) => views(at(i + 1)), StartAt(t), target, peer, n);
  }

  lemma StoppedAtStart(r: Rules, tally: Tally, t: Tables, target: nat, peer: Peer, n: nat)
    requires target <= Highest(t)
    ensures After(r, tally, StartAt(t), target, peer, n) == StartAt(t) && !Asking(StartAt(t), target)
  {
    StopsStay(r, tally, StartAt(t), target, peer, 0, n);
  }

  // ---- The legacy path ----

  /** A peer asked for one block at a time. */
  type BlockPeer = nat -> Option<(Block, Proof)>

  const LEGACY_BATCH := 1000

  /** How many heights one attempt fetches: what the environment says, or the default. */
  function BatchSize(configured: Option<nat>): nat
  {
    if configured.Some? then configured.value else LEGACY_BATCH
  }

  /** Fetches and applies the `n` heights after `mine` in order. */
  function LegacySync(r: Rules, tally: Tally, p: Progress, mine: nat, n: nat, peer: BlockPeer): Progress
  {
    if n == 0 then p else
    var q := LegacySync(r, tally, p, mine, n - 1, peer);
    match peer(mine + n)
    case None => if q.status == Going then q.(status := Broken) else q
    case Some((blk, proof)) => ApplyOne(r, tally, q, mine + n, blk, proof)
  }

  function LegacyCount(mine: nat, theirs: nat, configured: Option<nat>): nat
  {
    if theirs <= mine then 0
    else if theirs - mine < BatchSize(configured) then theirs - mine
    else BatchSize(configured)
  }

  method AttemptBlksyncLegacy(storage: Storage, theirHighest: nat, peer: BlockPeer, configured: Option<nat>)
    returns (result: SyncResult)
    requires storage.Valid()
    modifies storage, storage.mempool
    ensures storage.Valid()
    ensures var mine := Highest(old(storage.Disk()));
      var start, n := Progress(old(storage.Disk()), 0, Going), LegacyCount(mine, theirHighest, configured);
      var p := LegacySync(storage.rules, Written, start, mine, n, peer);
      storage.Disk() == p.t && result == ResultOf(p)
  {
    hide ApplyOne, ValidChain;
    ghost var before := Progress(storage.Disk(), 0, Going);
    var mine := storage.HighestHeight();
    var todo := LegacyCount(mine, theirHighest, configured);
    var count, status := 0, Going;
    for k := 0 to todo
      invariant storage.Valid() && status == Going
      invariant Progress(storage.Disk(), count, Going) == LegacySync(storage.rules, Written, before, mine, k, peer)
    {
      var height: nat := mine + k + 1;
      var fetched := peer(height);
      status := Broken;
      if fetched.Some? {
        status, count := ApplyReceived(storage, height, fetched.value.0, fetched.value.1, count);
      }
      if status != Going {
        LegacyStopped(storage.rules, Written, before, mine, k + 1, todo, peer);
        return ResultOf(Progress(storage.Disk(), count, status));
      }
    }
    return Synced(count);
  }

  lemma {:induction false} LegacyStopped(r: Rules, tally: Tally, p: Progress, mine: nat, k: nat, n: nat,
                                         peer: BlockPeer)
    requires k <= n && LegacySync(r, tally, p, mine, k, peer).status != Going
    ensures LegacySync(r, tally, p, mine, n, peer) == LegacySync(r, tally, p, mine, k, peer)
    decreases n
  {
    hide ApplyOutcome;
    if k < n {
      LegacyStopped(r, tally, p, mine, k, n - 1, peer);
    }
  }

  /** The legacy path, for every peer. */
  lemma {:induction false} LegacyKeeps(r: Rules, tally: Tally, p: Progress, mine: nat, n: nat, peer: BlockPeer)
    requires ValidChain(r, tally, p.t)
    ensures SafeStep(r, tally, p.t, p, LegacySync(r, tally, p, mine, n, peer))
  {
    hide ValidChain, ApplyOne, Highest, Truncate;
    if n == 0 {
      ValidExtendsItself(r, tally, p.t);
    } else {
      LegacyKeeps(r, tally, p, mine, n - 1, peer);
      if peer(mine + n).Some? {
        var q := LegacySync(r, tally, p, mine, n - 1, peer);
        OneKeeps(r, tally, q, mine + n, peer(mine + n).value.0, peer(mine + n).value.1);
        ExtendsTransitive(p.t, q.t, LegacySync(r, tally, p, mine, n, peer).t);
      }
    }
  }

  /** The legacy path, against a peer that answers with the stored pairs of a chain extending the
      client's own. */
  lemma {:induction false} LegacyReachesTarget(r: Rules, tally: Tally, v: Tables, k: nat, n: nat, peer: BlockPeer)
    requires ValidChain(r, tally, v) && k + n <= Highest(v)
    requires Highest(v) > 0 ==> BlockFits(r, v.history[Highest(v)])
    requires forall h | k < h <= k + n ::
      h in v.history && h in v.proofs && peer(h) == Some((v.history[h], v.proofs[h]))
    ensures LegacySync(r, tally, Progress(Truncate(v, k), 0, Going), k, n, peer)
         == Progress(Truncate(v, k + n), n, Going)
  {
    hide ValidChain, ApplyOne, Truncate, Highest, BlockFits;
    if n > 0 {
      LegacyReachesTarget(r, tally, v, k, n - 1, peer);
      StoredPairApplies(r, tally, v, k + n - 1, n - 1);
    }
  }

  /** One legacy attempt end to end: a client that holds the first `k` blocks of a chain, and a peer
      that holds more of it and answers with its stored pairs.  The client goes on to the height the
      peer announced, but by no more than 1000 blocks, or what was configured, and reports each. */
  lemma LegacyEndToEnd(r: Rules, tally: Tally, v: Tables, k: nat, theirs: nat, peer: BlockPeer, configured: Option<nat>)
    requires ValidChain(r, tally, v) && k <= Highest(v) && theirs <= Highest(v)
    requires Highest(v) > 0 ==> BlockFits(r, v.history[Highest(v)])
    requires forall h | k < h <= Highest(v) ::
      h in v.history && h in v.proofs && peer(h) == Some((v.history[h], v.proofs[h]))
    ensures var most: nat := k + if configured.Some? then configured.value else 1000;
      var reached: nat := if theirs <= k then k else if theirs <= most then theirs else most;
      LegacySync(r, tally, Progress(Truncate(v, k), 0, Going), k, LegacyCount(k, theirs, configured), peer)
      == Progress(Truncate(v, reached), reached - k, Going)
  {
    hide ValidChain, Truncate, Highest, BlockFits, LegacySync;
    LegacyReachesTarget(r, tally, v, k, LegacyCount(k, theirs, configured), peer);
  }

  /** The legacy path reports success only for every single height it set out to fetch. */
  lemma {:induction false} LegacyAllOrNothing(r: Rules, tally: Tally, p: Progress, mine: nat, n: nat, peer: BlockPeer)
    requires ValidChain(r, tally, p.t)
    ensures var q := LegacySync(r, tally, p, mine, n, peer);
      q.status == Going ==> q.applied == p.applied + n && Highest(q.t) == Highest(p.t) + n
  {
    hide ValidChain, ApplyOutcome, Highest, Extends;
    LegacyKeeps(r, tally, p, mine, n, peer);
    if n > 0 {
      LegacyAllOrNothing(r, tally, p, mine, n - 1, peer);
    }
  }

  /** What becomes of one received pair: it fails the attempt if its height is not the next expected
      one or the storage refuses it, and only an abort of the storage ends the process. */
  lemma OnePairExact(r: Rules, tally: Tally, t: Tables, applied: nat, want: nat, blk: Block, proof: Proof)
    ensures var (outcome, t') := ApplyOutcome(r, tally, t, blk, proof);
      var q := ApplyOne(r, tally, Progress(t, applied, Going), want, blk, proof);
      && (ResultOf(q) == Synced(applied + 1) <==> blk.header.height == want && outcome == Applied)
      && (ResultOf(q) == Failed <==> blk.header.height != want || outcome.Refused?)
      && (ResultOf(q) == Dead <==> blk.header.height == want && outcome == Aborted)
      && q.t == (if blk.header.height == want then t' else t)
  {
    hide ApplyOutcome;
  }

  /** What a client is sent at once is a single block, or no more than half a million bytes. */
  lemma RepliesAreBounded(sz: Sizes, views: nat -> Tables, at: nat -> nat, peer: Peer, target: nat, i: nat, h: nat)
    requires RunsServer(sz, views, at, peer, target) && 1 <= h <= target
    requires peer(i, h).Some? && |peer(i, h).value.blocks| > 1
    ensures var b := peer(i, h).value;
      |b.proofs| >= |b.blocks| && Bytes(sz, b.blocks, b.proofs[..|b.blocks|]) <= 500_000
  {
    hide Served, Bytes;
    var end :| at(i) <= end <= at(i + 1) && Served(sz, views, at(i), end, h, REQUEST_LIMIT, peer(i, h));
    BatchesAreBounded(sz, views, at(i), end, h, REQUEST_LIMIT, peer(i, h).value);
  }
}
