/** What every interleaving of the node's steps keeps. */
module Interleaving {
  import opened Ledger
  import opened Quorum
  import opened Tables
  import opened Chain
  import opened Growth
  import opened Machine

  // ---- The invariant ----

  ghost predicate StoredAt(t: Tables, h: nat, blk: Block)
  {
    h in t.history && t.history[h] == blk
  }

  /** Whatever a read has in hand is committed data. */
  ghost predicate ReadOk(r: Rules, t: Tables, rd: Read)
  {
    match rd
    case FillCache(h, blk) => StoredAt(t, h, blk)
    case QueryStakes(h, blk) => StoredAt(t, h, blk)
    case Done(h, Some(s)) => (h == 0 || h in t.history) && s == StateAt(r, t, h)
    case _ => true
  }

  /** A read that started from the highest height: it will find its block. */
  ghost predicate FromTop(t: Tables, rd: Read)
  {
    match rd
    case LookInCache(h) => h in t.history
    case QueryBlock(h) => h in t.history
    case Done(_, state) => state.Some?
    case _ => true
  }

  /** The same while nobody else can commit: the height it read is still the highest. */
  ghost predicate AtTip(r: Rules, t: Tables, rd: Read)
  {
    && FromTop(t, rd)
    && (rd != AskHeight ==> rd.h == Highest(t))
    && (rd.Done? ==> ReadHighest(r, t) == Found(rd.state.value))
  }

  ghost predicate ForHeight(rd: Read, h: nat)
  {
    rd != AskHeight && rd.h == h && (rd.Done? && rd.state.Some? ==> h > 0)
  }

  ghost predicate SummaryRight(r: Rules, t: Tables, h: nat, header: Header, proof: Proof)
  {
    && (h == 0 || h in t.history)
    && header == StateAt(r, t, h).header && header.height == h
    && proof == if h in t.proofs then t.proofs[h] else map[]
  }

  ghost predicate AbbrRight(t: Tables, h: nat, abbr: Abbr, proof: Proof)
  {
    && h in t.history && abbr == Abbreviate(t.history[h])
    && h in t.proofs && proof == t.proofs[h]
  }

  ghost predicate TreeRight(t: Tables, h: nat, tree: TxTree)
  {
    h in t.history && tree == TreeOf(t.history[h].transactions)
  }

  ghost predicate TaskOk(r: Rules, t: Tables, task: Task)
  {
    match task
    case Writer(_, _, _) => true
    case Reader(top, rd) => ReadOk(r, t, rd) && (top ==> FromTop(t, rd))
    case Waiter(h, rd, _, asleep) => ReadOk(r, t, rd) && ForHeight(rd, h) && (asleep ==> rd == Done(h, None))
    case AbbrReader(rd) => ReadOk(r, t, rd) && rd != AskHeight
    case AbbrProof(h, blk) => StoredAt(t, h, blk)
    case AbbrFill(h, abbr, proof) => AbbrRight(t, h, abbr, proof)
    case SummaryReader(rd) => ReadOk(r, t, rd) && FromTop(t, rd)
    case SummaryProof(header) =>
      (header.height == 0 || header.height in t.history) && header == StateAt(r, t, header.height).header
    case SummaryFill(header, proof) => SummaryRight(r, t, header.height, header, proof)
    case TreeReader(rd) => ReadOk(r, t, rd) && rd != AskHeight && ForHeight(rd, rd.h)
    case TreeFill(h, tree) => TreeRight(t, h, tree)
  }

  predicate InSection(task: Task)
  {
    task.Writer? && task.phase != Queued
  }

  /** The block was decided on the present tip. */
  ghost predicate Ready(r: Rules, tally: Tally, t: Tables, w: Task, next: State)
    requires w.Writer?
  {
    && (Highest(t) == 0 || Highest(t) in t.history)
    && ReadHighest(r, t).Found?
    && Decide(r, tally, StateAt(r, t, Highest(t)), w.blk, w.proof) == Go(next)
  }

  ghost predicate JustCommitted(t: Tables, w: Task)
    requires w.Writer?
  {
    StoredAt(t, Highest(t), w.blk) && Highest(t) in t.proofs && t.proofs[Highest(t)] == w.proof
  }

  /** What the writer that holds the lock may rely on. */
  ghost predicate HolderOk(r: Rules, tally: Tally, m: Machine, w: Task)
    requires InSection(w)
  {
    match w.phase
    case Base(rd) => ReadOk(r, m.tables, rd) && AtTip(r, m.tables, rd)
    case Checked(next) => Ready(r, tally, m.tables, w, next) && next.header.root in m.unflushed
    case Flushed(next) => Ready(r, tally, m.tables, w, next) && next.header.root in m.durable
    case Stored(rd) => JustCommitted(m.tables, w) && ReadOk(r, m.tables, rd) && AtTip(r, m.tables, rd)
    case _ => JustCommitted(m.tables, w) && ReadHighest(r, m.tables).Found? && m.rebasedTo == Highest(m.tables)
  }

  ghost predicate CacheOk(t: Tables, cache: map<nat, Block>)
  {
    forall h | h in cache :: StoredAt(t, h, cache[h])
  }

  ghost predicate CachesOk(r: Rules, m: Machine)
  {
    && CacheOk(m.tables, m.cache)
    && (forall h | h in m.abbrs :: AbbrRight(m.tables, h, m.abbrs[h].0, m.abbrs[h].1))
    && (forall h | h in m.summaries :: SummaryRight(r, m.tables, h, m.summaries[h].0, m.summaries[h].1))
    && (forall h | h in m.trees :: TreeRight(m.tables, h, m.trees[h]))
  }

  /** Every stored block's Merkle nodes are on disk. */
  ghost predicate NodesOnDisk(t: Tables, durable: set<Digest>)
  {
    forall h | h in t.history :: t.history[h].header.root in durable
  }

  /** Exactly the holder of the lock is in the critical section. */
  ghost predicate LockOk(r: Rules, tally: Tally, m: Machine)
  {
    && (forall id | id in m.tasks && InSection(m.tasks[id]) :: m.lock == Some(id))
    && (m.lock.Some? ==> m.lock.value in m.tasks && InSection(m.tasks[m.lock.value])
                         && HolderOk(r, tally, m, m.tasks[m.lock.value]))
  }

  /** A waiter that looked too early, for a block that is there now, and that no notice has reached. */
  ghost predicate MissesNotice(t: Tables, task: Task)
  {
    task.Waiter? && !task.woken && task.h in t.history && task.rd == Done(task.h, None)
  }

  /** Some writer is between its commit and its notification. */
  predicate NoticePending(m: Machine)
  {
    m.lock.Some? && m.lock.value in m.tasks && Announcing(m.tasks[m.lock.value])
  }

  predicate Announcing(task: Task)
  {
    task.Writer? && (task.phase.Stored? || task.phase == Rebased)
  }

  ghost predicate Inv(r: Rules, tally: Tally, m: Machine)
  {
    && ValidChain(r, tally, m.tables)
    && CachesOk(r, m)
    && NodesOnDisk(m.tables, m.durable)
    && (forall id | id in m.tasks :: TaskOk(r, m.tables, m.tasks[id]))
    && LockOk(r, tally, m)
    && (forall id | id in m.tasks && MissesNotice(m.tables, m.tasks[id]) :: NoticePending(m))
  }

  // ---- Reads ----

  lemma ReadStepKeeps(r: Rules, tally: Tally, t: Tables, cache: map<nat, Block>, rd: Read)
    requires ValidChain(r, tally, t) && CacheOk(t, cache) && ReadOk(r, t, rd)
    ensures CacheOk(t, CacheAfter(cache, rd))
    ensures ReadStep(r, t, cache, rd) == None ==> Highest(t) > 0 && !BlockFits(r, t.history[Highest(t)])
    ensures ReadStep(r, t, cache, rd).Some? ==>
      var rd' := ReadStep(r, t, cache, rd).value;
      && ReadOk(r, t, rd') && rd' != AskHeight
      && (FromTop(t, rd) ==> FromTop(t, rd'))
      && (AtTip(r, t, rd) ==> AtTip(r, t, rd'))
      && (rd != AskHeight ==> rd'.h == rd.h)
      && (!rd.Done? && rd'.Done? && rd'.state == None ==> rd'.h !in t.history)
      && (!rd.Done? && rd != AskHeight && rd'.Done? && rd'.state.Some? ==> rd'.h > 0)
  {
    hide Linked, Certified, ServesBelowTip, RowsMatch, Indexed, BlockFits, Highest;
    match rd
    case QueryStakes(h, blk) =>
      GetStateExact(r, tally, t, h);
    case _ =>
  }

  // ---- Growth of the tables ----

  lemma LaterStored(r: Rules, t: Tables, t': Tables, h: nat)
    requires Dense(t) && Dense(t') && Extends(t', t) && h in t.history
    ensures h in t'.history && t'.history[h] == t.history[h]
    ensures h in t.proofs && h in t'.proofs && t'.proofs[h] == t.proofs[h]
    ensures StateAt(r, t', h) == StateAt(r, t, h)
  {
    ReadsAreImmutable(r, t, t', h);
  }

  /** Finished or not, what tasks and caches hold stays right when blocks are appended. */
  lemma LaterTaskOk(r: Rules, t: Tables, t': Tables, task: Task)
    requires Dense(t) && Dense(t') && Extends(t', t) && TaskOk(r, t, task)
    ensures TaskOk(r, t', task)
  {
    hide Extends, Dense;
    forall h | h in t.history
      ensures h in t'.history && t'.history[h] == t.history[h] && StateAt(r, t', h) == StateAt(r, t, h)
      ensures h in t.proofs && h in t'.proofs && t'.proofs[h] == t.proofs[h]
    {
      LaterStored(r, t, t', h);
    }
    NoZeroProof(t);
    NoZeroProof(t');
  }

  lemma NoZeroProof(t: Tables)
    requires Dense(t)
    ensures 0 !in t.proofs && 0 !in t.history
  {}

  lemma LaterCachesOk(r: Rules, m: Machine, t': Tables)
    requires Dense(m.tables) && Dense(t') && Extends(t', m.tables) && CachesOk(r, m)
    ensures CachesOk(r, m.(tables := t'))
  {
    hide Extends, Dense;
    var t := m.tables;
    forall h | h in t.history
      ensures h in t'.history && t'.history[h] == t.history[h] && StateAt(r, t', h) == StateAt(r, t, h)
      ensures h in t.proofs && h in t'.proofs && t'.proofs[h] == t.proofs[h]
    {
      LaterStored(r, t, t', h);
    }
    NoZeroProof(t);
    NoZeroProof(t');
  }

  // ---- Steps of single tasks ----

  /** Replacing one task by another of its kind, with the tables as they are. */
  lemma TaskStepKeeps(r: Rules, tally: Tally, m: Machine, m': Machine, id: nat, task': Task)
    requires Inv(r, tally, m) && id in m.tasks
    requires m'.tables == m.tables && m'.tasks == m.tasks[id := task'] && m'.lock == m.lock
    requires CachesOk(r, m') && NodesOnDisk(m'.tables, m'.durable)
    requires TaskOk(r, m.tables, task') && !MissesNotice(m.tables, task')
    requires InSection(task') == InSection(m.tasks[id]) && (Announcing(m.tasks[id]) ==> Announcing(task'))
    requires if InSection(task') then HolderOk(r, tally, m', task')
             else m'.durable == m.durable && m'.unflushed == m.unflushed && m'.rebasedTo == m.rebasedTo
    ensures Inv(r, tally, m')
  {
    hide ValidChain, TaskOk, CachesOk, NodesOnDisk, MissesNotice, Ready, JustCommitted, ReadOk, AtTip;
    if m'.lock.Some? {
      var w := m.tasks[m.lock.value];
      if m.lock.value != id {
        assert !InSection(task');
        assert HolderOk(r, tally, m', w);
      }
    }
    assert NoticePending(m) ==> NoticePending(m');
  }

  /** A task ends.  If it held the lock, it was not about to announce anything. */
  lemma FinishKeeps(r: Rules, tally: Tally, m: Machine, m': Machine, id: nat)
    requires Inv(r, tally, m) && id in m.tasks && !Announcing(m.tasks[id])
    requires m' == Finish(m.(abbrs := m'.abbrs, summaries := m'.summaries, trees := m'.trees), id)
    requires CachesOk(r, m')
    ensures Inv(r, tally, m')
  {
    hide ValidChain, TaskOk, CachesOk, NodesOnDisk, MissesNotice, Ready, JustCommitted, ReadOk, AtTip;
    if m'.lock.Some? {
      assert m.lock.value != id;
      assert HolderOk(r, tally, m', m.tasks[m.lock.value]);
    }
    assert NoticePending(m) ==> NoticePending(m');
  }

  lemma SameCaches(r: Rules, m: Machine, m': Machine)
    requires CachesOk(r, m)
    requires m'.tables == m.tables && m'.cache == m.cache && m'.abbrs == m.abbrs
    requires m'.summaries == m.summaries && m'.trees == m.trees
    ensures CachesOk(r, m')
  {}

  lemma DeathKeeps(r: Rules, tally: Tally, m: Machine)
    requires Inv(r, tally, m)
    ensures Inv(r, tally, m.(dead := true))
  {
    hide ValidChain, TaskOk, CachesOk, NodesOnDisk, MissesNotice, Ready, JustCommitted, ReadOk, AtTip;
    var m' := m.(dead := true);
    SameCaches(r, m, m');
    if m.lock.Some? {
      assert HolderOk(r, tally, m', m.tasks[m.lock.value]);
    }
  }

  /** Advancing the read inside a task. */
  lemma AdvanceKeeps(r: Rules, tally: Tally, m: Machine, id: nat, rd: Read)
    requires Inv(r, tally, m) && id in m.tasks && ReadOk(r, m.tables, rd)
    requires ReadStep(r, m.tables, m.cache, rd).Some? ==>
      var task' := WithRead(m.tasks[id], ReadStep(r, m.tables, m.cache, rd).value);
      && TaskOk(r, m.tables, task') && !MissesNotice(m.tables, task')
      && InSection(task') == InSection(m.tasks[id]) && (Announcing(m.tasks[id]) ==> Announcing(task'))
      && (InSection(task') ==> HolderOk(r, tally, m, task'))
    ensures Inv(r, tally, Advance(r, m, id, rd))
  {
    hide ValidChain, TaskOk, NodesOnDisk, MissesNotice, Ready, JustCommitted, ReadOk, AtTip, ReadStep, LockOk;
    var m' := Advance(r, m, id, rd);
    if ReadStep(r, m.tables, m.cache, rd) == None {
      DeathKeeps(r, tally, m);
    } else {
      ReadStepKeeps(r, tally, m.tables, m.cache, rd);
      assert CachesOk(r, m');
      var task' := WithRead(m.tasks[id], ReadStep(r, m.tables, m.cache, rd).value);
      if InSection(task') {
        assert HolderOk(r, tally, m', task');
      }
      TaskStepKeeps(r, tally, m, m', id, task');
    }
  }

  ghost predicate Runs(r: Rules, tally: Tally, m: Machine, id: nat)
  {
    Inv(r, tally, m) && id in m.tasks && CanRun(m, m.tasks[id]) && TaskOk(r, m.tables, m.tasks[id])
  }

  lemma ReaderKeeps(r: Rules, tally: Tally, m: Machine, id: nat)
    requires Runs(r, tally, m, id) && m.tasks[id].Reader?
    ensures Inv(r, tally, RunTask(r, tally, m, id))
  {
    hide ValidChain, NodesOnDisk, ReadStep, LockOk, Advance, ReadOk, AtTip, FromTop;
    var rd := m.tasks[id].rd;
    ReadStepKeeps(r, tally, m.tables, m.cache, rd);
    AdvanceKeeps(r, tally, m, id, rd);
  }

  lemma WaiterKeeps(r: Rules, tally: Tally, m: Machine, id: nat)
    requires Runs(r, tally, m, id) && m.tasks[id].Waiter?
    ensures Inv(r, tally, RunTask(r, tally, m, id))
  {
    hide ValidChain, NodesOnDisk, ReadStep, LockOk, Advance, AtTip, FromTop;
    var k := m.tasks[id];
    if k.asleep {
      var task' := Waiter(k.h, LookInCache(k.h), false, false);
      SameCaches(r, m, Put(m, id, task'));
      TaskStepKeeps(r, tally, m, Put(m, id, task'), id, task');
    } else if k.rd.Done? {
      SleepKeeps(r, tally, m, id);
    } else {
      ReadStepKeeps(r, tally, m.tables, m.cache, k.rd);
      AdvanceKeeps(r, tally, m, id, k.rd);
    }
  }

  /** Falling asleep: if the block has arrived since the look, its notice is still to come. */
  lemma SleepKeeps(r: Rules, tally: Tally, m: Machine, id: nat)
    requires Runs(r, tally, m, id) && m.tasks[id].Waiter? && m.tasks[id].rd.Done?
    ensures var k := m.tasks[id]; Inv(r, tally, Put(m, id, Waiter(k.h, k.rd, k.woken, true)))
  {
    hide ValidChain, CachesOk, NodesOnDisk, Ready, JustCommitted;
    var k := m.tasks[id];
    var m' := Put(m, id, Waiter(k.h, k.rd, k.woken, true));
    SameCaches(r, m, m');
    if m.lock.Some? {
      assert HolderOk(r, tally, m', m.tasks[m.lock.value]);
    }
    assert MissesNotice(m.tables, m'.tasks[id]) == MissesNotice(m.tables, k);
  }

  /** A task outside the critical section moves on without touching anything shared. */
  lemma PutKeeps(r: Rules, tally: Tally, m: Machine, id: nat, task': Task)
    requires Inv(r, tally, m) && id in m.tasks && !InSection(m.tasks[id])
    requires TaskOk(r, m.tables, task') && !task'.Waiter? && !task'.Writer?
    ensures Inv(r, tally, Put(m, id, task'))
  {
    hide ValidChain, CachesOk, TaskOk, NodesOnDisk, LockOk;
    SameCaches(r, m, Put(m, id, task'));
    TaskStepKeeps(r, tally, m, Put(m, id, task'), id, task');
  }

  lemma QuitKeeps(r: Rules, tally: Tally, m: Machine, id: nat)
    requires Inv(r, tally, m) && id in m.tasks && !Announcing(m.tasks[id])
    ensures Inv(r, tally, Finish(m, id))
  {
    hide ValidChain, CachesOk, TaskOk, NodesOnDisk, LockOk;
    SameCaches(r, m, Finish(m, id));
    FinishKeeps(r, tally, m, Finish(m, id), id);
  }

  lemma AbbrReaderKeeps(r: Rules, tally: Tally, m: Machine, id: nat)
    requires Runs(r, tally, m, id) && m.tasks[id].AbbrReader?
    ensures Inv(r, tally, RunTask(r, tally, m, id))
  {
    hide Inv, ReadStep, Advance, AtTip, FromTop, Finish, Put;
    var rd := m.tasks[id].rd;
    if rd.QueryStakes? {
      PutKeeps(r, tally, m, id, AbbrProof(rd.h, rd.blk));
    } else if rd.Done? || (rd.LookInCache? && rd.h in m.abbrs) {
      QuitKeeps(r, tally, m, id);
    } else {
      ReadingKeeps(r, tally, m, rd);
      AdvanceKeeps(r, tally, m, id, rd);
    }
  }

  lemma ReadingKeeps(r: Rules, tally: Tally, m: Machine, rd: Read)
    requires Inv(r, tally, m) && ReadOk(r, m.tables, rd)
    ensures ReadStep(r, m.tables, m.cache, rd).Some? ==>
      var rd' := ReadStep(r, m.tables, m.cache, rd).value;
      && ReadOk(r, m.tables, rd') && rd' != AskHeight
      && (FromTop(m.tables, rd) ==> FromTop(m.tables, rd'))
      && (AtTip(r, m.tables, rd) ==> AtTip(r, m.tables, rd'))
      && (rd != AskHeight ==> rd'.h == rd.h)
      && (!rd.Done? && rd != AskHeight && rd'.Done? && rd'.state.Some? ==> rd'.h > 0)
  {
    hide ValidChain, ReadStep, ReadOk, FromTop, AtTip;
    ReadStepKeeps(r, tally, m.tables, m.cache, rd);
  }

  lemma AbbrProofKeeps(r: Rules, tally: Tally, m: Machine, id: nat)
    requires Runs(r, tally, m, id) && m.tasks[id].AbbrProof?
    ensures Inv(r, tally, RunTask(r, tally, m, id))
  {
    hide Inv, Finish, Put, Abbreviate;
    var h, blk := m.tasks[id].h, m.tasks[id].blk;
    if h in m.tables.proofs {
      PutKeeps(r, tally, m, id, AbbrFill(h, Abbreviate(blk), m.tables.proofs[h]));
    } else {
      QuitKeeps(r, tally, m, id);
    }
  }

  lemma AbbrFillKeeps(r: Rules, tally: Tally, m: Machine, id: nat)
    requires Runs(r, tally, m, id) && m.tasks[id].AbbrFill?
    ensures Inv(r, tally, RunTask(r, tally, m, id))
  {
    hide Inv, Finish, AbbrRight;
    var k := m.tasks[id];
    var m' := m.(abbrs := m.abbrs[k.h := (k.abbr, k.proof)]);
    FilledAbbr(r, tally, m, k.h, k.abbr, k.proof);
    FinishFilled(r, tally, m, m', id);
  }

  lemma FilledAbbr(r: Rules, tally: Tally, m: Machine, h: nat, abbr: Abbr, proof: Proof)
    requires Inv(r, tally, m) && AbbrRight(m.tables, h, abbr, proof)
    ensures CachesOk(r, m.(abbrs := m.abbrs[h := (abbr, proof)]))
  {
    hide ValidChain, NodesOnDisk, LockOk, TaskOk, MissesNotice, AbbrRight, SummaryRight, TreeRight;
  }

  /** A task ends by putting its result into one of the node's caches. */
  lemma FinishFilled(r: Rules, tally: Tally, m: Machine, m': Machine, id: nat)
    requires Inv(r, tally, m) && id in m.tasks && !Announcing(m.tasks[id])
    requires m' == m.(abbrs := m'.abbrs, summaries := m'.summaries, trees := m'.trees) && CachesOk(r, m')
    ensures Inv(r, tally, Finish(m', id))
  {
    hide Inv, CachesOk;
    SameCaches(r, m', Finish(m', id));
    FinishKeeps(r, tally, m, Finish(m', id), id);
  }

  lemma SummaryReaderKeeps(r: Rules, tally: Tally, m: Machine, id: nat)
    requires Runs(r, tally, m, id) && m.tasks[id].SummaryReader?
    ensures Inv(r, tally, RunTask(r, tally, m, id))
  {
    hide Inv, ReadStep, Advance, AtTip, Finish, Put, StateAt;
    var rd := m.tasks[id].rd;
    if rd.Done? {
      InvHeightOfState(r, tally, m, rd.h);
      if rd.state.value.header.height in m.summaries {
        QuitKeeps(r, tally, m, id);
      } else {
        PutKeeps(r, tally, m, id, SummaryProof(rd.state.value.header));
      }
    } else {
      ReadingKeeps(r, tally, m, rd);
      AdvanceKeeps(r, tally, m, id, rd);
    }
  }

  lemma SummaryProofKeeps(r: Rules, tally: Tally, m: Machine, id: nat)
    requires Runs(r, tally, m, id) && m.tasks[id].SummaryProof?
    ensures Inv(r, tally, RunTask(r, tally, m, id))
  {
    hide Inv, Finish, Put, StateAt;
    var header := m.tasks[id].header;
    InvHeightOfState(r, tally, m, header.height);
    PutKeeps(r, tally, m, id,
             SummaryFill(header, if header.height in m.tables.proofs then m.tables.proofs[header.height] else map[]));
  }

  lemma SummaryFillKeeps(r: Rules, tally: Tally, m: Machine, id: nat)
    requires Runs(r, tally, m, id) && m.tasks[id].SummaryFill?
    ensures Inv(r, tally, RunTask(r, tally, m, id))
  {
    hide Inv, Finish, SummaryRight;
    var k := m.tasks[id];
    var m' := m.(summaries := m.summaries[k.header.height := (k.header, k.proof)]);
    FilledSummary(r, tally, m, k.header, k.proof);
    FinishFilled(r, tally, m, m', id);
  }

  lemma FilledSummary(r: Rules, tally: Tally, m: Machine, header: Header, proof: Proof)
    requires Inv(r, tally, m) && SummaryRight(r, m.tables, header.height, header, proof)
    ensures CachesOk(r, m.(summaries := m.summaries[header.height := (header, proof)]))
  {
    hide ValidChain, NodesOnDisk, LockOk, TaskOk, MissesNotice, AbbrRight, SummaryRight, TreeRight;
  }

  lemma InvHeightOfState(r: Rules, tally: Tally, m: Machine, h: nat)
    requires Inv(r, tally, m) && (h == 0 || h in m.tables.history)
    ensures StateAt(r, m.tables, h).header.height == h
  {
    assert h > 0 ==> LinkedAt(r, m.tables, h);
  }

  lemma TreeReaderKeeps(r: Rules, tally: Tally, m: Machine, id: nat)
    requires Runs(r, tally, m, id) && m.tasks[id].TreeReader?
    ensures Inv(r, tally, RunTask(r, tally, m, id))
  {
    hide Inv, ReadStep, Advance, AtTip, FromTop, Finish, Put, TreeOf;
    var rd := m.tasks[id].rd;
    if (rd.LookInCache? && rd.h in m.trees) || (rd.Done? && rd.state == None) {
      QuitKeeps(r, tally, m, id);
    } else if !rd.Done? {
      ReadingKeeps(r, tally, m, rd);
      AdvanceKeeps(r, tally, m, id, rd);
    } else {
      PutKeeps(r, tally, m, id, TreeFill(rd.h, TreeOf(rd.state.value.transactions)));
    }
  }

  lemma TreeFillKeeps(r: Rules, tally: Tally, m: Machine, id: nat)
    requires Runs(r, tally, m, id) && m.tasks[id].TreeFill?
    ensures Inv(r, tally, RunTask(r, tally, m, id))
  {
    hide Inv, Finish, TreeRight;
    var k := m.tasks[id];
    var m' := m.(trees := m.trees[k.h := k.tree]);
    FilledTree(r, tally, m, k.h, k.tree);
    FinishFilled(r, tally, m, m', id);
  }

  lemma FilledTree(r: Rules, tally: Tally, m: Machine, h: nat, tree: TxTree)
    requires Inv(r, tally, m) && TreeRight(m.tables, h, tree)
    ensures CachesOk(r, m.(trees := m.trees[h := tree]))
  {
    hide ValidChain, NodesOnDisk, LockOk, TaskOk, MissesNotice, AbbrRight, SummaryRight, TreeRight;
  }

  // ---- Steps of a writer ----

  ghost predicate RunsWriter(r: Rules, tally: Tally, m: Machine, id: nat)
  {
    && Inv(r, tally, m) && id in m.tasks && CanRun(m, m.tasks[id]) && m.tasks[id].Writer?
    && (InSection(m.tasks[id]) ==> m.lock == Some(id) && HolderOk(r, tally, m, m.tasks[id]))
  }

  lemma AcquireKeeps(r: Rules, tally: Tally, m: Machine, id: nat)
    requires RunsWriter(r, tally, m, id) && m.tasks[id].phase == Queued
    ensures Inv(r, tally, RunTask(r, tally, m, id))
  {
    hide ValidChain, CachesOk, NodesOnDisk;
    SameCaches(r, m, RunTask(r, tally, m, id));
  }

  lemma BaseReadKeeps(r: Rules, tally: Tally, m: Machine, id: nat)
    requires RunsWriter(r, tally, m, id)
    requires var ph := m.tasks[id].phase; (ph.Base? || ph.Stored?) && !ph.rd.Done?
    ensures Inv(r, tally, RunTask(r, tally, m, id))
  {
    hide Inv, ReadStep, Advance, ReadOk, AtTip;
    var w := m.tasks[id];
    ReadingKeeps(r, tally, m, w.phase.rd);
    AdvanceKeeps(r, tally, m, id, w.phase.rd);
  }

  lemma DecideKeeps(r: Rules, tally: Tally, m: Machine, id: nat)
    requires RunsWriter(r, tally, m, id) && m.tasks[id].phase.Base? && m.tasks[id].phase.rd.Done?
    ensures Inv(r, tally, RunTask(r, tally, m, id))
  {
    hide ValidChain, CachesOk, NodesOnDisk, TaskOk, LockOk, Decide, Finish, StateAt;
    var w := m.tasks[id];
    var base := w.phase.rd.state.value;
    TipIsRebuilt(r, tally, m, base);
    var m' := RunTask(r, tally, m, id);
    match Decide(r, tally, base, w.blk, w.proof)
    case Stop(outcome) =>
      if outcome == Aborted {
        DeathKeeps(r, tally, m);
      } else {
        QuitKeeps(r, tally, m, id);
      }
    case Go(next) =>
      var task' := Writer(w.blk, w.proof, Checked(next));
      SameCaches(r, m, m');
      assert Ready(r, tally, m.tables, task', next);
      WriterStepKeeps(r, tally, m, m', id, task');
  }

  lemma TipIsRebuilt(r: Rules, tally: Tally, m: Machine, base: State)
    requires Inv(r, tally, m) && ReadHighest(r, m.tables) == Found(base)
    ensures Highest(m.tables) == 0 || Highest(m.tables) in m.tables.history
    ensures base == StateAt(r, m.tables, Highest(m.tables))
  {
    HighestStateExact(r, tally, m.tables);
  }

  lemma WriterStepKeeps(r: Rules, tally: Tally, m: Machine, m': Machine, id: nat, task': Task)
    requires RunsWriter(r, tally, m, id) && InSection(m.tasks[id]) && InSection(task')
    requires Announcing(m.tasks[id]) ==> Announcing(task')
    requires m'.tables == m.tables && m'.tasks == m.tasks[id := task'] && m'.lock == m.lock
    requires CachesOk(r, m') && m.durable <= m'.durable && HolderOk(r, tally, m', task')
    ensures Inv(r, tally, m')
  {
    hide ValidChain, CachesOk, MissesNotice, LockOk, HolderOk;
    assert !MissesNotice(m.tables, task') by {
      NotAWaiter(m.tables, task');
    }
    TaskStepKeeps(r, tally, m, m', id, task');
  }

  lemma NotAWaiter(t: Tables, task: Task)
    requires !task.Waiter?
    ensures !MissesNotice(t, task)
  {}

  lemma FlushKeeps(r: Rules, tally: Tally, m: Machine, id: nat)
    requires RunsWriter(r, tally, m, id) && m.tasks[id].phase.Checked?
    ensures Inv(r, tally, RunTask(r, tally, m, id))
  {
    hide Inv, CachesOk, NodesOnDisk, Decide, StateAt;
    var w, m' := m.tasks[id], RunTask(r, tally, m, id);
    assert CachesOk(r, m') by {
      InvCaches(r, tally, m, m');
    }
    var task' := Writer(w.blk, w.proof, Flushed(w.phase.next));
    WriterStepKeeps(r, tally, m, m', id, task');
  }

  lemma InvCaches(r: Rules, tally: Tally, m: Machine, m': Machine)
    requires Inv(r, tally, m)
    requires m'.tables == m.tables && m'.cache == m.cache && m'.abbrs == m.abbrs
    requires m'.summaries == m.summaries && m'.trees == m.trees
    ensures CachesOk(r, m')
  {
    SameCaches(r, m, m');
  }

  lemma RebaseKeeps(r: Rules, tally: Tally, m: Machine, id: nat)
    requires RunsWriter(r, tally, m, id) && m.tasks[id].phase.Stored? && m.tasks[id].phase.rd.Done?
    ensures Inv(r, tally, RunTask(r, tally, m, id))
  {
    hide Inv, CachesOk, NodesOnDisk, ReadOk;
    var w, m' := m.tasks[id], RunTask(r, tally, m, id);
    InvCaches(r, tally, m, m');
    WriterStepKeeps(r, tally, m, m', id, Writer(w.blk, w.proof, Rebased));
  }

  lemma LeaveKeeps(r: Rules, tally: Tally, m: Machine, id: nat)
    requires RunsWriter(r, tally, m, id) && m.tasks[id].phase == Leaving
    ensures Inv(r, tally, RunTask(r, tally, m, id))
  {
    hide Inv, Finish;
    QuitKeeps(r, tally, m, id);
  }

  /** The notice reaches everybody who was listening. */
  lemma NotifyKeeps(r: Rules, tally: Tally, m: Machine, id: nat)
    requires RunsWriter(r, tally, m, id) && m.tasks[id].phase == Rebased
    ensures Inv(r, tally, RunTask(r, tally, m, id))
  {
    hide ValidChain, CachesOk, NodesOnDisk, ReadOk;
    var m' := RunTask(r, tally, m, id);
    InvCaches(r, tally, m, m');
    forall i | i in m'.tasks
      ensures TaskOk(r, m'.tables, m'.tasks[i]) && !MissesNotice(m'.tables, m'.tasks[i])
      ensures InSection(m'.tasks[i]) == InSection(m.tasks[i])
    {
      assert TaskOk(r, m.tables, m.tasks[i]);
    }
  }

  /** The commit, which appends the block that was decided on the tip. */
  lemma CommitStepKeeps(r: Rules, tally: Tally, m: Machine, id: nat)
    requires RunsWriter(r, tally, m, id) && m.tasks[id].phase.Flushed?
    ensures Inv(r, tally, RunTask(r, tally, m, id))
  {
    var w := m.tasks[id];
    if Commit(m.tables, w.blk, w.proof) == None {
      hide Inv, Commit, Decide, Finish, StateAt;
      QuitKeeps(r, tally, m, id);
    } else {
      var t' := Commit(m.tables, w.blk, w.proof).value;
      ReadyCommit(r, tally, m, w);
      CommittedTasks(r, tally, m, id, t');
    }
  }

  lemma ReadyCommit(r: Rules, tally: Tally, m: Machine, w: Task)
    requires Inv(r, tally, m) && w.Writer? && w.phase.Flushed? && HolderOk(r, tally, m, w)
    requires Commit(m.tables, w.blk, w.proof).Some?
    ensures var t' := Commit(m.tables, w.blk, w.proof).value;
      && ValidChain(r, tally, t') && Extends(t', m.tables)
      && JustCommitted(t', w) && Highest(t') == Highest(m.tables) + 1
      && w.blk.header.root in m.durable
  {
    hide ValidChain, Commit, CachesOk, NodesOnDisk, TaskOk, LockOk, Highest, Extends;
    CommitKeepsChain(r, tally, m.tables, w.blk, w.proof);
    DecidedBlock(r, tally, StateAt(r, m.tables, Highest(m.tables)), w.blk, w.proof);
    ValidHasTip(r, tally, Commit(m.tables, w.blk, w.proof).value);
  }

  lemma ValidHasTip(r: Rules, tally: Tally, t: Tables)
    requires ValidChain(r, tally, t)
    ensures Highest(t) > 0 ==> Highest(t) in t.history && Highest(t) in t.proofs
  {}

  lemma CommittedTasks(r: Rules, tally: Tally, m: Machine, id: nat, t': Tables)
    requires RunsWriter(r, tally, m, id) && m.tasks[id].phase.Flushed?
    requires ValidChain(r, tally, t') && Extends(t', m.tables) && JustCommitted(t', m.tasks[id])
    requires Highest(t') == Highest(m.tables) + 1 && m.tasks[id].blk.header.root in m.durable
    ensures Inv(r, tally, Put(m, id, Writer(m.tasks[id].blk, m.tasks[id].proof, Stored(AskHeight))).(tables := t'))
  {
    hide ValidChain, Extends, Highest, ReadHighest, Ready;
    var w := m.tasks[id];
    var m' := Put(m, id, Writer(w.blk, w.proof, Stored(AskHeight))).(tables := t');
    ValidIsDense(r, tally, m.tables);
    ValidIsDense(r, tally, t');
    forall i | i in m'.tasks
      ensures TaskOk(r, t', m'.tasks[i])
    {
      LaterTaskOk(r, m.tables, t', m.tasks[i]);
    }
    LaterCachesOk(r, m, t');
    NodesAfterCommit(r, m.tables, t', m.durable);
    hide CachesOk, NodesOnDisk, TaskOk, JustCommitted;
    SameCaches(r, m.(tables := t'), m');
    assert HolderOk(r, tally, m', m'.tasks[id]);
    assert NoticePending(m');
  }

  lemma ValidIsDense(r: Rules, tally: Tally, t: Tables)
    requires ValidChain(r, tally, t)
    ensures Dense(t)
  {}

  lemma NodesAfterCommit(r: Rules, t: Tables, t': Tables, durable: set<Digest>)
    requires Dense(t) && Dense(t') && Extends(t', t) && Highest(t') == Highest(t) + 1
    requires NodesOnDisk(t, durable) && t'.history[Highest(t')].header.root in durable
    ensures NodesOnDisk(t', durable)
  {
    forall h | h in t'.history ensures t'.history[h].header.root in durable {
      if h <= Highest(t) {
        LaterStored(r, t, t', h);
      }
    }
  }

  // ---- Every step ----

  lemma SpawnKeeps(r: Rules, tally: Tally, m: Machine, id: nat, task: Task)
    requires Inv(r, tally, m) && Enabled(m, Spawn(id, task))
    ensures Inv(r, tally, Put(m, id, task))
  {
    hide ValidChain, CachesOk, NodesOnDisk, HolderOk, MissesNotice, TaskOk;
    InitialTask(r, m.tables, task);
    SameCaches(r, m, Put(m, id, task));
    if m.lock.Some? {
      SameHolder(r, tally, m, Put(m, id, task), m.tasks[m.lock.value]);
    }
  }

  lemma InitialTask(r: Rules, t: Tables, task: Task)
    requires Initial(task)
    ensures TaskOk(r, t, task) && !InSection(task) && !MissesNotice(t, task)
  {}

  lemma SameHolder(r: Rules, tally: Tally, m: Machine, m': Machine, w: Task)
    requires InSection(w) && HolderOk(r, tally, m, w)
    requires m'.tables == m.tables && m'.unflushed == m.unflushed
    requires m'.durable == m.durable && m'.rebasedTo == m.rebasedTo
    ensures HolderOk(r, tally, m', w)
  {}

  lemma EvictKeeps(r: Rules, tally: Tally, m: Machine, blocks: set<nat>, abbrs: set<nat>, summaries: set<nat>,
                   trees: set<nat>)
    requires Inv(r, tally, m)
    ensures Inv(r, tally, Evicted(m, blocks, abbrs, summaries, trees))
  {
    hide ValidChain, NodesOnDisk, TaskOk, MissesNotice, AbbrRight, SummaryRight, TreeRight;
    var m' := Evicted(m, blocks, abbrs, summaries, trees);
    if m.lock.Some? {
      assert HolderOk(r, tally, m', m.tasks[m.lock.value]);
    }
  }

  lemma ReopenValid(r: Rules, tally: Tally, t: Tables)
    requires ValidChain(r, tally, t)
    ensures OpenTables(r, t) == t
  {
    ReopenIsIdentity(r, t);
  }

  /** However much was lost, what is on disk after a crash is an earlier committed state, complete
      with its Merkle nodes. */
  lemma CrashKeeps(r: Rules, tally: Tally, m: Machine, kept: nat, survivors: set<Digest>)
    requires Inv(r, tally, m) && kept <= Highest(m.tables)
    ensures Inv(r, tally, Opened(r, Truncate(m.tables, kept), m.durable + survivors))
    ensures Opened(r, Truncate(m.tables, kept), m.durable + survivors).tables == Truncate(m.tables, kept)
  {
    hide ValidChain, Extends, Highest, OpenTables;
    TruncateValid(r, tally, m.tables, kept);
    ReopenValid(r, tally, Truncate(m.tables, kept));
  }
}
