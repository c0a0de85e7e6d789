/** What the tasks of a node come to when nothing interferes: every step counts, and a call that runs
    alone does what the atomic operation does. */
module Alone {
  import opened Ledger
  import opened Quorum
  import opened Tables
  import opened Chain
  import opened Growth
  import opened Machine
  import opened Interleaving
  import opened Runs

  // ---- Progress ----

  /** The steps a read has still to make, at most. */
  function ReadRank(rd: Read): nat
  {
    match rd
    case AskHeight => 5
    case LookInCache(_) => 4
    case QueryBlock(_) => 3
    case FillCache(_, _) => 2
    case QueryStakes(_, _) => 1
    case Done(_, _) => 0
  }

  function PhaseRank(phase: Phase): nat
  {
    match phase
    case Queued => 17
    case Base(rd) => 11 + ReadRank(rd)
    case Checked(_) => 10
    case Flushed(_) => 9
    case Stored(rd) => 3 + ReadRank(rd)
    case Rebased => 2
    case Leaving => 1
  }

  /** The steps a task has still to make, at most; a waiter's until it sleeps or has its state. */
  function TaskRank(task: Task): nat
  {
    match task
    case Writer(_, _, phase) => PhaseRank(phase)
    case Reader(_, rd) => ReadRank(rd)
    case Waiter(_, rd, _, asleep) => if asleep then 0 else 1 + ReadRank(rd)
    case AbbrReader(rd) => 2 + ReadRank(rd)
    case AbbrProof(_, _) => 2
    case AbbrFill(_, _, _) => 1
    case SummaryReader(rd) => 3 + ReadRank(rd)
    case SummaryProof(_) => 2
    case SummaryFill(_, _) => 1
    case TreeReader(rd) => 2 + ReadRank(rd)
    case TreeFill(_, _) => 1
  }

  lemma ReadStepCounts(r: Rules, t: Tables, cache: map<nat, Block>, rd: Read)
    requires !rd.Done? && ReadStep(r, t, cache, rd).Some?
    ensures ReadRank(ReadStep(r, t, cache, rd).value) < ReadRank(rd)
  {
    hide Highest, Rebuild, Indexed;
  }

  lemma AdvanceCounts(r: Rules, m: Machine, id: nat, rd: Read)
    requires id in m.tasks && !rd.Done? && ReadOf(m.tasks[id]) == Some(rd)
    requires !(m.tasks[id].Waiter? && m.tasks[id].asleep)
    ensures var m' := Advance(r, m, id, rd);
      !m'.dead && !m.dead ==> id in m'.tasks && TaskRank(m'.tasks[id]) < TaskRank(m.tasks[id])
  {
    hide ReadStep, CacheAfter;
    if ReadStep(r, m.tables, m.cache, rd).Some? {
      ReadStepCounts(r, m.tables, m.cache, rd);
    }
  }

  /** Every step of a task brings it nearer to its end, whatever the others have done in between,
      other than a waiter's waking up after a notice. */
  lemma StepsCount(r: Rules, tally: Tally, m: Machine, id: nat)
    requires Enabled(m, Run(id)) && !(m.tasks[id].Waiter? && m.tasks[id].asleep)
    ensures var m' := Next(r, tally, m, Run(id));
      !m'.dead && id in m'.tasks ==> TaskRank(m'.tasks[id]) < TaskRank(m.tasks[id])
  {
    hide Advance, RunWriter, TreeOf, Abbreviate, Highest, Put, Finish, OthersKept;
    var k := m.tasks[id];
    match k
    case Writer(_, _, _) => WriterStepCounts(r, tally, m, id);
    case Reader(_, rd) => AdvanceCounts(r, m, id, rd);
    case Waiter(_, rd, _, _) => if !rd.Done? { AdvanceCounts(r, m, id, rd); }
    case AbbrReader(rd) => if !rd.Done? { AdvanceCounts(r, m, id, rd); }
    case SummaryReader(rd) => if !rd.Done? { AdvanceCounts(r, m, id, rd); }
    case TreeReader(rd) => if !rd.Done? { AdvanceCounts(r, m, id, rd); }
    case _ =>
  }

  lemma WriterStepCounts(r: Rules, tally: Tally, m: Machine, id: nat)
    requires id in m.tasks && m.tasks[id].Writer? && !m.dead
    ensures var w := m.tasks[id];
      var m' := RunWriter(r, tally, m, id, w.blk, w.proof, w.phase);
      !m'.dead && id in m'.tasks ==> TaskRank(m'.tasks[id]) < TaskRank(m.tasks[id])
  {
    hide Advance, Commit, Decide, Put, Finish, OthersKept;
    match m.tasks[id].phase
    case Base(rd) => if !rd.Done? { AdvanceCounts(r, m, id, rd); }
    case Stored(rd) => if !rd.Done? { AdvanceCounts(r, m, id, rd); }
    case _ =>
  }

  // ---- A writer alone ----

  /** What a writer's call comes to from here on, if the tables are left to it. */
  function Promise(r: Rules, tally: Tally, t: Tables, w: Task): (Outcome, Tables)
    requires w.Writer?
  {
    match w.phase
    case Stored(_) => (if ReadHighest(r, t).Found? then Applied else Aborted, t)
    case Rebased => (Applied, t)
    case Leaving => (Applied, t)
    case _ => ApplyOutcome(r, tally, t, w.blk, w.proof)
  }

  /** The same call, one step further, with its promise kept. */
  ghost predicate KeepsPromise(r: Rules, tally: Tally, m: Machine, m': Machine, id: nat)
    requires id in m.tasks && m.tasks[id].Writer?
  {
    var (outcome, t) := Promise(r, tally, m.tables, m.tasks[id]);
    if m'.dead then outcome == Aborted && m'.tables == t
    else if id !in m'.tasks then outcome != Aborted && m'.tables == t
    else m'.tasks[id].Writer? && Promise(r, tally, m'.tables, m'.tasks[id]) == (outcome, t)
  }

  lemma WriterKeepsPromise(r: Rules, tally: Tally, m: Machine, id: nat)
    requires Inv(r, tally, m) && !m.dead && Enabled(m, Run(id)) && m.tasks[id].Writer?
    ensures KeepsPromise(r, tally, m, Next(r, tally, m, Run(id)), id)
  {
    hide Inv, Highest, ApplyOutcome, ReadHighest, KeepsPromise;
    RunnableTask(r, tally, m, id);
    var w := m.tasks[id];
    match w.phase
    case Queued => QueuedPromise(r, tally, m, id);
    case Base(rd) => if rd.Done? { DecidePromise(r, tally, m, id); } else { ReadPromise(r, tally, m, id); }
    case Checked(_) => QueuedPromise(r, tally, m, id);
    case Flushed(_) => CommitPromise(r, tally, m, id);
    case Stored(rd) => if rd.Done? { RebasePromise(r, tally, m, id); } else { ReadPromise(r, tally, m, id); }
    case _ => EndPromise(r, tally, m, id);
  }

  lemma QueuedPromise(r: Rules, tally: Tally, m: Machine, id: nat)
    requires id in m.tasks && m.tasks[id].Writer? && !m.dead
    requires m.tasks[id].phase == Queued || m.tasks[id].phase.Checked?
    ensures KeepsPromise(r, tally, m, RunTask(r, tally, m, id), id)
  {
    hide ApplyOutcome, ReadHighest;
  }

  lemma EndPromise(r: Rules, tally: Tally, m: Machine, id: nat)
    requires id in m.tasks && m.tasks[id].Writer? && !m.dead
    requires m.tasks[id].phase == Rebased || m.tasks[id].phase == Leaving
    ensures KeepsPromise(r, tally, m, RunTask(r, tally, m, id), id)
  {
    hide ApplyOutcome, ReadHighest;
  }

  lemma RebasePromise(r: Rules, tally: Tally, m: Machine, id: nat)
    requires RunsWriter(r, tally, m, id) && m.tasks[id].phase.Stored? && m.tasks[id].phase.rd.Done? && !m.dead
    ensures KeepsPromise(r, tally, m, RunTask(r, tally, m, id), id)
  {
    hide Inv, ApplyOutcome, ReadHighest, ReadOk, JustCommitted;
  }

  lemma ReadPromise(r: Rules, tally: Tally, m: Machine, id: nat)
    requires RunsWriter(r, tally, m, id) && !m.dead
    requires var ph := m.tasks[id].phase; (ph.Base? || ph.Stored?) && !ph.rd.Done?
    ensures KeepsPromise(r, tally, m, RunTask(r, tally, m, id), id)
  {
    hide Inv, ApplyOutcome, ReadHighest, ReadStep, CacheAfter, AtTip, ReadOk, JustCommitted;
    var w := m.tasks[id];
    if ReadStep(r, m.tables, m.cache, w.phase.rd) == None {
      UnreadableTip(r, tally, m, id);
    }
  }

  /** If the tip cannot be read back, the call comes to an abort. */
  lemma UnreadableTip(r: Rules, tally: Tally, m: Machine, id: nat)
    requires RunsWriter(r, tally, m, id)
    requires var ph := m.tasks[id].phase;
      (ph.Base? || ph.Stored?) && !ph.rd.Done? && ReadStep(r, m.tables, m.cache, ph.rd) == None
    ensures ReadHighest(r, m.tables) == Abort
    ensures Promise(r, tally, m.tables, m.tasks[id]) == (Aborted, m.tables)
  {
    hide ValidChain, NodesOnDisk, TaskOk, MissesNotice, ReadStep, ReadOk, AtTip, BlockFits, JustCommitted, Highest;
    var w := m.tasks[id];
    ValidIsDense(r, tally, m.tables);
    ReadStepKeeps(r, tally, m.tables, m.cache, w.phase.rd);
    HighestStateExact(r, tally, m.tables);
  }

  lemma DecidePromise(r: Rules, tally: Tally, m: Machine, id: nat)
    requires RunsWriter(r, tally, m, id) && m.tasks[id].phase.Base? && m.tasks[id].phase.rd.Done? && !m.dead
    ensures KeepsPromise(r, tally, m, RunTask(r, tally, m, id), id)
  {
    hide Inv, Decide, ReadHighest, ReadOk, Commit;
    DecideNeverApplies(r, tally, m.tasks[id]);
  }

  lemma CommitPromise(r: Rules, tally: Tally, m: Machine, id: nat)
    requires Inv(r, tally, m) && id in m.tasks && m.tasks[id].Writer? && m.tasks[id].phase.Flushed? && !m.dead
    ensures KeepsPromise(r, tally, m, RunTask(r, tally, m, id), id)
  {
    hide Inv, Decide, Commit, Highest, ReadHighest, StateAt;
    FlushedWriter(r, tally, m, id);
  }

  /** A task that takes `n` steps, or as many as it can, while nothing else happens. */
  function Alone(r: Rules, tally: Tally, m: Machine, id: nat, n: nat): Machine
    decreases n
  {
    if n == 0 || !Enabled(m, Run(id)) then m else Alone(r, tally, Next(r, tally, m, Run(id)), id, n - 1)
  }

  /** Where a writer stands that has the node to itself: it waits for a lock that is free, or has it. */
  ghost predicate Unhindered(m: Machine, id: nat)
  {
    id in m.tasks && m.tasks[id].Writer? && (m.tasks[id].phase == Queued ==> m.lock == None)
  }

  /** From any point at which it can go on, a call that is left alone ends: with the tables it promised,
      and either gone, or the process dead. */
  lemma {:induction false} PromiseKept(r: Rules, tally: Tally, m: Machine, id: nat, n: nat)
    requires Inv(r, tally, m) && !m.dead && Unhindered(m, id) && TaskRank(m.tasks[id]) <= n
    ensures var end := Alone(r, tally, m, id, n);
      var (outcome, t) := Promise(r, tally, m.tables, m.tasks[id]);
      && end.tables == t && (end.dead <==> outcome == Aborted) && (outcome != Aborted ==> id !in end.tasks)
    decreases n
  {
    hide Inv, Next, Promise, Highest, TaskRank;
    CanGoOn(r, tally, m, id);
    var m' := Next(r, tally, m, Run(id));
    StepKeeps(r, tally, m, Run(id));
    WriterKeepsPromise(r, tally, m, id);
    StepsCount(r, tally, m, id);
    if !m'.dead && id in m'.tasks {
      StillUnhindered(r, tally, m, id);
      PromiseKept(r, tally, m', id, n - 1);
    } else {
      StaysEnded(r, tally, m', id, n - 1);
    }
  }

  lemma CanGoOn(r: Rules, tally: Tally, m: Machine, id: nat)
    requires !m.dead && Unhindered(m, id)
    ensures Enabled(m, Run(id)) && TaskRank(m.tasks[id]) >= 1 && !m.tasks[id].Waiter?
  {}

  lemma StaysEnded(r: Rules, tally: Tally, m: Machine, id: nat, n: nat)
    requires m.dead || id !in m.tasks
    ensures Alone(r, tally, m, id, n) == m
  {}

  lemma StillUnhindered(r: Rules, tally: Tally, m: Machine, id: nat)
    requires Enabled(m, Run(id)) && m.tasks[id].Writer?
    ensures var m' := Next(r, tally, m, Run(id)); !m'.dead && id in m'.tasks ==> Unhindered(m', id)
  {
    hide Advance, Commit, Decide, Highest, Put, Finish, OthersKept;
    match m.tasks[id].phase
    case Base(rd) => AdvanceIsNotQueued(r, m, id, rd);
    case Stored(rd) => AdvanceIsNotQueued(r, m, id, rd);
    case _ =>
  }

  lemma AdvanceIsNotQueued(r: Rules, m: Machine, id: nat, rd: Read)
    requires id in m.tasks && m.tasks[id].Writer? && (m.tasks[id].phase.Base? || m.tasks[id].phase.Stored?)
    ensures var m' := Advance(r, m, id, rd);
      id in m'.tasks ==> m'.tasks[id].Writer? && m'.tasks[id].phase != Queued
  {
    hide ReadStep, CacheAfter;
  }

  /** An `apply_block` call that starts when the lock is free and runs by itself does exactly what the
      atomic operation does, within 17 steps. */
  lemma ApplyAlone(r: Rules, tally: Tally, m: Machine, id: nat, blk: Block, proof: Proof)
    requires Inv(r, tally, m) && !m.dead && m.lock == None
    requires id in m.tasks && m.tasks[id] == Writer(blk, proof, Queued)
    ensures var end := Alone(r, tally, m, id, 17);
      var (outcome, t) := ApplyOutcome(r, tally, m.tables, blk, proof);
      && end.tables == t && (end.dead <==> outcome == Aborted) && (outcome != Aborted ==> id !in end.tasks)
  {
    hide Inv, ApplyOutcome, Alone;
    PromiseKept(r, tally, m, id, 17);
  }

  // ---- A read alone ----

  /** What a read comes to from here on. */
  function ReadsAs(r: Rules, t: Tables, rd: Read): Fetched
  {
    match rd
    case AskHeight => ReadHighest(r, t)
    case LookInCache(h) => ReadState(r, t, h)
    case QueryBlock(h) => ReadState(r, t, h)
    case FillCache(h, blk) => Rebuild(blk, Indexed(r, t, h))
    case QueryStakes(h, blk) => Rebuild(blk, Indexed(r, t, h))
    case Done(_, None) => Absent
    case Done(_, Some(s)) => Found(s)
  }

  lemma ReadStepReadsAs(r: Rules, tally: Tally, t: Tables, cache: map<nat, Block>, rd: Read)
    requires ValidChain(r, tally, t) && CacheOk(t, cache)
    ensures match ReadStep(r, t, cache, rd)
            case None => ReadsAs(r, t, rd) == Abort
            case Some(rd') => ReadsAs(r, t, rd') == ReadsAs(r, t, rd)
  {
    hide Linked, Certified, RowsMatch, ServesBelowTip, Indexed, Highest;
  }

  function ReadToEnd(r: Rules, t: Tables, cache: map<nat, Block>, rd: Read, n: nat): Fetched
    decreases n
  {
    if rd.Done? then (if rd.state == None then Absent else Found(rd.state.value)) else
    if n == 0 then Absent else
    match ReadStep(r, t, cache, rd)
    case None => Abort
    case Some(rd') => ReadToEnd(r, t, CacheAfter(cache, rd), rd', n - 1)
  }

  /** A read whose steps nothing comes between gives what the atomic read gives: `get_state` within four
      steps of its start, and `highest_state` within five. */
  lemma {:induction false} ReadAlone(r: Rules, tally: Tally, t: Tables, cache: map<nat, Block>, rd: Read, n: nat)
    requires ValidChain(r, tally, t) && CacheOk(t, cache) && ReadOk(r, t, rd) && ReadRank(rd) <= n
    ensures ReadToEnd(r, t, cache, rd, n) == ReadsAs(r, t, rd)
    decreases n
  {
    hide ValidChain, ReadStep, ReadOk, CacheOk, Highest;
    if !rd.Done? {
      ReadStepReadsAs(r, tally, t, cache, rd);
      if ReadStep(r, t, cache, rd).Some? {
        ReadStepCounts(r, t, cache, rd);
        ReadStepKeeps(r, tally, t, cache, rd);
        ReadAlone(r, tally, t, CacheAfter(cache, rd), ReadStep(r, t, cache, rd).value, n - 1);
      }
    }
  }

  /** A task that reads a state for a caller, and is not asleep. */
  predicate Asks(task: Task)
  {
    task.Reader? || (task.Waiter? && !task.asleep)
  }

  /** One step of a read that will find its state. */
  lemma AskStep(r: Rules, tally: Tally, m: Machine, id: nat)
    requires Inv(r, tally, m) && !m.dead && id in m.tasks && Asks(m.tasks[id]) && !m.tasks[id].rd.Done?
    requires ReadsAs(r, m.tables, m.tasks[id].rd).Found?
    ensures Enabled(m, Run(id))
    ensures var m' := Next(r, tally, m, Run(id));
      && !m'.dead && m'.tables == m.tables && id in m'.tasks && Asks(m'.tasks[id])
      && ReadRank(m'.tasks[id].rd) < ReadRank(m.tasks[id].rd)
      && ReadsAs(r, m.tables, m'.tasks[id].rd) == ReadsAs(r, m.tables, m.tasks[id].rd)
  {
    hide ValidChain, NodesOnDisk, TaskOk, LockOk, MissesNotice, ReadStep, CacheAfter, ReadsAs, RunWriter, TreeOf,
         Abbreviate;
    ReadStepReadsAs(r, tally, m.tables, m.cache, m.tasks[id].rd);
    FoundIsNotAbort(r, m.tables, m.tasks[id].rd);
    ReadStepCounts(r, m.tables, m.cache, m.tasks[id].rd);
  }

  lemma FoundIsNotAbort(r: Rules, t: Tables, rd: Read)
    requires ReadsAs(r, t, rd).Found?
    ensures ReadsAs(r, t, rd) != Abort
  {}

  /** A reader, or a waiter that is awake, comes back with its state if it is there and left alone. */
  lemma {:induction false} AskAlone(r: Rules, tally: Tally, m: Machine, id: nat, n: nat)
    requires Inv(r, tally, m) && !m.dead && id in m.tasks && Asks(m.tasks[id])
    requires ReadsAs(r, m.tables, m.tasks[id].rd).Found? && ReadRank(m.tasks[id].rd) <= n
    ensures var end := Alone(r, tally, m, id, n);
      && !end.dead && end.tables == m.tables && id in end.tasks && Asks(end.tasks[id])
      && end.tasks[id].rd.Done? && end.tasks[id].rd.state == Some(ReadsAs(r, m.tables, m.tasks[id].rd).state)
    decreases n
  {
    hide Inv, Next, ReadsAs;
    if m.tasks[id].rd.Done? {
      DoneReadsAs(r, m.tables, m.tasks[id].rd);
    } else {
      hide Enabled, Asks;
      AskStep(r, tally, m, id);
      StepKeeps(r, tally, m, Run(id));
      AskAlone(r, tally, Next(r, tally, m, Run(id)), id, n - 1);
    }
  }

  lemma DoneReadsAs(r: Rules, t: Tables, rd: Read)
    requires rd.Done? && ReadsAs(r, t, rd).Found?
    ensures rd.state == Some(ReadsAs(r, t, rd).state)
  {}

  /** A waiter that a notice has reached, for a block that is there, returns its state when it runs. */
  lemma WokenWaiterReturns(r: Rules, tally: Tally, m: Machine, id: nat)
    requires Inv(r, tally, m) && !m.dead && id in m.tasks
    requires var k := m.tasks[id]; k.Waiter? && k.asleep && k.woken && ReadState(r, m.tables, k.h).Found?
    ensures var end := Alone(r, tally, m, id, 5);
      && id in end.tasks && end.tasks[id].Waiter? && end.tasks[id].h == m.tasks[id].h
      && end.tasks[id].rd.Done? && end.tasks[id].rd.state == Some(ReadState(r, m.tables, m.tasks[id].h).state)
  {
    hide Inv, ReadState, Alone;
    var k := m.tasks[id];
    SleeperFoundNothing(r, tally, m, id);
    WakesUp(r, tally, m, id);
    StepKeeps(r, tally, m, Run(id));
    var m' := Next(r, tally, m, Run(id));
    AskAlone(r, tally, m', id, 4);
    FirstStep(r, tally, m, id, 5);
    StaysWaiter(r, tally, m', id, 4);
  }

  lemma FirstStep(r: Rules, tally: Tally, m: Machine, id: nat, n: nat)
    requires n > 0 && Enabled(m, Run(id))
    ensures Alone(r, tally, m, id, n) == Alone(r, tally, Next(r, tally, m, Run(id)), id, n - 1)
  {
    hide Next, Enabled;
  }

  lemma SleeperFoundNothing(r: Rules, tally: Tally, m: Machine, id: nat)
    requires Inv(r, tally, m) && id in m.tasks && m.tasks[id].Waiter? && m.tasks[id].asleep
    ensures m.tasks[id].rd == Done(m.tasks[id].h, None)
  {
    hide ValidChain, CachesOk, NodesOnDisk, LockOk, MissesNotice;
    assert TaskOk(r, m.tables, m.tasks[id]);
  }

  lemma WakesUp(r: Rules, tally: Tally, m: Machine, id: nat)
    requires !m.dead && id in m.tasks && m.tasks[id].Waiter? && m.tasks[id].asleep && m.tasks[id].woken
    requires m.tasks[id].rd == Done(m.tasks[id].h, None)
    ensures Enabled(m, Run(id))
    ensures var m' := Next(r, tally, m, Run(id)); var h := m.tasks[id].h;
      !m'.dead && m'.tables == m.tables && id in m'.tasks && m'.tasks[id] == Waiter(h, LookInCache(h), false, false)
  {}

  lemma {:induction false} StaysWaiter(r: Rules, tally: Tally, m: Machine, id: nat, n: nat)
    requires id in m.tasks && m.tasks[id].Waiter?
    ensures var end := Alone(r, tally, m, id, n);
      id in end.tasks && end.tasks[id].Waiter? && end.tasks[id].h == m.tasks[id].h
    decreases n
  {
    hide ReadStep, CacheAfter, RunWriter, TreeOf, Abbreviate, Highest;
    if n > 0 && Enabled(m, Run(id)) {
      StaysWaiter(r, tally, Next(r, tally, m, Run(id)), id, n - 1);
    }
  }

  // ---- The last step of the derived caches ----

  /** An RPC that had to compute its answer leaves it in its cache. */
  lemma AnswersAreKept(r: Rules, tally: Tally, m: Machine, id: nat)
    requires Enabled(m, Run(id))
    ensures var m' := Next(r, tally, m, Run(id));
      match m.tasks[id]
      case AbbrFill(h, abbr, proof) => h in m'.abbrs && m'.abbrs[h] == (abbr, proof) && id !in m'.tasks
      case SummaryFill(header, proof) =>
        header.height in m'.summaries && m'.summaries[header.height] == (header, proof) && id !in m'.tasks
      case TreeFill(h, tree) => h in m'.trees && m'.trees[h] == tree && id !in m'.tasks
      case _ => true
  {
    hide RunWriter, Advance;
  }
}
