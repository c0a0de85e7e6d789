/** What holds at every point of every run of a node. */
module Runs {
  import opened Ledger
  import opened Quorum
  import opened Tables
  import opened Chain
  import opened Growth
  import opened Replay
  import opened Machine
  import opened Interleaving

  lemma WriterKeeps(r: Rules, tally: Tally, m: Machine, id: nat)
    requires RunsWriter(r, tally, m, id)
    ensures Inv(r, tally, RunTask(r, tally, m, id))
  {
    hide Inv, RunTask;
    match m.tasks[id].phase
    case Queued => AcquireKeeps(r, tally, m, id);
    case Base(rd) => if rd.Done? { DecideKeeps(r, tally, m, id); } else { BaseReadKeeps(r, tally, m, id); }
    case Checked(_) => FlushKeeps(r, tally, m, id);
    case Flushed(_) => CommitStepKeeps(r, tally, m, id);
    case Stored(rd) => if rd.Done? { RebaseKeeps(r, tally, m, id); } else { BaseReadKeeps(r, tally, m, id); }
    case Rebased => NotifyKeeps(r, tally, m, id);
    case Leaving => LeaveKeeps(r, tally, m, id);
  }

  lemma RunnableTask(r: Rules, tally: Tally, m: Machine, id: nat)
    requires Inv(r, tally, m) && id in m.tasks && CanRun(m, m.tasks[id])
    ensures Runs(r, tally, m, id)
    ensures m.tasks[id].Writer? ==> RunsWriter(r, tally, m, id)
  {
    hide ValidChain, CachesOk, NodesOnDisk, TaskOk, HolderOk;
  }

  lemma TaskKeeps(r: Rules, tally: Tally, m: Machine, id: nat)
    requires Inv(r, tally, m) && id in m.tasks && CanRun(m, m.tasks[id])
    ensures Inv(r, tally, RunTask(r, tally, m, id))
  {
    hide Inv, RunTask, Runs, RunsWriter;
    RunnableTask(r, tally, m, id);
    match m.tasks[id]
    case Writer(_, _, _) => WriterKeeps(r, tally, m, id);
    case Reader(_, _) => ReaderKeeps(r, tally, m, id);
    case Waiter(_, _, _, _) => WaiterKeeps(r, tally, m, id);
    case AbbrReader(_) => AbbrReaderKeeps(r, tally, m, id);
    case AbbrProof(_, _) => AbbrProofKeeps(r, tally, m, id);
    case AbbrFill(_, _, _) => AbbrFillKeeps(r, tally, m, id);
    case SummaryReader(_) => SummaryReaderKeeps(r, tally, m, id);
    case SummaryProof(_) => SummaryProofKeeps(r, tally, m, id);
    case SummaryFill(_, _) => SummaryFillKeeps(r, tally, m, id);
    case TreeReader(_) => TreeReaderKeeps(r, tally, m, id);
    case TreeFill(_, _) => TreeFillKeeps(r, tally, m, id);
  }

  /** Every step keeps the invariant. */
  lemma StepKeeps(r: Rules, tally: Tally, m: Machine, s: Step)
    requires Inv(r, tally, m) && Enabled(m, s)
    ensures Inv(r, tally, Next(r, tally, m, s))
  {
    hide Inv, RunTask, CanRun, Initial, Put, Highest, Opened;
    match s
    case Spawn(id, task) => SpawnKeeps(r, tally, m, id, task);
    case Run(id) => TaskKeeps(r, tally, m, id);
    case Evict(blocks, abbrs, summaries, trees) => EvictKeeps(r, tally, m, blocks, abbrs, summaries, trees);
    case Crash(kept, survivors) => CrashKeeps(r, tally, m, kept, survivors);
  }

  lemma {:induction false} RunKeeps(r: Rules, tally: Tally, run: seq<Machine>, steps: seq<Step>, i: nat)
    requires IsRun(r, tally, run, steps) && i < |run|
    ensures Inv(r, tally, run[i])
  {
    if i == 0 {
      OpenedIsValid(r, tally);
    } else {
      hide Inv, Enabled, Next;
      RunKeeps(r, tally, run, steps, i - 1);
      assert Leads(r, tally, run[i - 1], steps[i - 1], run[i - 1 + 1]);
      StepKeeps(r, tally, run[i - 1], steps[i - 1]);
    }
  }

  // ---- The store ----

  /** In every reachable state of every interleaving the tables are a valid chain: heights 1 to the
      highest, a proof for each, every block the certified successor of its predecessor; and at most
      one writer is past the lock. */
  lemma WritersAreSerialised(r: Rules, tally: Tally, run: seq<Machine>, steps: seq<Step>, i: nat, a: nat, b: nat)
    requires IsRun(r, tally, run, steps) && i < |run|
    ensures ValidChain(r, tally, run[i].tables)
    ensures var tasks := run[i].tasks;
      a in tasks && b in tasks && InSection(tasks[a]) && InSection(tasks[b]) ==> a == b
  {
    hide ValidChain, CachesOk, NodesOnDisk, TaskOk, HolderOk, IsRun;
    RunKeeps(r, tally, run, steps, i);
  }

  /** A step that changes the tables is a crash, or the commit of one `apply_block` call, and then
      the change is exactly what that call does when run alone. */
  lemma CommitsAreAtomic(r: Rules, tally: Tally, m: Machine, s: Step)
    requires Inv(r, tally, m) && Enabled(m, s) && !s.Crash?
    ensures var t' := Next(r, tally, m, s).tables;
      t' != m.tables ==>
        && s.Run? && m.tasks[s.id].Writer?
        && var (outcome, alone) := ApplyOutcome(r, tally, m.tables, m.tasks[s.id].blk, m.tasks[s.id].proof);
           t' == alone && (outcome == Applied || outcome == Aborted)
  {
    assert s.Run? ==> s.id in m.tasks;
    hide Inv, Next, Enabled, ApplyOutcome, Commit;
    OnlyCommitsWrite(r, tally, m, s);
    if s.Run? && s.id in m.tasks && m.tasks[s.id].Writer? && m.tasks[s.id].phase.Flushed? {
      FlushedWriter(r, tally, m, s.id);
      AppliesAlone(r, tally, m.tables, m.tasks[s.id].blk, m.tasks[s.id].proof);
    }
  }

  /** The outcome with which this step of a writer ends its call without storing anything. */
  function GivesUpWith(r: Rules, tally: Tally, m: Machine, w: Task): Option<Outcome>
    requires w.Writer?
  {
    match w.phase
    case Base(Done(_, Some(base))) =>
      (match Decide(r, tally, base, w.blk, w.proof)
       case Stop(outcome) => Some(outcome)
       case Go(_) => None)
    case Flushed(_) => if Commit(m.tables, w.blk, w.proof) == None then Some(Refused(KeyConflict)) else None
    case _ => None
  }

  /** A call that ends without storing anything ends as it would, alone, at that moment, refused for
      the same reason or fatal; and every other call that ends has stored its block. */
  lemma RefusalsAreAtomic(r: Rules, tally: Tally, m: Machine, id: nat)
    requires Inv(r, tally, m) && Enabled(m, Run(id)) && m.tasks[id].Writer?
    ensures var w, m' := m.tasks[id], Next(r, tally, m, Run(id));
      var end := GivesUpWith(r, tally, m, w);
      && (end.Some? ==> ApplyOutcome(r, tally, m.tables, w.blk, w.proof) == (end.value, m.tables))
      && (end.Some? ==> m'.tables == m.tables)
      && (id !in m'.tasks ==> w.phase == Leaving || (end.Some? && end.value.Refused?))
      && (w.phase == Leaving ==> Highest(m.tables) in m.tables.history && m.tables.history[Highest(m.tables)] == w.blk)
  {
    hide Inv, Commit, Decide, ReadHighest, Highest, Advance, CanRun, StateAt, ValidChain;
    WriterOf(r, tally, m, id);
    WriterEnds(r, tally, m, id);
    var w := m.tasks[id];
    if w.phase.Flushed? {
      FlushedWriter(r, tally, m, id);
      AppliesAlone(r, tally, m.tables, w.blk, w.proof);
    }
  }

  lemma WriterOf(r: Rules, tally: Tally, m: Machine, id: nat)
    requires Inv(r, tally, m) && Enabled(m, Run(id)) && m.tasks[id].Writer?
    ensures var ph, top := m.tasks[id].phase, Highest(m.tables);
      && (ph.Base? && ph.rd.Done? ==> ph.rd.state.Some? && ReadHighest(r, m.tables) == Found(ph.rd.state.value))
      && (ph == Leaving ==> top in m.tables.history && m.tables.history[top] == m.tasks[id].blk)
  {
    hide ValidChain, CachesOk, NodesOnDisk, TaskOk, MissesNotice, Highest, ReadHighest, CanRun;
    assert InSection(m.tasks[id]) ==> HolderOk(r, tally, m, m.tasks[id]);
  }

  lemma DecideNeverApplies(r: Rules, tally: Tally, w: Task)
    requires w.Writer?
    ensures w.phase.Base? && w.phase.rd.Done? && w.phase.rd.state.Some? ==>
      Decide(r, tally, w.phase.rd.state.value, w.blk, w.proof) != Stop(Applied)
  {}

  lemma WriterGoesOn(r: Rules, tally: Tally, m: Machine, id: nat)
    requires id in m.tasks && m.tasks[id].Writer?
    ensures var w := m.tasks[id];
      var m', end := RunWriter(r, tally, m, id, w.blk, w.proof, w.phase), GivesUpWith(r, tally, m, w);
      && (end.Some? ==> m'.tables == m.tables)
      && (id !in m'.tasks ==> w.phase == Leaving || (end.Some? && end.value.Refused?))
  {
    hide Commit, Decide, Advance, Finish;
    match m.tasks[id].phase
    case Base(rd) =>
      if rd.Done? {
        DecideNeverApplies(r, tally, m.tasks[id]);
      } else {
        AdvanceKeepsTask(r, m, id, rd);
      }
    case Stored(rd) =>
      if !rd.Done? {
        AdvanceKeepsTask(r, m, id, rd);
      }
    case _ =>
  }

  lemma AdvanceKeepsTask(r: Rules, m: Machine, id: nat, rd: Read)
    requires id in m.tasks
    ensures id in Advance(r, m, id, rd).tasks
  {
    hide ReadStep, WithRead, CacheAfter;
  }

  lemma WriterEnds(r: Rules, tally: Tally, m: Machine, id: nat)
    requires Enabled(m, Run(id)) && m.tasks[id].Writer?
    ensures var w, m' := m.tasks[id], Next(r, tally, m, Run(id));
      var end := GivesUpWith(r, tally, m, w);
      && (end.Some? ==> m'.tables == m.tables)
      && (id !in m'.tasks ==> w.phase == Leaving || (end.Some? && end.value.Refused?))
  {
    hide Commit, Decide, Advance, CanRun, Initial, Highest, RunWriter;
    WriterGoesOn(r, tally, m, id);
  }

  lemma OnlyCommitsWrite(r: Rules, tally: Tally, m: Machine, s: Step)
    requires Enabled(m, s) && !s.Crash?
    ensures var t' := Next(r, tally, m, s).tables;
      if s.Run? && m.tasks[s.id].Writer? && m.tasks[s.id].phase.Flushed? then
        var w := m.tasks[s.id];
        t' == if Commit(m.tables, w.blk, w.proof).Some? then Commit(m.tables, w.blk, w.proof).value else m.tables
      else t' == m.tables
  {
    hide RunWriter, Advance, CanRun, Initial, Highest, TreeOf, Abbreviate;
    if s.Run? {
      if m.tasks[s.id].Writer? {
        WriterWrites(r, tally, m, s.id);
      } else {
        hide RunTask;
        OthersDoNotWrite(r, tally, m, s.id);
      }
    }
  }

  lemma OthersDoNotWrite(r: Rules, tally: Tally, m: Machine, id: nat)
    requires id in m.tasks && !m.tasks[id].Writer?
    ensures RunTask(r, tally, m, id).tables == m.tables
  {
    hide Advance, Put, Finish, ReadStep, TreeOf, Abbreviate, RunWriter;
  }

  lemma WriterWrites(r: Rules, tally: Tally, m: Machine, id: nat)
    requires id in m.tasks && m.tasks[id].Writer?
    ensures var w := m.tasks[id];
      var t' := RunWriter(r, tally, m, id, w.blk, w.proof, w.phase).tables;
      if w.phase.Flushed? then
        t' == if Commit(m.tables, w.blk, w.proof).Some? then Commit(m.tables, w.blk, w.proof).value else m.tables
      else t' == m.tables
  {
    hide Advance, Put, Finish, ReadStep, Commit, Decide;
    match m.tasks[id].phase
    case Base(rd) =>
    case Flushed(_) =>
    case Stored(rd) =>
    case _ =>
  }

  lemma FlushedWriter(r: Rules, tally: Tally, m: Machine, id: nat)
    requires Inv(r, tally, m) && id in m.tasks && m.tasks[id].Writer? && m.tasks[id].phase.Flushed?
    ensures Highest(m.tables) == 0 || Highest(m.tables) in m.tables.history
    ensures ReadHighest(r, m.tables) == Found(StateAt(r, m.tables, Highest(m.tables)))
    ensures Decide(r, tally, StateAt(r, m.tables, Highest(m.tables)), m.tasks[id].blk, m.tasks[id].proof).Go?
  {
    assert HolderOk(r, tally, m, m.tasks[id]);
    HighestStateExact(r, tally, m.tables);
  }

  lemma AppliesAlone(r: Rules, tally: Tally, t: Tables, blk: Block, proof: Proof)
    requires (Highest(t) == 0 || Highest(t) in t.history) && ReadHighest(r, t) == Found(StateAt(r, t, Highest(t)))
    requires Decide(r, tally, StateAt(r, t, Highest(t)), blk, proof).Go?
    ensures Commit(t, blk, proof) == None ==> ApplyOutcome(r, tally, t, blk, proof) == (Refused(KeyConflict), t)
    ensures Commit(t, blk, proof).Some? ==>
      var (outcome, t') := ApplyOutcome(r, tally, t, blk, proof);
      t' == Commit(t, blk, proof).value && (outcome == Applied || outcome == Aborted)
  {
    hide ReadHighest, Decide, Commit, Highest;
  }

  ghost predicate NoCrash(steps: seq<Step>, i: nat, j: nat)
    requires j <= |steps|
  {
    forall k | i <= k < j :: !steps[k].Crash?
  }

  /** Between crashes the tables only grow. */
  lemma {:induction false} TablesOnlyGrow(r: Rules, tally: Tally, run: seq<Machine>, steps: seq<Step>, i: nat, j: nat)
    requires IsRun(r, tally, run, steps) && i <= j < |run| && NoCrash(steps, i, j)
    ensures Extends(run[j].tables, run[i].tables)
    decreases j
  {
    hide Inv, Enabled, Next, ApplyOutcome, Extends, ValidChain;
    RunKeeps(r, tally, run, steps, i);
    if i == j {
      InvExtendsItself(r, tally, run[i]);
    } else {
      TablesOnlyGrow(r, tally, run, steps, i, j - 1);
      assert Leads(r, tally, run[j - 1], steps[j - 1], run[j - 1 + 1]);
      RunKeeps(r, tally, run, steps, j - 1);
      StepExtends(r, tally, run[j - 1], steps[j - 1]);
      ExtendsTransitive(run[i].tables, run[j - 1].tables, run[j].tables);
    }
  }

  lemma InvExtendsItself(r: Rules, tally: Tally, m: Machine)
    requires Inv(r, tally, m)
    ensures Extends(m.tables, m.tables)
  {
    ValidExtendsItself(r, tally, m.tables);
  }

  lemma StepExtends(r: Rules, tally: Tally, m: Machine, s: Step)
    requires Inv(r, tally, m) && Enabled(m, s) && !s.Crash?
    ensures Extends(Next(r, tally, m, s).tables, m.tables)
  {
    assert s.Run? ==> s.id in m.tasks;
    hide Enabled, Next, ApplyOutcome, Extends, CachesOk, NodesOnDisk, TaskOk, LockOk, MissesNotice;
    ValidExtendsItself(r, tally, m.tables);
    CommitsAreAtomic(r, tally, m, s);
    if Next(r, tally, m, s).tables != m.tables {
      ApplyKeepsChain(r, tally, m.tables, m.tasks[s.id].blk, m.tasks[s.id].proof);
    }
  }

  /** What successive looks at the store show, from a point of the run on. */
  function Looks(run: seq<Machine>, from: nat): nat -> Tables
    requires from < |run|
  {
    (i: nat) => run[if from + i < |run| then from + i else |run| - 1].tables
  }

  /** Between crashes, whoever looks at the store again and again sees a growing valid chain. */
  lemma LooksAreGrowing(r: Rules, tally: Tally, run: seq<Machine>, steps: seq<Step>, from: nat)
    requires IsRun(r, tally, run, steps) && from < |run| && NoCrash(steps, from, |steps|)
    ensures Growing(Looks(run, from)) && forall i :: ValidChain(r, tally, Looks(run, from)(i))
  {
    hide ValidChain, Extends, IsRun, Inv;
    var last := |run| - 1;
    forall i: nat, j: nat | i <= j ensures Extends(Looks(run, from)(j), Looks(run, from)(i)) {
      var a, b := if from + i < |run| then from + i else last, if from + j < |run| then from + j else last;
      RunLength(r, tally, run, steps);
      TablesOnlyGrow(r, tally, run, steps, a, b);
    }
    forall i: nat ensures ValidChain(r, tally, Looks(run, from)(i)) {
      WritersAreSerialised(r, tally, run, steps, if from + i < |run| then from + i else last, 0, 0);
    }
  }

  lemma RunLength(r: Rules, tally: Tally, run: seq<Machine>, steps: seq<Step>)
    requires IsRun(r, tally, run, steps)
    ensures |run| == |steps| + 1
  {}

  // ---- Readers ----

  /** What a reader got, however its steps were spread over commits, evictions and cache fills, is
      the state of the chain at that height, then and at every later point up to the next crash; and
      a reader of the highest state always gets one. */
  lemma ReadsAreCommitted(r: Rules, tally: Tally, run: seq<Machine>, steps: seq<Step>, i: nat, j: nat, id: nat)
    requires IsRun(r, tally, run, steps) && i <= j < |run| && NoCrash(steps, i, j)
    requires id in run[i].tasks && run[i].tasks[id].Reader? && run[i].tasks[id].rd.Done?
    ensures var k := run[i].tasks[id];
      && (k.top ==> k.rd.state.Some?)
      && (k.rd.state.Some? ==>
            && (k.rd.h == 0 || (k.rd.h in run[i].tables.history && k.rd.h in run[j].tables.history))
            && k.rd.state.value == StateAt(r, run[i].tables, k.rd.h) == StateAt(r, run[j].tables, k.rd.h))
  {
    hide ValidChain, CachesOk, NodesOnDisk, LockOk, MissesNotice, IsRun, Extends;
    var k := run[i].tasks[id];
    RunKeeps(r, tally, run, steps, i);
    RunKeeps(r, tally, run, steps, j);
    TablesOnlyGrow(r, tally, run, steps, i, j);
    assert TaskOk(r, run[i].tables, k);
    ValidIsDense(r, tally, run[i].tables);
    ValidIsDense(r, tally, run[j].tables);
    if k.rd.state.Some? && k.rd.h > 0 {
      LaterStored(r, run[i].tables, run[j].tables, k.rd.h);
    }
  }

  /** What a task that waited for a height comes back with is the chain's state at that height, then
      and at every later point up to the next crash. */
  lemma WaitersGetTheirState(r: Rules, tally: Tally, run: seq<Machine>, steps: seq<Step>, i: nat, j: nat, id: nat)
    requires IsRun(r, tally, run, steps) && i <= j < |run| && NoCrash(steps, i, j)
    requires id in run[i].tasks && run[i].tasks[id].Waiter?
    requires run[i].tasks[id].rd.Done? && run[i].tasks[id].rd.state.Some?
    ensures var k := run[i].tasks[id];
      && k.h > 0 && k.h in run[i].tables.history && k.h in run[j].tables.history
      && k.rd.state.value == StateAt(r, run[i].tables, k.h) == StateAt(r, run[j].tables, k.h)
  {
    hide ValidChain, CachesOk, NodesOnDisk, LockOk, MissesNotice, IsRun, Extends;
    RunKeeps(r, tally, run, steps, i);
    RunKeeps(r, tally, run, steps, j);
    TablesOnlyGrow(r, tally, run, steps, i, j);
    assert TaskOk(r, run[i].tables, run[i].tasks[id]);
    ValidIsDense(r, tally, run[i].tables);
    ValidIsDense(r, tally, run[j].tables);
    LaterStored(r, run[i].tables, run[j].tables, run[i].tasks[id].h);
  }

  /** Where a read has got to, `now`, when it was `asked` after step `s`: a read of the top is for a
      height that was the highest at some moment since, and one that found nothing looked for its
      block at a moment when it was not there. */
  ghost predicate CurrentSince(run: seq<Machine>, s: nat, i: nat, asked: Task, now: Task)
    requires s < i < |run| && asked.Reader?
  {
    && now.Reader? && now.top == asked.top
    && (if asked.top then now.rd == AskHeight || (exists j | s < j <= i :: now.rd.h == Highest(run[j].tables))
        else asked.rd != AskHeight && now.rd != AskHeight && now.rd.h == asked.rd.h)
    && (now.rd.Done? && now.rd.state == None ==> exists j | s < j <= i :: now.rd.h !in run[j].tables.history)
  }

  lemma ReaderMoves(r: Rules, tally: Tally, m: Machine, id: nat)
    requires Enabled(m, Run(id)) && m.tasks[id].Reader?
    ensures var m' := Next(r, tally, m, Run(id));
      && id in m'.tasks && m'.tasks[id].Reader? && m'.tasks[id].top == m.tasks[id].top
      && var rd, rd' := m.tasks[id].rd, m'.tasks[id].rd;
         && (rd == AskHeight ==> rd' == AskHeight || rd'.h == Highest(m.tables))
         && (rd != AskHeight ==> rd' != AskHeight && rd'.h == rd.h)
         && (rd'.Done? && rd'.state == None ==> rd'.h !in m.tables.history)
  {
    hide RunWriter, Finish, TreeOf, Abbreviate, CacheAfter, Initial, Highest, Rebuild, Indexed;
  }

  lemma ReaderWaits(r: Rules, tally: Tally, m: Machine, s: Step, id: nat)
    requires Enabled(m, s) && !s.Crash? && s != Run(id) && id in m.tasks && m.tasks[id].Reader?
    ensures var m' := Next(r, tally, m, s); id in m'.tasks && m'.tasks[id] == m.tasks[id]
  {
    hide RunTask, Highest, Initial, CanRun;
    if s.Run? {
      if m.tasks[s.id].Writer? {
        WaitsForWriter(r, tally, m, s.id, id);
      } else {
        WaitsForOther(r, tally, m, s.id, id);
      }
    }
  }

  lemma WaitsForWriter(r: Rules, tally: Tally, m: Machine, other: nat, id: nat)
    requires other in m.tasks && m.tasks[other].Writer? && other != id && id in m.tasks && m.tasks[id].Reader?
    ensures var m' := RunTask(r, tally, m, other); id in m'.tasks && m'.tasks[id] == m.tasks[id]
  {
    hide Advance, Put, Finish, ReadStep, Commit, Decide;
    if m.tasks[other].phase != Rebased {
      assert OthersKept(m, RunTask(r, tally, m, other), other);
      assert id in m.tasks - {other};
    }
  }

  lemma WaitsForOther(r: Rules, tally: Tally, m: Machine, other: nat, id: nat)
    requires other in m.tasks && !m.tasks[other].Writer? && other != id && id in m.tasks && m.tasks[id].Reader?
    ensures var m' := RunTask(r, tally, m, other); id in m'.tasks && m'.tasks[id] == m.tasks[id]
  {
    hide Advance, Put, Finish, ReadStep, TreeOf, Abbreviate, RunWriter;
    assert OthersKept(m, RunTask(r, tally, m, other), other);
    assert id in m.tasks - {other};
  }

  /** However a reader's steps are spread over the commits of others, the height it reads was the
      tip at some moment of the call, so it is no lower than the tip was when the call began; and it
      comes back without a state only if the block was missing at some moment of the call. */
  lemma {:induction false} ReadsAreCurrent(r: Rules, tally: Tally, run: seq<Machine>, steps: seq<Step>, s: nat,
                                           i: nat, id: nat, asked: Task)
    requires IsRun(r, tally, run, steps) && s < i < |run| && NoCrash(steps, s, i)
    requires steps[s] == Spawn(id, asked) && asked.Reader?
    ensures id in run[i].tasks && CurrentSince(run, s, i, asked, run[i].tasks[id])
    ensures asked.top && run[i].tasks[id].rd != AskHeight ==>
      Highest(run[s].tables) <= run[i].tasks[id].rd.h <= Highest(run[i].tables)
    decreases i
  {
    hide Next, Enabled, Extends, Highest;
    assert Leads(r, tally, run[i - 1], steps[i - 1], run[i - 1 + 1]);
    if i == s + 1 {
      SpawnedReader(r, tally, run[s], id, asked);
    } else {
      ReadsAreCurrent(r, tally, run, steps, s, i - 1, id, asked);
      var before := run[i - 1].tasks[id];
      if steps[i - 1] == Run(id) {
        ReaderMoves(r, tally, run[i - 1], id);
      } else {
        ReaderWaits(r, tally, run[i - 1], steps[i - 1], id);
      }
      StillCurrent(run, s, i, asked, before, run[i].tasks[id]);
    }
    if asked.top && run[i].tasks[id].rd != AskHeight {
      var j :| s < j <= i && run[i].tasks[id].rd.h == Highest(run[j].tables);
      TipsBetween(r, tally, run, steps, s, j, i);
    }
  }

  lemma StillCurrent(run: seq<Machine>, s: nat, i: nat, asked: Task, before: Task, now: Task)
    requires s + 1 < i < |run| && asked.Reader? && CurrentSince(run, s, i - 1, asked, before)
    requires now == before
      || (&& now.Reader? && now.top == before.top
          && (before.rd == AskHeight ==> now.rd == AskHeight || now.rd.h == Highest(run[i - 1].tables))
          && (before.rd != AskHeight ==> now.rd != AskHeight && now.rd.h == before.rd.h)
          && (now.rd.Done? && now.rd.state == None ==> now.rd.h !in run[i - 1].tables.history))
    ensures CurrentSince(run, s, i, asked, now)
  {
    hide Highest;
  }

  lemma SpawnedReader(r: Rules, tally: Tally, m: Machine, id: nat, asked: Task)
    requires Enabled(m, Spawn(id, asked)) && asked.Reader?
    ensures var m' := Next(r, tally, m, Spawn(id, asked));
      && id in m'.tasks && m'.tasks[id] == asked && m'.tables == m.tables
      && (if asked.top then asked.rd == AskHeight else asked.rd.LookInCache?)
  {}

  lemma TipsBetween(r: Rules, tally: Tally, run: seq<Machine>, steps: seq<Step>, i: nat, j: nat, k: nat)
    requires IsRun(r, tally, run, steps) && i <= j <= k < |run| && NoCrash(steps, i, k)
    ensures Highest(run[i].tables) <= Highest(run[j].tables) <= Highest(run[k].tables)
  {
    hide IsRun, Highest;
    TablesOnlyGrow(r, tally, run, steps, i, j);
    TablesOnlyGrow(r, tally, run, steps, j, k);
  }

  /** At every point every cached block, abbreviated block, summary and transaction tree is what
      would be computed from the tables; in particular a summary of a stored height carries the
      stored proof. */
  lemma CachesAreCoherent(r: Rules, tally: Tally, run: seq<Machine>, steps: seq<Step>, i: nat, h: nat)
    requires IsRun(r, tally, run, steps) && i < |run|
    ensures var m := run[i];
      && (h in m.cache ==> h in m.tables.history && m.cache[h] == m.tables.history[h])
      && (h in m.abbrs ==>
            && h in m.tables.history && h in m.tables.proofs
            && m.abbrs[h] == (Abbreviate(m.tables.history[h]), m.tables.proofs[h]))
      && (h in m.summaries && h > 0 ==>
            && h in m.tables.history && h in m.tables.proofs
            && m.summaries[h] == (m.tables.history[h].header, m.tables.proofs[h]))
      && (h in m.trees ==> h in m.tables.history && m.trees[h] == TreeOf(m.tables.history[h].transactions))
  {
    hide ValidChain, NodesOnDisk, LockOk, MissesNotice, IsRun, TaskOk, Abbreviate, TreeOf;
    RunKeeps(r, tally, run, steps, i);
    ValidIsDense(r, tally, run[i].tables);
    assert h in run[i].cache ==> StoredAt(run[i].tables, h, run[i].cache[h]);
    assert h in run[i].abbrs ==> AbbrRight(run[i].tables, h, run[i].abbrs[h].0, run[i].abbrs[h].1);
    assert h in run[i].summaries ==> SummaryRight(r, run[i].tables, h, run[i].summaries[h].0, run[i].summaries[h].1);
    assert h in run[i].trees ==> TreeRight(run[i].tables, h, run[i].trees[h]);
  }

  // ---- Waiters ----

  /** No wake-up is lost: whenever a task sleeps for a block that is there, and has not been woken,
      some writer has committed and is yet to notify. */
  lemma NoLostWakeUp(r: Rules, tally: Tally, run: seq<Machine>, steps: seq<Step>, i: nat, id: nat)
    requires IsRun(r, tally, run, steps) && i < |run| && id in run[i].tasks
    requires var k := run[i].tasks[id]; k.Waiter? && k.asleep && !k.woken && k.h in run[i].tables.history
    ensures NoticePending(run[i])
  {
    hide ValidChain, CachesOk, NodesOnDisk, LockOk, IsRun, ReadOk;
    RunKeeps(r, tally, run, steps, i);
    assert TaskOk(r, run[i].tables, run[i].tasks[id]);
    assert MissesNotice(run[i].tables, run[i].tasks[id]);
  }

  // ---- Crashes ----

  /** Whenever the process stops, and whatever suffix of commits is lost with it, the store that is
      reopened is a valid chain, a prefix of what was there, and each of its states can be rebuilt
      from blocks, stake rows and Merkle nodes that are on disk (the last one if its block fits). */
  lemma CrashesAreHarmless(r: Rules, tally: Tally, run: seq<Machine>, steps: seq<Step>, i: nat, kept: nat,
                           survivors: set<Digest>)
    requires IsRun(r, tally, run, steps) && i < |run| && Enabled(run[i], Crash(kept, survivors))
    ensures var m' := Next(r, tally, run[i], Crash(kept, survivors));
      && ValidChain(r, tally, m'.tables) && Highest(m'.tables) == kept && Extends(run[i].tables, m'.tables)
      && forall h | 1 <= h <= kept ::
           && h in m'.tables.history && m'.tables.history[h].header.root in m'.durable
           && (h < Highest(run[i].tables) || BlockFits(r, m'.tables.history[h]) ==>
                 ReadState(r, m'.tables, h) == Found(StateAt(r, m'.tables, h)))
  {
    hide ValidChain, CachesOk, TaskOk, LockOk, MissesNotice, IsRun, Extends, ReadState, Truncate, BlockFits, Highest,
         Dense;
    RunKeeps(r, tally, run, steps, i);
    CrashKeeps(r, tally, run[i], kept, survivors);
    WholeAfterCrash(r, tally, run[i].tables, kept);
  }

  lemma WholeAfterCrash(r: Rules, tally: Tally, t: Tables, kept: nat)
    requires ValidChain(r, tally, t) && kept <= Highest(t)
    ensures var p := Truncate(t, kept);
      && ValidChain(r, tally, p) && Highest(p) == kept && Extends(t, p)
      && forall h | 1 <= h <= kept ::
           && h in p.history
           && (h < Highest(t) || BlockFits(r, p.history[h]) ==> ReadState(r, p, h) == Found(StateAt(r, p, h)))
  {
    hide ValidChain, Extends, ReadState, Truncate, BlockFits, Highest, ReadHighest;
    var p := Truncate(t, kept);
    TruncateValid(r, tally, t, kept);
    ValidIsDense(r, tally, p);
    forall h | 1 <= h <= kept && (h < Highest(t) || BlockFits(r, p.history[h]))
      ensures ReadState(r, p, h) == Found(StateAt(r, p, h))
    {
      GetStateExact(r, tally, p, h);
      if h == kept && h < Highest(t) {
        TipReadable(r, tally, t, kept);
      }
    }
  }

  lemma TipReadable(r: Rules, tally: Tally, t: Tables, k: nat)
    requires ValidChain(r, tally, t) && 1 <= k < Highest(t)
    ensures Dense(Truncate(t, k)) && k in Truncate(t, k).history && BlockFits(r, Truncate(t, k).history[k])
  {
    TruncateValid(r, tally, t, k);
    HighestStateExact(r, tally, Truncate(t, k));
  }

  /** The newest block is one that does not fit. */
  predicate MisfitTip(r: Rules, t: Tables)
  {
    Highest(t) > 0 && Highest(t) in t.history && !BlockFits(r, t.history[Highest(t)])
  }

  /** The only ways to die other than a power cut: the newest block does not fit, or a vote count
      overflows. */
  lemma WhyItDies(r: Rules, tally: Tally, m: Machine, s: Step)
    requires Inv(r, tally, m) && Enabled(m, s) && !m.dead && Next(r, tally, m, s).dead
    ensures s.Run?
    ensures var k := m.tasks[s.id];
      || MisfitTip(r, m.tables)
      || (&& k.Writer? && k.phase.Base? && k.phase.rd.Done? && k.phase.rd.state.Some?
          && Decide(r, tally, k.phase.rd.state.value, k.blk, k.proof) == Stop(Aborted))
  {
    hide Inv, RunTask, Runs, Decide, BlockFits, Highest, ReadStep, CanRun, Initial;
    DiesReading(r, tally, m, s.id);
    RunnableTask(r, tally, m, s.id);
    NoDeadRead(r, tally, m, s.id);
  }

  /** The tasks that die where their read has come to its end without a state. */
  predicate StuckWithoutState(task: Task)
  {
    && (task.SummaryReader? || (task.Writer? && (task.phase.Base? || task.phase.Stored?)))
    && ReadOf(task).Some? && ReadOf(task).value.Done? && ReadOf(task).value.state == None
  }

  lemma DiesReading(r: Rules, tally: Tally, m: Machine, id: nat)
    requires id in m.tasks && !m.dead && RunTask(r, tally, m, id).dead
    ensures var k := m.tasks[id];
      || StuckWithoutState(k)
      || (ReadOf(k).Some? && ReadStep(r, m.tables, m.cache, ReadOf(k).value) == None)
      || (&& k.Writer? && k.phase.Base? && k.phase.rd.Done? && k.phase.rd.state.Some?
          && Decide(r, tally, k.phase.rd.state.value, k.blk, k.proof) == Stop(Aborted))
  {
    hide Advance, Put, Finish, ReadStep, Decide, TreeOf, Abbreviate, RunWriter;
    if m.tasks[id].Writer? {
      WriterDies(r, tally, m, id);
    }
  }

  lemma WriterDies(r: Rules, tally: Tally, m: Machine, id: nat)
    requires id in m.tasks && m.tasks[id].Writer? && !m.dead
    requires var k := m.tasks[id]; RunWriter(r, tally, m, id, k.blk, k.proof, k.phase).dead
    ensures var k := m.tasks[id];
      || StuckWithoutState(k)
      || (ReadOf(k).Some? && ReadStep(r, m.tables, m.cache, ReadOf(k).value) == None)
      || (&& k.phase.Base? && k.phase.rd.Done? && k.phase.rd.state.Some?
          && Decide(r, tally, k.phase.rd.state.value, k.blk, k.proof) == Stop(Aborted))
  {
    hide Advance, Put, Finish, ReadStep, Decide, Commit;
  }

  lemma NoDeadRead(r: Rules, tally: Tally, m: Machine, id: nat)
    requires Inv(r, tally, m) && Runs(r, tally, m, id) && (m.tasks[id].Writer? ==> RunsWriter(r, tally, m, id))
    ensures !StuckWithoutState(m.tasks[id])
    ensures ReadOf(m.tasks[id]).Some? && ReadStep(r, m.tables, m.cache, ReadOf(m.tasks[id]).value) == None ==>
      MisfitTip(r, m.tables)
  {
    hide ValidChain, NodesOnDisk, MissesNotice, BlockFits, Highest, ReadStep, JustCommitted, Ready, LockOk;
    var k := m.tasks[id];
    if ReadOf(k).Some? {
      assert ReadOk(r, m.tables, ReadOf(k).value);
      ValidIsDense(r, tally, m.tables);
      ReadStepKeeps(r, tally, m.tables, m.cache, ReadOf(k).value);
    }
  }

  function ReadOf(task: Task): Option<Read>
  {
    match task
    case Writer(_, _, Base(rd)) => Some(rd)
    case Writer(_, _, Stored(rd)) => Some(rd)
    case Reader(_, rd) => Some(rd)
    case Waiter(_, rd, _, _) => Some(rd)
    case AbbrReader(rd) => Some(rd)
    case SummaryReader(rd) => Some(rd)
    case TreeReader(rd) => Some(rd)
    case _ => None
  }
}
