/** A running node in small steps: any number of `apply_block` calls, state readers, waiters and
    RPC handlers interleave with cache eviction and with crashes at any point. */
module Machine {
  import opened Ledger
  import opened Quorum
  import opened Tables
  import opened Growth

  /** Where a read of a state stands.  Each step looks at the tables or the cache once. */
  datatype Read =
    | AskHeight
    | LookInCache(h: nat)
    | QueryBlock(h: nat)
    | FillCache(h: nat, blk: Block)
    | QueryStakes(h: nat, blk: Block)
    | Done(h: nat, state: Option<State>)

  /** Where an `apply_block` call stands. */
  datatype Phase =
    | Queued
    | Base(rd: Read)
    | Checked(next: State)
    | Flushed(next: State)
    | Stored(rd: Read)
    | Rebased
    | Leaving

  type Abbr = (Header, set<TxHash>)
  type TxTree = map<TxHash, Tx>

  datatype Task =
    | Writer(blk: Block, proof: Proof, phase: Phase)
    | Reader(top: bool, rd: Read)
    | Waiter(h: nat, rd: Read, woken: bool, asleep: bool)
    | AbbrReader(rd: Read)
    | AbbrProof(h: nat, blk: Block)
    | AbbrFill(h: nat, abbr: Abbr, proof: Proof)
    | SummaryReader(rd: Read)
    | SummaryProof(header: Header)
    | SummaryFill(header: Header, proof: Proof)
    | TreeReader(rd: Read)
    | TreeFill(h: nat, tree: TxTree)

  datatype Machine = Machine(
    tables: Tables,
    durable: set<Digest>,
    unflushed: set<Digest>,
    cache: map<nat, Block>,
    abbrs: map<nat, (Abbr, Proof)>,
    summaries: map<nat, (Header, Proof)>,
    trees: map<nat, TxTree>,
    lock: Option<nat>,
    tasks: map<nat, Task>,
    rebasedTo: nat,
    dead: bool)

  function Abbreviate(blk: Block): Abbr
  {
    (blk.header, set tx | tx in blk.transactions :: tx.hash)
  }

  function TreeOf(txs: seq<Tx>): TxTree
  {
    if txs == [] then map[] else TreeOf(txs[..|txs| - 1])[txs[|txs| - 1].hash := txs[|txs| - 1]]
  }

  /** An abbreviated block has the header and exactly the hashes of its transactions. */
  lemma AbbreviationHolds(blk: Block, x: TxHash)
    ensures Abbreviate(blk).0 == blk.header
    ensures x in Abbreviate(blk).1 <==> exists i :: 0 <= i < |blk.transactions| && blk.transactions[i].hash == x
  {
    assert forall i | 0 <= i < |blk.transactions| :: blk.transactions[i] in blk.transactions;
  }

  /** The transaction tree has every hash of the transactions, with the last transaction of that hash. */
  lemma {:induction false} TreeHolds(txs: seq<Tx>, i: nat)
    requires i < |txs| && forall j | i < j < |txs| :: txs[j].hash != txs[i].hash
    ensures txs[i].hash in TreeOf(txs) && TreeOf(txs)[txs[i].hash] == txs[i]
  {
    if i < |txs| - 1 {
      TreeHolds(txs[..|txs| - 1], i);
      assert txs[|txs| - 1].hash != txs[i].hash;
    }
  }

  /** And no other. */
  lemma {:induction false} TreeHoldsNoMore(txs: seq<Tx>, x: TxHash)
    requires forall i | 0 <= i < |txs| :: txs[i].hash != x
    ensures x !in TreeOf(txs)
  {
    if txs != [] {
      TreeHoldsNoMore(txs[..|txs| - 1], x);
    }
  }

  // ---- Steps ----

  datatype Step =
    | Spawn(id: nat, task: Task)
    | Run(id: nat)
    | Evict(blocks: set<nat>, abbrs: set<nat>, summaries: set<nat>, trees: set<nat>)
    | Crash(kept: nat, survivors: set<Digest>)

  predicate Initial(task: Task)
  {
    match task
    case Writer(_, _, phase) => phase == Queued
    case Reader(top, rd) => if top then rd == AskHeight else rd.LookInCache?
    case Waiter(h, rd, woken, asleep) => rd == LookInCache(h) && !woken && !asleep
    case AbbrReader(rd) => rd.LookInCache?
    case SummaryReader(rd) => rd == AskHeight
    case TreeReader(rd) => rd.LookInCache?
    case _ => false
  }

  /** A finished task has no step, a queued writer waits for the lock, a sleeping waiter for a notice. */
  predicate CanRun(m: Machine, task: Task)
  {
    match task
    case Writer(_, _, phase) => phase == Queued ==> m.lock == None
    case Reader(_, rd) => !rd.Done?
    case Waiter(_, rd, woken, asleep) => (asleep ==> woken) && (rd.Done? ==> rd.state == None)
    case _ => true
  }

  predicate Enabled(m: Machine, s: Step)
  {
    match s
    case Spawn(id, task) => !m.dead && id !in m.tasks && Initial(task)
    case Run(id) => !m.dead && id in m.tasks && CanRun(m, m.tasks[id])
    case Evict(_, _, _, _) => !m.dead
    case Crash(kept, survivors) => kept <= Highest(m.tables) && survivors <= m.unflushed
  }

  /** One step of a read; None when the rebuilt stake set does not match, which kills the process. */
  function ReadStep(r: Rules, t: Tables, cache: map<nat, Block>, rd: Read): Option<Read>
  {
    match rd
    case AskHeight => if Highest(t) == 0 then Some(Done(0, Some(Genesis(r)))) else Some(LookInCache(Highest(t)))
    case LookInCache(h) => if h in cache then Some(QueryStakes(h, cache[h])) else Some(QueryBlock(h))
    case QueryBlock(h) => if h in t.history then Some(FillCache(h, t.history[h])) else Some(Done(h, None))
    case FillCache(h, blk) => Some(QueryStakes(h, blk))
    case QueryStakes(h, blk) =>
      (match Rebuild(blk, Indexed(r, t, h))
       case Found(s) => Some(Done(h, Some(s)))
       case _ => None)
    case Done(_, _) => Some(rd)
  }

  function CacheAfter(cache: map<nat, Block>, rd: Read): map<nat, Block>
  {
    if rd.FillCache? then cache[rd.h := rd.blk] else cache
  }

  /** Nothing happened to the tasks other than `id`. */
  predicate OthersKept(m: Machine, m': Machine, id: nat)
  {
    m'.tasks - {id} == m.tasks - {id}
  }

  function Put(m: Machine, id: nat, task: Task): (m': Machine)
    ensures id in m'.tasks && m'.tasks[id] == task && m'.lock == m.lock
    ensures m'.tables == m.tables && m'.dead == m.dead && OthersKept(m, m', id)
  {
    m.(tasks := m.tasks[id := task])
  }

  function Finish(m: Machine, id: nat): (m': Machine)
    ensures id !in m'.tasks
    ensures m'.tables == m.tables && m'.dead == m.dead && OthersKept(m, m', id)
  {
    m.(tasks := m.tasks - {id}, lock := if m.lock == Some(id) then None else m.lock)
  }

  /** The task with its read replaced. */
  function WithRead(task: Task, rd: Read): Task
  {
    match task
    case Writer(blk, proof, Base(_)) => Writer(blk, proof, Base(rd))
    case Writer(blk, proof, Stored(_)) => Writer(blk, proof, Stored(rd))
    case Reader(top, _) => Reader(top, rd)
    case Waiter(h, _, woken, asleep) => Waiter(h, rd, woken, asleep)
    case AbbrReader(_) => AbbrReader(rd)
    case SummaryReader(_) => SummaryReader(rd)
    case TreeReader(_) => TreeReader(rd)
    case _ => task
  }

  /** One step of the read inside a task. */
  function Advance(r: Rules, m: Machine, id: nat, rd: Read): (m': Machine)
    requires id in m.tasks
    ensures m'.tables == m.tables && OthersKept(m, m', id)
    ensures m'.dead ==> m.dead || ReadStep(r, m.tables, m.cache, rd) == None
  {
    match ReadStep(r, m.tables, m.cache, rd)
    case None => m.(dead := true)
    case Some(rd') => Put(m.(cache := CacheAfter(m.cache, rd)), id, WithRead(m.tasks[id], rd'))
  }

  function Noticed(task: Task): Task
  {
    if task.Waiter? then task.(woken := true) else task
  }

  function RunWriter(r: Rules, tally: Tally, m: Machine, id: nat, blk: Block, proof: Proof, phase: Phase): Machine
    requires id in m.tasks
  {
    match phase
    case Queued => Put(m, id, Writer(blk, proof, Base(AskHeight))).(lock := Some(id))
    case Base(rd) =>
      if !rd.Done? then Advance(r, m, id, rd)
      else if rd.state == None then m.(dead := true)
      else
        (match Decide(r, tally, rd.state.value, blk, proof)
         case Go(next) => Put(m, id, Writer(blk, proof, Checked(next))).(unflushed := m.unflushed + {next.header.root})
         case Stop(outcome) => if outcome == Aborted then m.(dead := true) else Finish(m, id))
    case Checked(next) =>
      Put(m, id, Writer(blk, proof, Flushed(next))).(durable := m.durable + m.unflushed, unflushed := {})
    case Flushed(_) =>
      (match Commit(m.tables, blk, proof)
       case None => Finish(m, id)
       case Some(t') => Put(m, id, Writer(blk, proof, Stored(AskHeight))).(tables := t'))
    case Stored(rd) =>
      if !rd.Done? then Advance(r, m, id, rd)
      else if rd.state == None then m.(dead := true)
      else Put(m, id, Writer(blk, proof, Rebased)).(rebasedTo := rd.h)
    case Rebased =>
      m.(tasks := MapValues(Noticed, m.tasks)[id := Writer(blk, proof, Leaving)])
    case Leaving => Finish(m, id)
  }

  function RunTask(r: Rules, tally: Tally, m: Machine, id: nat): Machine
    requires id in m.tasks
  {
    match m.tasks[id]
    case Writer(blk, proof, phase) => RunWriter(r, tally, m, id, blk, proof, phase)
    case Reader(top, rd) => Advance(r, m, id, rd)
    case Waiter(h, rd, woken, asleep) =>
      if asleep then Put(m, id, Waiter(h, LookInCache(h), false, false))
      else if rd.Done? then Put(m, id, Waiter(h, rd, woken, true))
      else Advance(r, m, id, rd)
    case AbbrReader(rd) =>
      if rd.QueryStakes? then Put(m, id, AbbrProof(rd.h, rd.blk))
      else if rd.Done? then Finish(m, id)
      else if rd.LookInCache? && rd.h in m.abbrs then Finish(m, id)
      else Advance(r, m, id, rd)
    case AbbrProof(h, blk) =>
      if h in m.tables.proofs then Put(m, id, AbbrFill(h, Abbreviate(blk), m.tables.proofs[h])) else Finish(m, id)
    case AbbrFill(h, abbr, proof) => Finish(m.(abbrs := m.abbrs[h := (abbr, proof)]), id)
    case SummaryReader(rd) =>
      if !rd.Done? then Advance(r, m, id, rd)
      else if rd.state == None then m.(dead := true)
      else if rd.state.value.header.height in m.summaries then Finish(m, id)
      else Put(m, id, SummaryProof(rd.state.value.header))
    case SummaryProof(header) =>
      var proof := if header.height in m.tables.proofs then m.tables.proofs[header.height] else map[];
      Put(m, id, SummaryFill(header, proof))
    case SummaryFill(header, proof) => Finish(m.(summaries := m.summaries[header.height := (header, proof)]), id)
    case TreeReader(rd) =>
      if rd.LookInCache? && rd.h in m.trees then Finish(m, id)
      else if !rd.Done? then Advance(r, m, id, rd)
      else if rd.state == None then Finish(m, id)
      else Put(m, id, TreeFill(rd.h, TreeOf(rd.state.value.transactions)))
    case TreeFill(h, tree) => Finish(m.(trees := m.trees[h := tree]), id)
  }

  /** The caches may forget anything at any time. */
  function Evicted(m: Machine, blocks: set<nat>, abbrs: set<nat>, summaries: set<nat>, trees: set<nat>): Machine
  {
    m.(cache := m.cache - blocks, abbrs := m.abbrs - abbrs,
       summaries := m.summaries - summaries, trees := m.trees - trees)
  }

  /** A node freshly opened on whatever the disk holds. */
  function Opened(r: Rules, disk: Tables, nodes: set<Digest>): Machine
  {
    Machine(OpenTables(r, disk), nodes, {}, map[], map[], map[], map[], None, map[], 0, false)
  }

  function Next(r: Rules, tally: Tally, m: Machine, s: Step): Machine
    requires Enabled(m, s)
  {
    match s
    case Spawn(id, task) => Put(m, id, task)
    case Run(id) => RunTask(r, tally, m, id)
    case Evict(blocks, abbrs, summaries, trees) => Evicted(m, blocks, abbrs, summaries, trees)
    case Crash(kept, survivors) => Opened(r, Truncate(m.tables, kept), m.durable + survivors)
  }

  const NO_TABLES := Tables(map[], map[], map[])

  /** A run from a fresh store: `steps[i]` leads from `run[i]` to `run[i + 1]`. */
  ghost predicate IsRun(r: Rules, tally: Tally, run: seq<Machine>, steps: seq<Step>)
  {
    && |run| == |steps| + 1 && run[0] == Opened(r, NO_TABLES, {})
    && forall i | 0 <= i < |steps| :: Leads(r, tally, run[i], steps[i], run[i + 1])
  }

  predicate Leads(r: Rules, tally: Tally, m: Machine, s: Step, m': Machine)
  {
    Enabled(m, s) && m' == Next(r, tally, m, s)
  }
}
