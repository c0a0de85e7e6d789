/** Serving stored blocks in size-bounded batches. */
module Batch {
  import opened Ledger
  import opened Tables
  import opened Chain
  import opened Growth
  import opened Replay

  /** The lengths of encoded blocks and proofs. */
  datatype Sizes = Sizes(block: Block -> nat, proof: Proof -> nat)

  ghost predicate Positive(sz: Sizes)
  {
    forall b, p :: sz.block(b) + sz.proof(p) > 0
  }

  function Bytes(sz: Sizes, blocks: seq<Block>, proofs: seq<Proof>): nat
    requires |blocks| == |proofs|
  {
    if blocks == [] then 0 else
    var last := |blocks| - 1;
    Bytes(sz, blocks[..last], proofs[..last]) + sz.block(blocks[last]) + sz.proof(proofs[last])
  }

  datatype Batch = Batch(blocks: seq<Block>, proofs: seq<Proof>)

  /** The batch is read off the tables from height `start` on. */
  ghost predicate ReadFrom(t: Tables, start: nat, b: Batch)
  {
    && (forall h | start <= h < start + |b.blocks| :: h in t.history && t.history[h] == b.blocks[h - start])
    && (forall h | start <= h < start + |b.proofs| :: h in t.proofs && t.proofs[h] == b.proofs[h - start])
  }

  /** What a peer can rely on: zipping gives a nonempty run of stored pairs, and at most one proof
      is left over. */
  ghost predicate GoodBatch(t: Tables, start: nat, b: Batch)
  {
    && ReadFrom(t, start, b)
    && 1 <= |b.blocks| <= |b.proofs| <= |b.blocks| + 1
  }

  /** It fits the limit, or is a single pair. */
  ghost predicate Fits(sz: Sizes, limit: nat, b: Batch)
    requires |b.blocks| <= |b.proofs|
  {
    |b.blocks| == 1 || Bytes(sz, b.blocks, b.proofs[..|b.blocks|]) <= limit
  }

  /** It could not be longer: the single pair is already too large, the next pair would not fit, or
      the next block was not there when it was looked for. */
  ghost predicate Maximal(sz: Sizes, limit: nat, t: Tables, start: nat, b: Batch)
    requires |b.blocks| <= |b.proofs|
  {
    var n := |b.blocks|;
    || (n == 1 && Bytes(sz, b.blocks, b.proofs[..n]) > limit)
    || (n + 1 == |b.proofs| && start + n in t.history
        && Bytes(sz, b.blocks + [t.history[start + n]], b.proofs) > limit)
    || start + n !in t.history
  }

  /** Without its last pair, what was read fits the limit. */
  ghost predicate FrontFits(sz: Sizes, limit: nat, read: seq<Block>, proofs: seq<Proof>)
    requires |read| == |proofs|
  {
    read != [] ==> Bytes(sz, read[..|read| - 1], proofs[..|read| - 1]) <= limit
  }

  /** The blocks kept of those read: all, or all but the last once the limit is passed. */
  function Trim(blocks: seq<Block>, over: bool): seq<Block>
  {
    if over && |blocks| > 1 then blocks[..|blocks| - 1] else blocks
  }

  /** Where the loop stands after reading `read` off the tables, of which it keeps `accum`. */
  ghost predicate Reading(sz: Sizes, limit: nat, t: Tables, start: nat, read: seq<Block>, accum: seq<Block>,
                          proofs: seq<Proof>, total: nat)
  {
    && |read| == |proofs|
    && ReadFrom(t, start, Batch(read, proofs))
    && total == Bytes(sz, read, proofs)
    && FrontFits(sz, limit, read, proofs)
    && accum == Trim(read, total > limit)
  }

  /** Reading one more pair, the block now and its proof a little later. */
  lemma ReadingMore(sz: Sizes, limit: nat, t: Tables, now: Tables, later: Tables, start: nat, read: seq<Block>,
                    accum: seq<Block>, proofs: seq<Proof>, total: nat)
    requires Reading(sz, limit, t, start, read, accum, proofs, total) && total <= limit
    requires Extends(now, t) && Extends(later, now) && Dense(now)
    requires start + |read| in now.history
    ensures start + |read| in later.proofs
    ensures var blk, proof := now.history[start + |read|], later.proofs[start + |read|];
      var total' := total + sz.block(blk) + sz.proof(proof);
      Reading(sz, limit, later, start, read + [blk], Trim(accum + [blk], total' > limit), proofs + [proof], total')
  {
    hide Extends, Dense, Highest, ReadFrom, Bytes;
    var h := start + |read|;
    BlockHasProof(now, later, h);
    ReadFromLater(t, now, start, Batch(read, proofs));
    ReadFromLater(now, later, start, Batch(read, proofs));
    ReadFromMore(later, start, Batch(read, proofs));
    OneMorePair(sz, read, proofs, now.history[h], later.proofs[h]);
    assert accum == read;
  }

  lemma ReadFromMore(t: Tables, start: nat, b: Batch)
    requires ReadFrom(t, start, b) && |b.blocks| == |b.proofs|
    requires start + |b.blocks| in t.history && start + |b.blocks| in t.proofs
    ensures var next := start + |b.blocks|;
      ReadFrom(t, start, Batch(b.blocks + [t.history[next]], b.proofs + [t.proofs[next]]))
  {}

  lemma OneMorePair(sz: Sizes, read: seq<Block>, proofs: seq<Proof>, blk: Block, proof: Proof)
    requires |read| == |proofs|
    ensures Bytes(sz, read + [blk], proofs + [proof]) == Bytes(sz, read, proofs) + sz.block(blk) + sz.proof(proof)
    ensures (read + [blk])[..|read|] == read && (proofs + [proof])[..|read|] == proofs
  {
    assert (read + [blk])[..|read|] == read && (proofs + [proof])[..|read|] == proofs;
  }

  /** Nothing more is there, or the limit is passed: what is kept is a good, fitting, maximal batch. */
  lemma ReadingEnds(sz: Sizes, limit: nat, t: Tables, now: Tables, start: nat, read: seq<Block>, accum: seq<Block>,
                    proofs: seq<Proof>, total: nat)
    requires Reading(sz, limit, t, start, read, accum, proofs, total) && |read| > 0 && Extends(now, t)
    requires total > limit || start + |read| !in now.history
    ensures GoodBatch(now, start, Batch(accum, proofs))
    ensures Fits(sz, limit, Batch(accum, proofs)) && Maximal(sz, limit, now, start, Batch(accum, proofs))
  {
    hide Extends, Bytes, ReadFrom, Fits, Maximal;
    ReadFromLater(t, now, start, Batch(read, proofs));
    KeptIsRead(now, start, Batch(read, proofs), Batch(accum, proofs));
    KeptIsMaximal(sz, limit, now, start, read, accum, proofs, total);
  }

  lemma KeptIsRead(t: Tables, start: nat, read: Batch, kept: Batch)
    requires ReadFrom(t, start, read) && kept.blocks <= read.blocks && kept.proofs == read.proofs
    ensures ReadFrom(t, start, kept)
  {}

  lemma KeptIsMaximal(sz: Sizes, limit: nat, now: Tables, start: nat, read: seq<Block>, accum: seq<Block>,
                      proofs: seq<Proof>, total: nat)
    requires Reading(sz, limit, now, start, read, accum, proofs, total) && |read| > 0
    requires total > limit || start + |read| !in now.history
    ensures |accum| <= |proofs|
    ensures Fits(sz, limit, Batch(accum, proofs)) && Maximal(sz, limit, now, start, Batch(accum, proofs))
  {
    hide Bytes;
    var n := |read| - 1;
    assert proofs[..|read|] == proofs && read[..n] + [read[n]] == read;
    assert start + n in now.history && now.history[start + n] == read[n];
  }

  const MAX_BATCH := 10_000_000

  lemma ReadFromLater(earlier: Tables, later: Tables, start: nat, b: Batch)
    requires Extends(later, earlier) && ReadFrom(earlier, start, b)
    ensures ReadFrom(later, start, b)
  {
    hide Highest;
    var p := Truncate(later, Highest(earlier));
    forall h | start <= h < start + |b.blocks| ensures h in later.history && later.history[h] == b.blocks[h - start] {
      assert h in p.history;
    }
    forall h | start <= h < start + |b.proofs| ensures h in later.proofs && later.proofs[h] == b.proofs[h - start] {
      assert h in p.proofs;
    }
  }

  /** A block read at one time, with the proof read right after it. */
  method ReadPair(ghost sz: Sizes, ghost limit: nat, views: nat -> Tables, start: nat, ghost end: nat, now: nat,
                  ghost read: seq<Block>, accum: seq<Block>, proofs: seq<Proof>, total: nat)
    returns (pair: Option<(Block, Proof)>)
    requires Growing(views) && (forall i :: Dense(views(i))) && end <= now
    requires Reading(sz, limit, views(end), start, read, accum, proofs, total) && total <= limit
    ensures pair.Some? <==> start + |proofs| in views(now).history
    ensures pair.Some? ==>
      var (blk, proof) := pair.value;
      var total' := total + sz.block(blk) + sz.proof(proof);
      Reading(sz, limit, views(now + 1), start, read + [blk], Trim(accum + [blk], total' > limit),
              proofs + [proof], total')
    ensures pair.None? && |read| > 0 ==>
      var b := Batch(accum, proofs);
      GoodBatch(views(now), start, b) && Fits(sz, limit, b) && Maximal(sz, limit, views(now), start, b)
  {
    hide Extends, Highest, GoodBatch, Fits, Maximal, Dense, Growing, Trim, ReadFrom, Bytes, FrontFits;
    GrowsTo(views, end, now);
    GrowsTo(views, now, now + 1);
    var height := start + |proofs|;
    if height in views(now).history {
      ReadingMore(sz, limit, views(end), views(now), views(now + 1), start, read, accum, proofs, total);
      return Some((views(now).history[height], views(now + 1).proofs[height]));
    } else {
      if |read| > 0 {
        ReadingEnds(sz, limit, views(end), views(now), start, read, accum, proofs, total);
      }
      return None;
    }
  }

  /** What a peer gets for a request that was served between the times `from` and `end`. */
  ghost predicate Served(sz: Sizes, views: nat -> Tables, from: nat, end: nat, start: nat, sizeLimit: nat,
                         reply: Option<Batch>)
  {
    && (reply.None? <==> start !in views(from).history)
    && (reply.Some? ==>
          var limit := if sizeLimit < MAX_BATCH then sizeLimit else MAX_BATCH;
          && GoodBatch(views(end), start, reply.value)
          && Fits(sz, limit, reply.value)
          && Maximal(sz, limit, views(end), start, reply.value))
  }

  /** Reads blocks and proofs one by one from a store that may grow between any two reads, until
      the limit is passed or a block is missing; `end` is the time of the last read.  A block whose
      proof is missing, on which the node would spin, is never met. */
  method GetLz4Blocks(sz: Sizes, views: nat -> Tables, from: nat, start: nat, sizeLimit: nat)
    returns (reply: Option<Batch>, ghost end: nat)
    requires Positive(sz) && Growing(views) && forall i :: Dense(views(i))
    ensures reply.None? <==> start !in views(from).history
    ensures from <= end && Served(sz, views, from, end, start, sizeLimit, reply)
  {
    hide Extends, Highest, Reading, GoodBatch, Fits, Maximal, Dense, Growing, Trim;
    var limit := if sizeLimit < MAX_BATCH then sizeLimit else MAX_BATCH;
    ReadingStarts(sz, limit, views(from), start);
    var totalCount: nat := 0;
    var accum: seq<Block>, proofAccum: seq<Proof> := [], [];
    var now: nat := from;
    end := from;
    ghost var read: seq<Block> := [];
    while totalCount <= limit
      invariant from <= end <= now && |read| == |proofAccum|
      invariant Reading(sz, limit, views(end), start, read, accum, proofAccum, totalCount)
      invariant |read| == 0 <==> |accum| == 0
      invariant |read| == 0 ==> now == from && totalCount == 0
      invariant |read| > 0 ==> start in views(from).history
      decreases limit + 1 - totalCount
    {
      var pair := ReadPair(sz, limit, views, start, end, now, read, accum, proofAccum, totalCount);
      if pair.None? {
        if |accum| == 0 {
          return None, now;
        }
        return Some(Batch(accum, proofAccum)), now;
      }
      var (block, proof) := pair.value;
      totalCount := totalCount + sz.block(block);
      totalCount := totalCount + sz.proof(proof);
      proofAccum := proofAccum + [proof];
      accum := PopIfOver(accum + [block], totalCount, limit);
      read := read + [block];
      end := now + 1;
      now := now + 2;
    }
    GrowsTo(views, end, end);
    ReadingEnds(sz, limit, views(end), views(end), start, read, accum, proofAccum, totalCount);
    return Some(Batch(accum, proofAccum)), end;
  }

  lemma ReadingStarts(sz: Sizes, limit: nat, t: Tables, start: nat)
    ensures Reading(sz, limit, t, start, [], [], [], 0)
  {}

  method PopIfOver(blocks: seq<Block>, totalCount: nat, limit: nat) returns (kept: seq<Block>)
    ensures kept == Trim(blocks, totalCount > limit)
    ensures |blocks| > 0 ==> |kept| > 0
  {
    kept := blocks;
    if totalCount > limit {
      if |kept| > 1 {
        kept := kept[..|kept| - 1];
      }
    }
  }

  lemma GrowsTo(views: nat -> Tables, i: nat, j: nat)
    requires Growing(views) && i <= j
    ensures Extends(views(j), views(i))
  {}

  lemma BlockHasProof(earlier: Tables, later: Tables, h: nat)
    requires Dense(earlier) && Extends(later, earlier) && h in earlier.history
    ensures h in later.history && later.history[h] == earlier.history[h] && h in later.proofs
  {
    assert h in earlier.proofs;
    assert h in Truncate(later, Highest(earlier)).history && h in Truncate(later, Highest(earlier)).proofs;
  }

  /** A batch with more than one block is never longer than asked for, nor than ten million bytes. */
  lemma BatchesAreBounded(sz: Sizes, views: nat -> Tables, from: nat, end: nat, start: nat, sizeLimit: nat, b: Batch)
    requires Served(sz, views, from, end, start, sizeLimit, Some(b)) && |b.blocks| > 1
    ensures |b.proofs| >= |b.blocks|
    ensures Bytes(sz, b.blocks, b.proofs[..|b.blocks|]) <= sizeLimit
    ensures Bytes(sz, b.blocks, b.proofs[..|b.blocks|]) <= 10_000_000
  {
    hide Bytes;
  }
}
