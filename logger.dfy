/** The CSV batch consumer (`src/pyBEEP/logger.py`): it takes blocks of rows
    from a queue until the `None` sentinel, buffers them, and writes the
    buffered blocks row by row whenever more than 20 are waiting, and once
    more after the sentinel.  The queue is the sequence of items the
    producer enqueues; the CSV file is the sequence of rows written to it. */
module Logger {
  import opened Common
  import opened Words

  /** One CSV row: the potential and the current of one acquired sample. */
  type Row = Pair

  /** One queued block of rows. */
  type Block = seq<Row>

  /** A batch is written once the buffer holds more than this many. */
  const BUFFER_LIMIT: nat := 20

  /** The blocks the consumer takes: the items before the first sentinel. */
  function Batches(items: seq<Option<Block>>): (bs: seq<Block>)
    ensures |bs| <= |items|
  {
    if items == [] || items[0].None? then [] else [items[0].value] + Batches(items[1..])
  }

  /** Position of the first sentinel. */
  function SentinelAt(items: seq<Option<Block>>): (k: nat)
    requires None in items
    ensures k < |items| && items[k] == None && forall i | 0 <= i < k :: items[i].Some?
  {
    if items[0] == None then 0 else 1 + SentinelAt(items[1..])
  }

  /** The taken blocks are exactly the items before the first sentinel, in
      order: each appears once, the sentinel is not among them, and nothing
      after it is. */
  lemma {:induction false} BatchesBeforeSentinel(items: seq<Option<Block>>)
    requires None in items
    ensures var k := SentinelAt(items);
      |Batches(items)| == k && forall i | 0 <= i < k :: Batches(items)[i] == items[i].value
  {
    if items[0] != None {
      assert None in items[1..];
      BatchesBeforeSentinel(items[1..]);
    }
  }

  /** How many blocks each write of the buffer carries when `n` blocks
      arrive: full buffers of 21 as they fill up, then what is left. */
  function FlushSizes(n: nat): seq<nat>
  {
    Fill(n / (BUFFER_LIMIT + 1), BUFFER_LIMIT + 1) + (if n % (BUFFER_LIMIT + 1) > 0 then [n % (BUFFER_LIMIT + 1)] else [])
  }

  /** Every block is written exactly once: the writes carry `n` blocks in
      total, each write at most 21 and at least one, and every write but
      the last exactly 21. */
  lemma FlushSizesProperties(n: nat)
    ensures var f := FlushSizes(n);
      Sum(f) == n &&
      (forall i | 0 <= i < |f| :: 1 <= f[i] <= BUFFER_LIMIT + 1) &&
      (forall i | 0 <= i < |f| - 1 :: f[i] == BUFFER_LIMIT + 1)
  {
    var q := n / (BUFFER_LIMIT + 1);
    var r := n % (BUFFER_LIMIT + 1);
    SumFill(q, BUFFER_LIMIT + 1);
    SumAppend(Fill(q, BUFFER_LIMIT + 1), if r > 0 then [r] else []);
    assert Sum([r]) == r;
  }

  /** The number of rows of a sequence of blocks. */
  function RowCount(bs: seq<Block>): nat
  {
    if bs == [] then 0 else |bs[0]| + RowCount(bs[1..])
  }

  /** Writing blocks row by row writes one row per block row. */
  lemma {:induction false} FlattenRowCount(bs: seq<Block>)
    ensures |Flatten(bs)| == RowCount(bs)
  {
    if bs != [] {
      FlattenRowCount(bs[1..]);
    }
  }

  class DataLogger {
    /** The items still waiting in the queue. */
    var queue: seq<Option<Block>>
    const filepath: string
    /** The rows the file at `filepath` holds. */
    var file: seq<Row>
    /** The number of blocks each flush of the file carried. */
    var flushes: seq<nat>

    /** `DataLogger(queue, filepath)`; `previous` is what the file held
        before the logger runs. */
    constructor (queue: seq<Option<Block>>, filepath: string, previous: seq<Row>)
      ensures this.queue == queue && this.filepath == filepath
      ensures file == previous && flushes == []
    {
      this.queue := queue;
      this.filepath := filepath;
      file := previous;
      flushes := [];
    }

    /** `_save_batch`: every row of every block, in order. */
    method SaveBatch(batch: seq<Block>)
      modifies this
      ensures file == old(file) + Flatten(batch)
      ensures queue == old(queue) && flushes == old(flushes)
    {
      var b := 0;
      while b < |batch|
        invariant 0 <= b <= |batch|
        invariant file == old(file) + Flatten(batch[..b])
        invariant queue == old(queue) && flushes == old(flushes)
      {
        var block := batch[b];
        var r := 0;
        while r < |block|
          invariant 0 <= r <= |block|
          invariant file == old(file) + Flatten(batch[..b]) + block[..r]
          invariant queue == old(queue) && flushes == old(flushes)
        {
          assert block[..r + 1] == block[..r] + [block[r]];
          file := file + [block[r]];
          r := r + 1;
        }
        assert block[..r] == block;
        assert batch[..b + 1] == batch[..b] + [block];
        FlattenPush(batch[..b], block);
        b := b + 1;
      }
      assert batch[..b] == batch;
    }

    /** A write of the buffer inside `run`, in the loop and after it:
        `_save_batch` of the buffer, then a flush of the file. */
    method WriteBuffer(buffer: seq<Block>)
      modifies this
      ensures file == old(file) + Flatten(buffer)
      ensures flushes == old(flushes) + [|buffer|]
      ensures queue == old(queue)
    {
      SaveBatch(buffer);
      flushes := flushes + [|buffer|];
    }

    /** `run`: opening the file for writing discards what it held; then the
        blocks before the sentinel are written, in order, each exactly once,
        flushed 21 blocks at a time and once more for the rest; the
        sentinel is consumed and the items behind it stay queued.  The
        source blocks on an empty queue, so it reaches the end only once a
        sentinel is queued. */
    method Run()
      requires None in queue
      modifies this
      ensures file == Flatten(Batches(old(queue)))
      ensures flushes == FlushSizes(|Batches(old(queue))|)
      ensures queue == old(queue)[SentinelAt(old(queue)) + 1..]
    {
      var buffer: seq<Block> := [];
      ghost var taken: seq<Block> := [];
      file := [];
      flushes := [];
      assert Progress(old(queue), queue, taken, buffer, file, flushes);
      while true
        invariant Progress(old(queue), queue, taken, buffer, file, flushes)
        invariant |buffer| <= BUFFER_LIMIT
        decreases |queue|
      {
        var item := queue[0];
        if item.None? {
          Finish(old(queue), queue, taken, buffer, file, flushes);
          queue := queue[1..];
          break;
        }
        TakeBlock(old(queue), queue, taken, buffer, file, flushes);
        queue := queue[1..];
        taken := taken + [item.value];
        buffer := buffer + [item.value];
        if |buffer| > BUFFER_LIMIT {
          WriteBuffer(buffer);
          buffer := [];
        }
      }
      if buffer != [] {
        WriteBuffer(buffer);
      }
    }
  }

  /** The state of `run` between items: `taken` are the blocks taken so
      far, a prefix of the items before the sentinel; the buffer holds the
      last `|taken| % 21` of them and the file the rows of all the others;
      every flush so far carried 21 blocks. */
  ghost predicate Progress(items: seq<Option<Block>>, queue: seq<Option<Block>>, taken: seq<Block>,
                           buffer: seq<Block>, file: seq<Row>, flushes: seq<nat>)
  {
    Queued(items, queue, taken) && Buffered(taken, buffer, file, flushes)
  }

  ghost predicate Queued(items: seq<Option<Block>>, queue: seq<Option<Block>>, taken: seq<Block>)
  {
    None in items && None in queue &&
    |taken| <= SentinelAt(items) && queue == items[|taken|..] &&
    Batches(items) == taken + Batches(queue)
  }

  ghost predicate Buffered(taken: seq<Block>, buffer: seq<Block>, file: seq<Row>, flushes: seq<nat>)
  {
    |buffer| == |taken| % (BUFFER_LIMIT + 1) && |buffer| <= |taken| &&
    buffer == taken[|taken| - |buffer|..] &&
    file == Flatten(taken[..|taken| - |buffer|]) &&
    flushes == Fill(|taken| / (BUFFER_LIMIT + 1), BUFFER_LIMIT + 1)
  }

  /** Taking a block appends it to the buffer; the 21st block in the buffer
      sends the whole buffer to the file. */
  lemma TakeBlock(items: seq<Option<Block>>, queue: seq<Option<Block>>, taken: seq<Block>,
                  buffer: seq<Block>, file: seq<Row>, flushes: seq<nat>)
    requires Progress(items, queue, taken, buffer, file, flushes) && queue[0].Some?
    ensures var b := queue[0].value;
      |buffer| + 1 <= BUFFER_LIMIT ==>
        Progress(items, queue[1..], taken + [b], buffer + [b], file, flushes)
    ensures var b := queue[0].value;
      |buffer| + 1 > BUFFER_LIMIT ==>
        Progress(items, queue[1..], taken + [b], [], file + Flatten(buffer + [b]), flushes + [|buffer + [b]|])
  {
    TakeQueued(items, queue, taken);
    TakeBuffered(taken, buffer, file, flushes, queue[0].value);
  }

  lemma TakeQueued(items: seq<Option<Block>>, queue: seq<Option<Block>>, taken: seq<Block>)
    requires Queued(items, queue, taken) && queue[0].Some?
    ensures Queued(items, queue[1..], taken + [queue[0].value])
  {
    var t := taken + [queue[0].value];
    var k := SentinelAt(items);
    assert queue[0] == items[|taken|];
    assert |taken| < k;
    assert items[k] == queue[k - |taken|];
    assert None in queue[1..];
    assert queue[1..] == items[|t|..];
    assert Batches(queue) == [queue[0].value] + Batches(queue[1..]);
    AppendAssoc(taken, [queue[0].value], Batches(queue[1..]));
  }

  lemma TakeBuffered(taken: seq<Block>, buffer: seq<Block>, file: seq<Row>, flushes: seq<nat>, b: Block)
    requires Buffered(taken, buffer, file, flushes)
    ensures |buffer| + 1 <= BUFFER_LIMIT ==> Buffered(taken + [b], buffer + [b], file, flushes)
    ensures |buffer| + 1 > BUFFER_LIMIT ==>
      Buffered(taken + [b], [], file + Flatten(buffer + [b]), flushes + [|buffer + [b]|])
  {
    var t := taken + [b];
    if |buffer| + 1 <= BUFFER_LIMIT {
      assert t[..|t| - |buffer + [b]|] == taken[..|taken| - |buffer|];
    } else {
      assert |buffer + [b]| == BUFFER_LIMIT + 1;
      FlattenAppend(taken[..|taken| - |buffer|], buffer + [b]);
      assert taken[..|taken| - |buffer|] + (buffer + [b]) == t;
      assert t[..|t| - 0] == t;
      FillAppend(|taken| / (BUFFER_LIMIT + 1), 1, BUFFER_LIMIT + 1);
    }
  }

  /** At the sentinel every block before it has been taken; writing what
      the buffer still holds completes the file and the flushes. */
  lemma Finish(items: seq<Option<Block>>, queue: seq<Option<Block>>, taken: seq<Block>,
               buffer: seq<Block>, file: seq<Row>, flushes: seq<nat>)
    requires Progress(items, queue, taken, buffer, file, flushes) && queue[0].None?
    ensures Batches(items) == taken && SentinelAt(items) == |taken|
    ensures queue[1..] == items[SentinelAt(items) + 1..]
    ensures buffer == [] ==> file == Flatten(taken) && flushes == FlushSizes(|taken|)
    ensures buffer != [] ==> file + Flatten(buffer) == Flatten(taken) && flushes + [|buffer|] == FlushSizes(|taken|)
  {
    FinishQueue(items, queue, taken);
    FinishFile(taken, buffer, file, flushes);
  }

  /** At the sentinel the taken blocks are all the blocks before it. */
  lemma FinishQueue(items: seq<Option<Block>>, queue: seq<Option<Block>>, taken: seq<Block>)
    requires Queued(items, queue, taken) && queue[0].None?
    ensures Batches(items) == taken && SentinelAt(items) == |taken|
    ensures queue[1..] == items[SentinelAt(items) + 1..]
  {
    assert queue[0] == items[|taken|];
    assert Batches(queue) == [];
    assert taken + [] == taken;
  }

  /** The file and the flushes once the rest of the buffer is written. */
  lemma FinishFile(taken: seq<Block>, buffer: seq<Block>, file: seq<Row>, flushes: seq<nat>)
    requires Buffered(taken, buffer, file, flushes)
    ensures buffer == [] ==> file == Flatten(taken) && flushes == FlushSizes(|taken|)
    ensures buffer != [] ==> file + Flatten(buffer) == Flatten(taken) && flushes + [|buffer|] == FlushSizes(|taken|)
  {
    if buffer == [] {
      assert taken[..|taken| - 0] == taken;
    } else {
      FlattenAppend(taken[..|taken| - |buffer|], buffer);
      assert taken[..|taken| - |buffer|] + buffer == taken;
    }
  }
}
