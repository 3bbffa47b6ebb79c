/**
 * Batching of the files found under a directory for bulk parsing: non-file
 * entries are skipped and the files are grouped in order into batches of
 * `batchSize`, the last one possibly smaller and never empty.
 */
module ParseMassBins {

  /** A directory-walk entry. */
  datatype Entry = Entry(path: string, isFile: bool)

  /** The default batch size. */
  const DefaultBatchSize: int := 1000

  /** The file entries, in walk order. */
  function Files(entries: seq<Entry>): seq<Entry> {
    if entries == [] then []
    else (if entries[0].isFile then [entries[0]] else []) + Files(entries[1..])
  }

  /** The files are exactly the file entries, in order. */
  lemma {:induction false} FilesSpec(entries: seq<Entry>)
    ensures forall e :: e in Files(entries) <==> e in entries && e.isFile
  {
    if entries != [] {
      FilesSpec(entries[1..]);
      assert entries == [entries[0]] + entries[1..];
    }
  }

  function Concat(batches: seq<seq<Entry>>): seq<Entry> {
    if batches == [] then [] else batches[0] + Concat(batches[1..])
  }

  lemma {:induction false} ConcatSnoc(batches: seq<seq<Entry>>, b: seq<Entry>)
    ensures Concat(batches + [b]) == Concat(batches) + b
  {
    if batches == [] {
      assert [b][1..] == [];
      assert Concat([b]) == b + Concat([]);
    } else {
      assert (batches + [b])[1..] == batches[1..] + [b];
      ConcatSnoc(batches[1..], b);
    }
  }

  lemma {:induction false} FilesAppend(xs: seq<Entry>, e: Entry)
    ensures Files(xs + [e]) == Files(xs) + (if e.isFile then [e] else [])
  {
    var tail := if e.isFile then [e] else [];
    if xs == [] {
      assert [e][1..] == [];
      assert Files([e]) == tail + Files([]);
    } else {
      var head := if xs[0].isFile then [xs[0]] else [];
      assert (xs + [e])[0] == xs[0];
      assert (xs + [e])[1..] == xs[1..] + [e];
      FilesAppend(xs[1..], e);
      assert Files(xs + [e]) == head + Files(xs[1..] + [e]);
      assert head + (Files(xs[1..]) + tail) == (head + Files(xs[1..])) + tail;
    }
  }

  /** Every batch holds exactly `size` files. */
  predicate Full(batches: seq<seq<Entry>>, size: int) {
    forall k | 0 <= k < |batches| :: |batches[k]| == size
  }

  /** The shape the generator promises: no empty batch, all but the last full, the last not over-full. */
  predicate WellBatched(batches: seq<seq<Entry>>, size: int) {
    && (forall k | 0 <= k < |batches| :: |batches[k]| > 0)
    && (forall k | 0 <= k < |batches| - 1 :: |batches[k]| == size)
    && (size >= 1 ==> forall k | 0 <= k < |batches| :: |batches[k]| <= size)
    && (size < 1 ==> |batches| <= 1)
  }

  lemma FullSnoc(batches: seq<seq<Entry>>, b: seq<Entry>, size: int)
    requires Full(batches, size) && |b| == size
    ensures Full(batches + [b], size)
  {
    assert forall k | 0 <= k < |batches| :: (batches + [b])[k] == batches[k];
  }

  /** Full batches of a positive size, then a final batch that is non-empty and not over-full, are well batched. */
  lemma FinishBatches(batches: seq<seq<Entry>>, last: seq<Entry>, size: int)
    requires Full(batches, size) && (batches != [] ==> size > 0)
    requires size >= 1 ==> |last| < size
    ensures WellBatched(batches, size)
    ensures last != [] ==> WellBatched(batches + [last], size)
  {
    if last != [] {
      assert forall k | 0 <= k < |batches| :: (batches + [last])[k] == batches[k];
    }
  }

  /** The loop body for one file: append it, and yield the batch once it is full. */
  method AddFile(batches: seq<seq<Entry>>, batch: seq<Entry>, file: Entry, batchSize: int) returns (batches': seq<seq<Entry>>, batch': seq<Entry>)
    requires Full(batches, batchSize) && (batches != [] ==> batchSize > 0)
    requires batchSize >= 1 ==> |batch| < batchSize
    ensures Concat(batches') + batch' == Concat(batches) + batch + [file]
    ensures Full(batches', batchSize) && (batches' != [] ==> batchSize > 0)
    ensures batchSize >= 1 ==> |batch'| < batchSize
  {
    batches', batch' := batches, batch + [file];
    assert Concat(batches) + (batch + [file]) == (Concat(batches) + batch) + [file];
    if |batch'| == batchSize {
      ConcatSnoc(batches, batch');
      FullSnoc(batches, batch', batchSize);
      assert Concat(batches + [batch']) + [] == Concat(batches) + batch';
      batches' := batches + [batch'];
      batch' := [];
    }
  }

  /**
   * `batch_process_files`: the yielded batches flatten back to the files in
   * order, none is empty, every batch but the last holds exactly
   * `batchSize` files and the last at most that many. A `batchSize` below 1
   * is never reached by a growing batch, so all files come out as one batch.
   */
  method BatchProcessFiles(entries: seq<Entry>, batchSize: int) returns (batches: seq<seq<Entry>>)
    ensures Concat(batches) == Files(entries)
    ensures WellBatched(batches, batchSize)
  {
    batches := [];
    var batch: seq<Entry> := [];
    var i := 0;
    while i < |entries|
      invariant 0 <= i <= |entries|
      invariant Concat(batches) + batch == Files(entries[..i])
      invariant Full(batches, batchSize) && (batches != [] ==> batchSize > 0)
      invariant batchSize >= 1 ==> |batch| < batchSize
    {
      var file := entries[i];
      FilesAppend(entries[..i], file);
      assert entries[..i + 1] == entries[..i] + [file];
      i := i + 1;
      if !file.isFile {
        assert Files(entries[..i - 1]) + [] == Files(entries[..i - 1]);
        continue;
      }
      batches, batch := AddFile(batches, batch, file, batchSize);
    }
    assert entries[..i] == entries;
    FinishBatches(batches, batch, batchSize);
    if |batch| > 0 {
      ConcatSnoc(batches, batch);
      batches := batches + [batch];
    }
  }
}
