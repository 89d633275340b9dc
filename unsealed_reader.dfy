/**
 * The reader of one series in an unsealed data file (`UnSealedTsFileReaderV2`).
 * It chains two sub-readers: one over the chunks already flushed to disk and
 * one over the in-memory chunk. A reverse read visits the memory first and
 * the on-disk chunks back to front. To do that it reverses the file's own
 * chunk-metadata list in place.
 *
 * Readers are descriptors of what the source constructs. The chunk loader is
 * named by the file it reads. Chunk metadata entries are chunk ids.
 */
module UnsealedReader {
  import opened Basics

  type ChunkId = nat

  datatype Filter = Filter(expression: string)

  /** The read-only snapshot of the series' data still in memory. */
  datatype MemChunk = MemChunk(id: nat)

  /** A reader of the chunks listed in `chunks`, loaded from the file at `file`. */
  datatype FileSeriesReader =
    | WithoutFilter(file: string, chunks: array?<ChunkId>)
    | WithFilter(file: string, chunks: array?<ChunkId>, filter: Filter)

  datatype SeriesReader =
    | OnDisk(reader: FileSeriesReader)
    | InMemory(memChunk: MemChunk, filter: Option<Filter>)

  /** `s` back to front. */
  function Reversed<T>(s: seq<T>): (r: seq<T>)
    ensures |r| == |s|
  {
    if s == [] then [] else [s[|s| - 1]] + Reversed(s[..|s| - 1])
  }

  lemma {:induction false} ReversedIndex<T>(s: seq<T>, k: nat)
    requires k < |s|
    ensures Reversed(s)[k] == s[|s| - 1 - k]
  {
    if k > 0 {
      ReversedIndex(s[..|s| - 1], k - 1);
    }
  }

  /** Reversal is an involution: reversing twice gives the list back. */
  lemma ReversedTwice<T>(s: seq<T>)
    ensures Reversed(Reversed(s)) == s
  {
    forall k | 0 <= k < |s| ensures Reversed(Reversed(s))[k] == s[k] {
      ReversedIndex(Reversed(s), k);
      ReversedIndex(s, |s| - 1 - k);
    }
  }

  /** `Collections.reverse`: swap the ends and move towards the middle. */
  method Reverse(a: array<ChunkId>)
    modifies a
    ensures a[..] == Reversed(old(a[..]))
  {
    var lo, hi := 0, a.Length - 1;
    while lo < hi
      invariant 0 <= lo <= hi + 1 && lo + hi == a.Length - 1
      invariant forall k :: 0 <= k < lo ==> a[k] == old(a[a.Length - 1 - k]) && a[a.Length - 1 - k] == old(a[k])
      invariant forall k :: lo <= k <= hi ==> a[k] == old(a[k])
    {
      a[lo], a[hi] := a[hi], a[lo];
      lo, hi := lo + 1, hi - 1;
    }
    forall k | 0 <= k < a.Length ensures a[k] == Reversed(old(a[..]))[k] {
      ReversedIndex(old(a[..]), k);
    }
  }

  class UnsealedTsFileReader {
    /** the sub-readers, in the order they are read */
    var seriesReaders: seq<SeriesReader>

    /** The constructor of `UnSealedTsFileReaderV2`. `path`, `metaDataList` and `memChunk` are what the file's
        resource provides; `filter` is `None` for a null filter. */
    constructor (path: string, metaDataList: array?<ChunkId>, memChunk: MemChunk, filter: Option<Filter>,
                 isReverse: bool)
      modifies metaDataList
      ensures metaDataList != null ==>
        metaDataList[..] == if isReverse then Reversed(old(metaDataList[..])) else old(metaDataList[..])
      ensures |seriesReaders| == 2
      ensures var disk := if isReverse then seriesReaders[1] else seriesReaders[0];
        && disk.OnDisk?
        && disk.reader.file == path && disk.reader.chunks == metaDataList
        && (filter.None? <==> disk.reader.WithoutFilter?)
        && (filter.Some? ==> disk.reader.filter == filter.value)
      ensures (if isReverse then seriesReaders[0] else seriesReaders[1]) == InMemory(memChunk, filter)
    {
      if isReverse && metaDataList != null && metaDataList.Length > 0 {
        Reverse(metaDataList);
      }
      var unsealedReader;
      if filter.None? {
        unsealedReader := WithoutFilter(path, metaDataList);
      } else {
        unsealedReader := WithFilter(path, metaDataList, filter.value);
      }
      var memChunkReader := InMemory(memChunk, filter);
      if isReverse {
        seriesReaders := [memChunkReader, OnDisk(unsealedReader)];
      } else {
        seriesReaders := [OnDisk(unsealedReader), memChunkReader];
      }
    }
  }
}
