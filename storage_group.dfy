/**
 * The write engine of one storage group (`FileNodeProcessorV2`).
 *
 * It keeps two file chains. The sequence chain holds in-order data and the
 * unsequence chain holds out-of-order data. Each chain has a list of data
 * files, a "work" processor that receives writes and a list of processors
 * that are closing. Per device the engine keeps the latest timestamp it has
 * accepted and the latest timestamp handed to a flush. A record goes to the
 * sequence chain exactly when its timestamp is above its device's flushed
 * watermark.
 *
 * Each method is modelled as one atomic step. In the source, `insert` (with
 * its helpers) and `forceClose` hold the engine's write lock; `query` holds
 * no lock; the close callback runs on a flush thread and holds only the
 * store's monitor, and its removal from the closing list runs outside any
 * lock. The races this leaves open are not modelled.
 */
module StorageGroup {
  import opened Basics
  import opened TsFiles

  // ---------------------------------------------------------------------------
  // The restore store.
  // ---------------------------------------------------------------------------

  datatype Status = StatusNone | StatusOther(name: string)

  /** The checkpoint of a storage group: its two file lists, its per-device
      latest times and a few scalar fields. */
  datatype Store = Store(
    isOverflowed: bool,
    latestTimeMap: map<string, Long>,
    sequenceFileList: seq<TsFileResource>,
    unSequenceFileList: seq<TsFileResource>,
    status: Status,
    version: int)

  /** The restore file as found at start-up. `decoded` is what deserialising a
      non-empty file yields: `None` when it throws. */
  datatype RestoreFile = Missing | Present(length: nat, decoded: Option<Store>)

  /** A missing or empty restore file yields the empty store; otherwise the
      store is whatever the file decodes to, and a decoding failure is an error. */
  function ReadStoreFromDiskOrCreate(restore: RestoreFile): (r: Option<Store>)
    ensures restore.Missing? || restore.length == 0 ==>
      && r.Some?
      && !r.value.isOverflowed
      && r.value.latestTimeMap == map[]
      && r.value.sequenceFileList == [] && r.value.unSequenceFileList == []
      && r.value.status == StatusNone && r.value.version == 0
    ensures restore.Present? && restore.length > 0 ==> r == restore.decoded
  {
    if restore.Missing? || restore.length == 0 then Some(Store(false, map[], [], [], StatusNone, 0))
    else restore.decoded
  }

  // ---------------------------------------------------------------------------
  // Routing and watermarks.
  // ---------------------------------------------------------------------------

  datatype Chain = Sequence | Unsequence

  function Other(chain: Chain): Chain
  {
    if chain == Sequence then Unsequence else Sequence
  }

  /** What the collaborators answer during one insert: the base directory the
      chain's placement policy picks, whether constructing a new processor
      succeeds (it may throw an I/O error), and the processor's answers to
      `write`, `shouldFlush` and `shouldClose`. */
  datatype Answers = Answers(
    baseDir: string,
    opens: bool,
    writes: bool,
    shouldFlush: bool,
    shouldClose: bool)

  function PutIfAbsent(m: map<string, Long>, k: string, v: Long): map<string, Long>
  {
    if k in m then m else m[k := v]
  }

  /** The chain a record is routed to, given the flushed watermarks before the
      record's device is initialised. */
  function Route(flushed: map<string, Long>, record: Record): Chain
  {
    var watermark := if record.deviceId in flushed then flushed[record.deviceId] else LongMin;
    if record.time > watermark then Sequence else Unsequence
  }

  /** With flushed watermarks at or below the latest times, a record routed to
      the unsequence chain is never newer than its device's latest accepted
      time, and a record newer than that time always goes to the sequence chain. */
  lemma RouteUnsequenceNotNewer(flushed: map<string, Long>, latest: map<string, Long>, record: Record)
    requires flushed.Keys <= latest.Keys
    requires forall d :: d in flushed ==> flushed[d] <= latest[d]
    requires record.deviceId in latest
    ensures Route(flushed, record) == Unsequence ==> record.time <= latest[record.deviceId]
    ensures record.time > latest[record.deviceId] ==> Route(flushed, record) == Sequence
  {
  }

  /** The latest-time map after an insert: the device is initialised to
      `Long.MIN_VALUE` if absent, then raised to the record's time when the
      write succeeded. No device's time decreases and no device is dropped. */
  lemma LatestTimeNeverDecreases(latest: map<string, Long>, deviceId: string, time: Long, ok: bool)
    ensures var latest0 := PutIfAbsent(latest, deviceId, LongMin);
      var latest1 := if ok then latest0[deviceId := MaxLong(latest0[deviceId], time)] else latest0;
      && latest.Keys <= latest1.Keys
      && deviceId in latest1
      && (forall d :: d in latest ==> latest[d] <= latest1[d])
      && (ok ==> time <= latest1[deviceId])
  {
  }

  /** The flushed map after an insert is either the new latest map (after a
      flush) or the old flushed map with the device initialised. Because
      flushed times never exceed latest times and latest times never decrease,
      no device's flushed time decreases. */
  lemma FlushedTimeNeverDecreases(flushed: map<string, Long>, latest: map<string, Long>,
                                  latest1: map<string, Long>, deviceId: string, flush: bool)
    requires flushed.Keys <= latest.Keys && latest.Keys <= latest1.Keys
    requires forall d :: d in flushed ==> flushed[d] <= latest[d]
    requires forall d :: d in latest ==> latest[d] <= latest1[d]
    ensures var flushed1 := if flush then latest1 else PutIfAbsent(flushed, deviceId, LongMin);
      && flushed.Keys <= flushed1.Keys
      && forall d :: d in flushed ==> flushed[d] <= flushed1[d]
  {
  }

  /** The requests a processor receives after a write when it reports that it
      should flush: the close mark first (if it should close), then the flush. */
  function FlushCalls(shouldClose: bool): seq<Call>
  {
    (if shouldClose then [Call.SetCloseMark] else []) + [Call.AsyncFlush]
  }

  /** Copies every latest time into the flushed map (`put` per entry). */
  method CopyLatestTimes(latest: map<string, Long>, flushed: map<string, Long>)
    returns (r: map<string, Long>)
    ensures r.Keys == flushed.Keys + latest.Keys
    ensures forall d :: d in latest ==> r[d] == latest[d]
    ensures forall d :: d in flushed && d !in latest ==> r[d] == flushed[d]
  {
    r := flushed;
    var todo := latest.Keys;
    while todo != {}
      invariant todo <= latest.Keys
      invariant r.Keys == flushed.Keys + (latest.Keys - todo)
      invariant forall d :: d in latest && d !in todo ==> r[d] == latest[d]
      invariant forall d :: d in r && (d !in latest || d in todo) ==> r[d] == flushed[d]
      decreases todo
    {
      var d :| d in todo;
      r := r[d := latest[d]];
      todo := todo - {d};
    }
  }

  /** The end-time map of a closing file: one entry per device of its start-time
      map, holding that device's latest time (`None` where there is none). */
  ghost predicate EndTimesFrom(endTimes: map<string, Option<Long>>, startTimes: map<string, Long>,
                               latest: map<string, Long>)
  {
    && endTimes.Keys == startTimes.Keys
    && forall d :: d in endTimes ==> endTimes[d] == (if d in latest then Some(latest[d]) else None)
  }

  method EndTimesFromLatest(startTimes: map<string, Long>, latest: map<string, Long>)
    returns (endTimes: map<string, Option<Long>>)
    ensures EndTimesFrom(endTimes, startTimes, latest)
  {
    endTimes := map[];
    var todo := startTimes.Keys;
    while todo != {}
      invariant todo <= startTimes.Keys
      invariant endTimes.Keys == startTimes.Keys - todo
      invariant forall d :: d in endTimes ==> endTimes[d] == (if d in latest then Some(latest[d]) else None)
      decreases todo
    {
      var d :| d in todo;
      endTimes := endTimes[d := if d in latest then Some(latest[d]) else None];
      todo := todo - {d};
    }
  }

  // ---------------------------------------------------------------------------
  // Query composition.
  // ---------------------------------------------------------------------------

  /** What a query receives for one data file: the resource itself, or the view
      of an unsealed file that its processor builds from its in-memory chunk and
      the metadata of its chunks already on disk, for one series. */
  datatype QuerySource =
    | Plain(resource: TsFileResource)
    | UnsealedView(resource: TsFileResource, deviceId: string, measurementId: string)

  /** A file takes part in queries when its start-time map is not empty. */
  predicate HasData(r: TsFileResource)
    reads r
  {
    r.startTimes != map[]
  }

  /** The files that take part in a query, in chain order. */
  function Selected(rs: seq<TsFileResource>): seq<TsFileResource>
    reads rs
  {
    if rs == [] then [] else (if HasData(rs[0]) then [rs[0]] else []) + Selected(rs[1..])
  }

  /** The positions in `rs` of the files `Selected` keeps. */
  ghost function KeptPositions(rs: seq<TsFileResource>): seq<nat>
    reads rs
  {
    if rs == [] then []
    else
      var rest := KeptPositions(rs[1..]);
      (if HasData(rs[0]) then [0] else []) + seq(|rest|, i requires 0 <= i < |rest| => rest[i] + 1)
  }

  /** Entry `i` of `Selected(rs)` is the file at position `KeptPositions(rs)[i]`, which has data. */
  lemma {:induction false} SelectedAtKeptPositions(rs: seq<TsFileResource>)
    ensures |Selected(rs)| == |KeptPositions(rs)| <= |rs|
    ensures forall i :: 0 <= i < |KeptPositions(rs)| ==>
      && KeptPositions(rs)[i] < |rs|
      && Selected(rs)[i] == rs[KeptPositions(rs)[i]]
      && HasData(rs[KeptPositions(rs)[i]])
  {
    if rs != [] {
      SelectedAtKeptPositions(rs[1..]);
    }
  }

  /** The kept positions are strictly increasing: `Selected` keeps the chain's order. */
  lemma {:induction false} KeptPositionsIncrease(rs: seq<TsFileResource>)
    ensures forall i :: 0 <= i < |KeptPositions(rs)| ==> KeptPositions(rs)[i] < |rs|
    ensures forall i, j :: 0 <= i < j < |KeptPositions(rs)| ==> KeptPositions(rs)[i] < KeptPositions(rs)[j]
  {
    if rs != [] {
      KeptPositionsIncrease(rs[1..]);
    }
  }

  /** Every file with data is kept. */
  lemma {:induction false} KeptPositionsComplete(rs: seq<TsFileResource>)
    ensures forall j :: 0 <= j < |rs| && HasData(rs[j]) ==> j in KeptPositions(rs)
  {
    if rs != [] {
      KeptPositionsComplete(rs[1..]);
      var rest := KeptPositions(rs[1..]);
      var shifted := seq(|rest|, i requires 0 <= i < |rest| => rest[i] + 1);
      assert KeptPositions(rs) == (if HasData(rs[0]) then [0] else []) + shifted;
      forall j | 0 < j < |rs| && HasData(rs[j]) ensures j in KeptPositions(rs) {
        assert rs[1..][j - 1] == rs[j];
        var k :| 0 <= k < |rest| && rest[k] == j - 1;
        assert shifted[k] == j;
      }
    }
  }

  /** `Selected` keeps exactly the files with data, in their original order. */
  lemma SelectedKeepsFilesWithData(rs: seq<TsFileResource>)
    ensures var s, pos := Selected(rs), KeptPositions(rs);
      && |s| == |pos| <= |rs|
      && (forall i :: 0 <= i < |pos| ==> pos[i] < |rs| && s[i] == rs[pos[i]] && HasData(rs[pos[i]]))
      && (forall i, j :: 0 <= i < j < |pos| ==> pos[i] < pos[j])
      && (forall j :: 0 <= j < |rs| && HasData(rs[j]) ==> j in pos)
  {
    SelectedAtKeptPositions(rs);
    KeptPositionsIncrease(rs);
    KeptPositionsComplete(rs);
  }

  /** The branch of `getFileReSourceListForQuery` as written: a file that is NOT closed is handed on as it is,
      and a closed file is replaced by its processor's unsealed view. */
  function Describe(r: TsFileResource, deviceId: string, measurementId: string): QuerySource
    reads r
  {
    if !r.closed then Plain(r) else UnsealedView(r, deviceId, measurementId)
  }

  /** The intended branch of `getFileReSourceListForQuery`: an unsealed file is read through its
      processor's view of memory and disk, a closed file as it is. */
  function DescribeCorrected(r: TsFileResource, deviceId: string, measurementId: string): QuerySource
    reads r
  {
    if r.closed then Plain(r) else UnsealedView(r, deviceId, measurementId)
  }

  /** The resources a query receives from one chain, as the source composes them. */
  function ForQuery(rs: seq<TsFileResource>, deviceId: string, measurementId: string): seq<QuerySource>
    reads rs
  {
    if rs == [] then []
    else (if HasData(rs[0]) then [Describe(rs[0], deviceId, measurementId)] else [])
         + ForQuery(rs[1..], deviceId, measurementId)
  }

  function ForQueryCorrected(rs: seq<TsFileResource>, deviceId: string, measurementId: string)
    : seq<QuerySource>
    reads rs
  {
    if rs == [] then []
    else (if HasData(rs[0]) then [DescribeCorrected(rs[0], deviceId, measurementId)] else [])
         + ForQueryCorrected(rs[1..], deviceId, measurementId)
  }

  /** The query keeps one entry per selected file, in the same order, describing that file. */
  lemma {:induction false} ForQueryDescribesSelected(rs: seq<TsFileResource>, deviceId: string,
                                                     measurementId: string)
    ensures var out, s := ForQuery(rs, deviceId, measurementId), Selected(rs);
      && |out| == |s| <= |rs|
      && forall i :: 0 <= i < |s| ==> out[i] == Describe(s[i], deviceId, measurementId)
  {
    if rs != [] {
      ForQueryDescribesSelected(rs[1..], deviceId, measurementId);
    }
  }

  /** With the branch corrected, an entry is an unsealed view exactly when its
      file is not closed, and every file with data is still described in order. */
  lemma {:induction false} ForQueryCorrectedReadsUnsealedThroughProcessor(
    rs: seq<TsFileResource>, deviceId: string, measurementId: string)
    ensures var out, s := ForQueryCorrected(rs, deviceId, measurementId), Selected(rs);
      && |out| == |s| <= |rs|
      && forall i :: 0 <= i < |s| ==>
           && out[i] == DescribeCorrected(s[i], deviceId, measurementId)
           && out[i].resource == s[i]
           && (out[i].UnsealedView? <==> !s[i].closed)
           && (out[i].UnsealedView? ==> out[i].deviceId == deviceId && out[i].measurementId == measurementId)
  {
    if rs != [] {
      ForQueryCorrectedReadsUnsealedThroughProcessor(rs[1..], deviceId, measurementId);
    }
  }

  /** As written, an unsealed file with data reaches the query without its
      processor's in-memory data, and a closed one is sent to its processor. */
  lemma QueryAsWrittenSwapsSealedAndUnsealed(r: TsFileResource, deviceId: string, measurementId: string)
    requires HasData(r)
    ensures !r.closed ==> ForQuery([r], deviceId, measurementId) == [Plain(r)]
    ensures r.closed ==> ForQuery([r], deviceId, measurementId) == [UnsealedView(r, deviceId, measurementId)]
  {
    assert [r][1..] == [];
  }

  /** The loop of `getFileReSourceListForQuery`: filter the chain's files and describe each one. */
  method GetFileResourceListForQuery(rs: seq<TsFileResource>, deviceId: string, measurementId: string)
    returns (out: seq<QuerySource>)
    ensures out == ForQuery(rs, deviceId, measurementId)
  {
    out := [];
    var i := 0;
    while i < |rs|
      invariant 0 <= i <= |rs|
      invariant out + ForQuery(rs[i..], deviceId, measurementId) == ForQuery(rs, deviceId, measurementId)
    {
      var r := rs[i];
      assert rs[i..][1..] == rs[i + 1..];
      if r.startTimes != map[] {
        if !r.closed {
          out := out + [Plain(r)];
        } else {
          out := out + [UnsealedView(r, deviceId, measurementId)];
        }
      }
      i := i + 1;
    }
    assert rs[|rs|..] == [];
  }

  // ---------------------------------------------------------------------------
  // The engine.
  // ---------------------------------------------------------------------------

  /** What a write into an unsealed data file ends with: opening a new file
      threw, or the processor's `write` answered. */
  datatype WriteOutcome = OpenFailed | Written(ok: bool)

  /** What the close callback ends with: it completed, or it dereferenced the
      null work processor. */
  datatype CallbackOutcome = Completed | NullPointer

  class Engine {
    const storageGroupName: string
    /** Scalar fields of the store read at start-up; no modelled operation changes them. */
    const isOverflowed: bool
    const status: Status
    const version: int

    var sequenceFiles: seq<TsFileResource>
    var workSeq: Processor?
    var closingSeq: seq<Processor>

    var unsequenceFiles: seq<TsFileResource>
    var workUnseq: Processor?
    var closingUnseq: seq<Processor>

    /** device -> latest timestamp accepted */
    var latestTime: map<string, Long>
    /** device -> latest timestamp handed to a flush */
    var latestFlushedTime: map<string, Long>

    /** The stores written to the restore file, oldest first. */
    var written: seq<Store>

    ghost predicate Valid()
      reads this
    {
      // the watermarks
      && latestFlushedTime.Keys <= latestTime.Keys
      && (forall d :: d in latestFlushedTime ==> latestFlushedTime[d] <= latestTime[d])
      // the processors of each chain own files of that chain
      && (workSeq != null ==> workSeq.resource in sequenceFiles)
      && (workUnseq != null ==> workUnseq.resource in unsequenceFiles)
      && (forall i :: 0 <= i < |closingSeq| ==> closingSeq[i].resource in sequenceFiles)
      && (forall i :: 0 <= i < |closingUnseq| ==> closingUnseq[i].resource in unsequenceFiles)
      // a processor closes at most once, and a closing processor is no longer the work processor
      && NoDuplicates(closingSeq) && NoDuplicates(closingUnseq)
      && (workSeq != null ==> workSeq !in closingSeq && workSeq != workUnseq)
      && (workUnseq != null ==> workUnseq !in closingUnseq)
    }

    function Files(chain: Chain): seq<TsFileResource>
      reads this`sequenceFiles, this`unsequenceFiles
    {
      if chain == Sequence then sequenceFiles else unsequenceFiles
    }

    function Work(chain: Chain): Processor?
      reads this`workSeq, this`workUnseq
    {
      if chain == Sequence then workSeq else workUnseq
    }

    function Closing(chain: Chain): seq<Processor>
      reads this`closingSeq, this`closingUnseq
    {
      if chain == Sequence then closingSeq else closingUnseq
    }

    /** The store as the restore file would receive it now. The engine's lists
        and latest-time map are the store's own (the source shares them), so
        the store always reflects them. */
    function CurrentStore(): Store
      reads this
    {
      Store(isOverflowed, latestTime, sequenceFiles, unsequenceFiles, status, version)
    }

    constructor (storageGroupName: string, store: Store)
      ensures Valid()
      ensures this.storageGroupName == storageGroupName
      ensures CurrentStore() == store
      ensures latestFlushedTime == map[]
      ensures workSeq == null && workUnseq == null && closingSeq == [] && closingUnseq == []
      ensures written == []
    {
      this.storageGroupName := storageGroupName;
      isOverflowed := store.isOverflowed;
      status := store.status;
      version := store.version;
      sequenceFiles := store.sequenceFileList;
      unsequenceFiles := store.unSequenceFileList;
      latestTime := store.latestTimeMap;
      latestFlushedTime := map[];
      workSeq, workUnseq := null, null;
      closingSeq, closingUnseq := [], [];
      written := [];
    }

    /** Construction fails exactly when the restore file cannot be read; a
        missing or empty one yields an engine with no files and no devices. */
    static method Open(storageGroupName: string, restore: RestoreFile) returns (e: Engine?)
      ensures e == null <==> ReadStoreFromDiskOrCreate(restore).None?
      ensures e != null ==>
        && fresh(e) && e.Valid()
        && e.storageGroupName == storageGroupName
        && e.CurrentStore() == ReadStoreFromDiskOrCreate(restore).value
        && e.latestFlushedTime == map[]
        && e.workSeq == null && e.workUnseq == null && e.closingSeq == [] && e.closingUnseq == []
    {
      var store := ReadStoreFromDiskOrCreate(restore);
      if store.None? {
        return null;
      }
      e := new Engine(storageGroupName, store.value);
    }

    /** The opening branch of `writeUnsealedDataFile`: open a new data file
        named after the record's timestamp and append its resource to the
        chain's file list. */
    method OpenFile(record: Record, chain: Chain, answers: Answers) returns (p: Processor?)
      modifies this`sequenceFiles, this`unsequenceFiles
      ensures p != null <==> answers.opens
      ensures Files(chain) == old(Files(chain)) + (if p == null then [] else [p.resource])
      ensures Files(Other(chain)) == old(Files(Other(chain)))
      ensures p != null ==>
        && fresh(p) && fresh(p.resource) && p.calls == []
        && p.resource.file == TsFilePath(answers.baseDir, storageGroupName, record.time)
        && p.resource.startTimes == map[] && p.resource.endTimes == map[] && !p.resource.closed
    {
      if !answers.opens {
        return null;
      }
      p := new Processor(TsFilePath(answers.baseDir, storageGroupName, record.time));
      if chain == Sequence {
        sequenceFiles := sequenceFiles + [p.resource];
      } else {
        unsequenceFiles := unsequenceFiles + [p.resource];
      }
    }

    /** `flushAndCheckShouldClose`: set the close mark (moving the processor to
        the closing list and clearing the chain's work pointer) when it should
        close, ask it to flush, and copy every latest time into the flushed map. */
    method FlushAndCheckShouldClose(p: Processor, chain: Chain, shouldClose: bool)
      requires Valid()
      requires p.resource in Files(chain) && p !in Closing(chain) && p != Work(Other(chain))
      modifies this, p
      ensures Valid()
      ensures p.calls == old(p.calls) + FlushCalls(shouldClose)
      ensures Closing(chain) == old(Closing(chain)) + (if shouldClose then [p] else [])
      ensures Work(chain) == if shouldClose then null else old(Work(chain))
      ensures Closing(Other(chain)) == old(Closing(Other(chain))) && Work(Other(chain)) == old(Work(Other(chain)))
      ensures latestFlushedTime == latestTime
      ensures latestTime == old(latestTime)
      ensures sequenceFiles == old(sequenceFiles) && unsequenceFiles == old(unsequenceFiles)
      ensures written == old(written)
    {
      if shouldClose {
        MarkClosing(p, chain);
      }
      p.AsyncFlush();
      latestFlushedTime := CopyLatestTimes(latestTime, latestFlushedTime);
      assert latestFlushedTime == latestTime;
    }

    /** The `shouldClose` branch of `flushAndCheckShouldClose`: the processor
        joins its chain's closing list, stops being the work processor and
        receives the close mark. */
    method MarkClosing(p: Processor, chain: Chain)
      requires Valid()
      requires p.resource in Files(chain) && p !in Closing(chain) && p != Work(Other(chain))
      modifies this`closingSeq, this`workSeq, this`closingUnseq, this`workUnseq, p
      ensures Valid()
      ensures p.calls == old(p.calls) + [Call.SetCloseMark]
      ensures Closing(chain) == old(Closing(chain)) + [p] && Work(chain) == null
      ensures Closing(Other(chain)) == old(Closing(Other(chain))) && Work(Other(chain)) == old(Work(Other(chain)))
    {
      if chain == Sequence {
        closingSeq := closingSeq + [p];
        workSeq := null;
      } else {
        closingUnseq := closingUnseq + [p];
        workUnseq := null;
      }
      p.SetCloseMark();
    }

    /** The rest of `writeUnsealedDataFile`: hand the record to an open
        processor, advance the device's latest time when the write succeeded,
        and flush if asked to. */
    method DelegateWrite(p: Processor, record: Record, chain: Chain, answers: Answers) returns (ok: bool)
      requires Valid()
      requires record.deviceId in latestTime
      requires p.resource in Files(chain) && p !in Closing(chain) && p != Work(Other(chain))
      modifies this, p
      ensures Valid()
      ensures ok == answers.writes
      ensures p.calls == old(p.calls) + [Call.Write(record)] + (if answers.shouldFlush then FlushCalls(answers.shouldClose) else [])
      ensures latestTime == if ok then old(latestTime)[record.deviceId := MaxLong(old(latestTime)[record.deviceId], record.time)]
                            else old(latestTime)
      ensures latestFlushedTime == if answers.shouldFlush then latestTime else old(latestFlushedTime)
      ensures var closes := answers.shouldFlush && answers.shouldClose;
        && Closing(chain) == old(Closing(chain)) + (if closes then [p] else [])
        && Work(chain) == (if closes then null else old(Work(chain)))
      ensures Closing(Other(chain)) == old(Closing(Other(chain))) && Work(Other(chain)) == old(Work(Other(chain)))
      ensures sequenceFiles == old(sequenceFiles) && unsequenceFiles == old(unsequenceFiles)
      ensures written == old(written)
    {
      p.Write(record);
      ok := answers.writes;
      if ok && latestTime[record.deviceId] < record.time {
        latestTime := latestTime[record.deviceId := record.time];
      }
      if answers.shouldFlush {
        FlushAndCheckShouldClose(p, chain, answers.shouldClose);
      }
    }

    /** `writeUnsealedDataFile` as written: when the chain has no work processor
        a new file is opened, but the new processor is kept only in a local
        variable, so the chain's work pointer stays null. */
    method WriteUnsealedDataFile(p0: Processor?, record: Record, chain: Chain, answers: Answers)
      returns (outcome: WriteOutcome, ghost target: Processor?)
      requires Valid()
      requires record.deviceId in latestTime
      requires p0 == Work(chain)
      modifies this, p0
      ensures Valid()
      ensures p0 != null ==> target == p0
      ensures p0 == null ==> (target != null <==> answers.opens)
      ensures outcome == if target == null then OpenFailed else Written(answers.writes)
      ensures target != null ==> target.resource in Files(chain)
      ensures target != null && p0 == null ==>
        fresh(target) && target.resource.file == TsFilePath(answers.baseDir, storageGroupName, record.time)
      ensures Files(chain) == old(Files(chain)) + (if target != null && p0 == null then [target.resource] else [])
      ensures Files(Other(chain)) == old(Files(Other(chain)))
      ensures target != null ==>
        target.calls == (if p0 == null then [] else old(p0.calls)) + [Call.Write(record)]
                        + (if answers.shouldFlush then FlushCalls(answers.shouldClose) else [])
      ensures var ok := target != null && answers.writes;
        latestTime == if ok then old(latestTime)[record.deviceId := MaxLong(old(latestTime)[record.deviceId], record.time)]
                      else old(latestTime)
      ensures latestFlushedTime == if target != null && answers.shouldFlush then latestTime else old(latestFlushedTime)
      ensures var closes := target != null && answers.shouldFlush && answers.shouldClose;
        && Closing(chain) == old(Closing(chain)) + (if closes then [target] else [])
        && Work(chain) == (if closes then null else old(Work(chain)))
      ensures Closing(Other(chain)) == old(Closing(Other(chain))) && Work(Other(chain)) == old(Work(Other(chain)))
      ensures written == old(written)
    {
      var p := p0;
      if p == null {
        p := OpenFile(record, chain, answers);
        if p == null {
          return OpenFailed, null;
        }
      }
      target := p;
      var ok := DelegateWrite(p, record, chain, answers);
      outcome := Written(ok);
    }

    /** The intended opening branch of `writeUnsealedDataFile`: the processor
        opened on the new file also becomes the chain's work processor. */
    method OpenWorkFile(record: Record, chain: Chain, answers: Answers) returns (p: Processor?)
      requires Valid()
      requires Work(chain) == null
      modifies this`sequenceFiles, this`unsequenceFiles, this`workSeq, this`workUnseq
      ensures Valid()
      ensures p != null <==> answers.opens
      ensures Files(chain) == old(Files(chain)) + (if p == null then [] else [p.resource])
      ensures Work(chain) == p
      ensures Files(Other(chain)) == old(Files(Other(chain))) && Work(Other(chain)) == old(Work(Other(chain)))
      ensures p != null ==>
        && fresh(p) && fresh(p.resource) && p.calls == []
        && p.resource.file == TsFilePath(answers.baseDir, storageGroupName, record.time)
    {
      p := OpenFile(record, chain, answers);
      if p != null {
        if chain == Sequence {
          workSeq := p;
        } else {
          workUnseq := p;
        }
      }
    }

    /** The intended `writeUnsealedDataFile`: the newly opened processor becomes
        the chain's work processor, so later records of that chain reuse its file. */
    method WriteUnsealedDataFileCorrected(p0: Processor?, record: Record, chain: Chain, answers: Answers)
      returns (outcome: WriteOutcome, ghost target: Processor?)
      requires Valid()
      requires record.deviceId in latestTime
      requires p0 == Work(chain)
      modifies this, p0
      ensures Valid()
      ensures p0 != null ==> target == p0
      ensures p0 == null ==> (target != null <==> answers.opens)
      ensures outcome == if target == null then OpenFailed else Written(answers.writes)
      ensures target != null ==> target.resource in Files(chain)
      ensures target != null && p0 == null ==>
        fresh(target) && target.resource.file == TsFilePath(answers.baseDir, storageGroupName, record.time)
      ensures Files(chain) == old(Files(chain)) + (if target != null && p0 == null then [target.resource] else [])
      ensures Files(Other(chain)) == old(Files(Other(chain)))
      ensures target != null ==>
        target.calls == (if p0 == null then [] else old(p0.calls)) + [Call.Write(record)]
                        + (if answers.shouldFlush then FlushCalls(answers.shouldClose) else [])
      ensures var ok := target != null && answers.writes;
        latestTime == if ok then old(latestTime)[record.deviceId := MaxLong(old(latestTime)[record.deviceId], record.time)]
                      else old(latestTime)
      ensures latestFlushedTime == if target != null && answers.shouldFlush then latestTime else old(latestFlushedTime)
      ensures var closes := target != null && answers.shouldFlush && answers.shouldClose;
        && Closing(chain) == old(Closing(chain)) + (if closes then [target] else [])
        && Work(chain) == (if closes then null else target)
      ensures Closing(Other(chain)) == old(Closing(Other(chain))) && Work(Other(chain)) == old(Work(Other(chain)))
      ensures written == old(written)
    {
      var p := p0;
      if p == null {
        p := OpenWorkFile(record, chain, answers);
        if p == null {
          return OpenFailed, null;
        }
      }
      target := p;
      var ok := DelegateWrite(p, record, chain, answers);
      outcome := Written(ok);
    }

    /** The map initialisation in `insert`: a device not seen before starts at
        `Long.MIN_VALUE` in both watermark maps; known devices keep their values. */
    method InitWatermarks(deviceId: string)
      requires Valid()
      modifies this`latestTime, this`latestFlushedTime
      ensures Valid()
      ensures latestTime == PutIfAbsent(old(latestTime), deviceId, LongMin)
      ensures latestFlushedTime == PutIfAbsent(old(latestFlushedTime), deviceId, LongMin)
    {
      latestTime := PutIfAbsent(latestTime, deviceId, LongMin);
      latestFlushedTime := PutIfAbsent(latestFlushedTime, deviceId, LongMin);
    }

    /** `insert` as written. The record is routed by its device's flushed
        watermark and written through the chain's work processor (or a
        processor on a newly opened file); the other chain is left alone, and
        an open failure reports `false`. `chain` names the chain chosen. The
        two watermark maps are given exactly; `LatestTimeNeverDecreases` and
        `FlushedTimeNeverDecreases` show that neither decreases. */
    method Insert(record: Record, answers: Answers) returns (result: bool, ghost target: Processor?, ghost chain: Chain)
      requires Valid()
      modifies this, Work(Route(latestFlushedTime, record))
      ensures Valid()
      // routing: the chain is chosen by the watermark before the insert
      ensures chain == Route(old(latestFlushedTime), record)
      ensures (old(Work(chain)) != null ==> target == old(Work(chain)))
        && (old(Work(chain)) == null ==> (target != null <==> answers.opens))
        && (target != null ==> target.resource in Files(chain))
        && (target != null && old(Work(chain)) == null ==>
              fresh(target) && target.resource.file == TsFilePath(answers.baseDir, storageGroupName, record.time))
        && Files(chain) == old(Files(chain)) + (if target != null && old(Work(chain)) == null then [target.resource] else [])
        && (target != null ==>
              target.calls == (if old(Work(chain)) == null then [] else old(Work(chain).calls)) + [Call.Write(record)]
                              + (if answers.shouldFlush then FlushCalls(answers.shouldClose) else []))
        && (var closes := target != null && answers.shouldFlush && answers.shouldClose;
            && Closing(chain) == old(Closing(chain)) + (if closes then [target] else [])
            && Work(chain) == (if closes then null else old(Work(chain))))
      // the other chain: no file, no closing processor, no request
      ensures var other := Other(chain);
        && Files(other) == old(Files(other)) && Closing(other) == old(Closing(other)) && Work(other) == old(Work(other))
      // the answer: the write happened and succeeded
      ensures result == (target != null && answers.writes)
      // the watermarks
      ensures var latest0 := PutIfAbsent(old(latestTime), record.deviceId, LongMin);
        latestTime == if result then latest0[record.deviceId := MaxLong(latest0[record.deviceId], record.time)]
                      else latest0
      ensures latestFlushedTime == if target != null && answers.shouldFlush then latestTime
                                   else PutIfAbsent(old(latestFlushedTime), record.deviceId, LongMin)
      ensures written == old(written)
    {
      InitWatermarks(record.deviceId);
      var c := if record.time > latestFlushedTime[record.deviceId] then Sequence else Unsequence;
      chain := c;
      var outcome;
      outcome, target := WriteUnsealedDataFile(Work(c), record, c, answers);
      result := outcome == Written(true);
    }

    /** `Insert` with the work pointer bound to a newly opened processor. */
    method InsertCorrected(record: Record, answers: Answers) returns (result: bool, ghost target: Processor?, ghost chain: Chain)
      requires Valid()
      modifies this, Work(Route(latestFlushedTime, record))
      ensures Valid()
      ensures chain == Route(old(latestFlushedTime), record)
      ensures (old(Work(chain)) != null ==> target == old(Work(chain)))
        && (old(Work(chain)) == null ==> (target != null <==> answers.opens))
        && (target != null ==> target.resource in Files(chain))
        && (target != null && old(Work(chain)) == null ==>
              fresh(target) && target.resource.file == TsFilePath(answers.baseDir, storageGroupName, record.time))
        && Files(chain) == old(Files(chain)) + (if target != null && old(Work(chain)) == null then [target.resource] else [])
        && (target != null ==>
              target.calls == (if old(Work(chain)) == null then [] else old(Work(chain).calls)) + [Call.Write(record)]
                              + (if answers.shouldFlush then FlushCalls(answers.shouldClose) else []))
        && (var closes := target != null && answers.shouldFlush && answers.shouldClose;
            && Closing(chain) == old(Closing(chain)) + (if closes then [target] else [])
            && Work(chain) == (if closes then null else target))
      ensures var other := Other(chain);
        && Files(other) == old(Files(other)) && Closing(other) == old(Closing(other)) && Work(other) == old(Work(other))
      ensures result == (target != null && answers.writes)
      ensures var latest0 := PutIfAbsent(old(latestTime), record.deviceId, LongMin);
        latestTime == if result then latest0[record.deviceId := MaxLong(latest0[record.deviceId], record.time)]
                      else latest0
      ensures latestFlushedTime == if target != null && answers.shouldFlush then latestTime
                                   else PutIfAbsent(old(latestFlushedTime), record.deviceId, LongMin)
      ensures written == old(written)
    {
      InitWatermarks(record.deviceId);
      var c := if record.time > latestFlushedTime[record.deviceId] then Sequence else Unsequence;
      chain := c;
      var outcome;
      outcome, target := WriteUnsealedDataFileCorrected(Work(c), record, c, answers);
      result := outcome == Written(true);
    }

    /** `query`: the two ordered lists of resources a query of one series receives. */
    method Query(deviceId: string, measurementId: string)
      returns (sequenceSources: seq<QuerySource>, unsequenceSources: seq<QuerySource>)
      ensures sequenceSources == ForQuery(sequenceFiles, deviceId, measurementId)
      ensures unsequenceSources == ForQuery(unsequenceFiles, deviceId, measurementId)
      ensures |sequenceSources| <= |sequenceFiles| && |unsequenceSources| <= |unsequenceFiles|
    {
      sequenceSources := GetFileResourceListForQuery(sequenceFiles, deviceId, measurementId);
      unsequenceSources := GetFileResourceListForQuery(unsequenceFiles, deviceId, measurementId);
      ForQueryDescribesSelected(sequenceFiles, deviceId, measurementId);
      ForQueryDescribesSelected(unsequenceFiles, deviceId, measurementId);
    }

    /** The intended `query`: every file with data takes part in chain
        order, and exactly the files not yet closed are read through their
        processor's unsealed view. */
    method QueryCorrected(deviceId: string, measurementId: string)
      returns (sequenceSources: seq<QuerySource>, unsequenceSources: seq<QuerySource>)
      ensures sequenceSources == ForQueryCorrected(sequenceFiles, deviceId, measurementId)
      ensures unsequenceSources == ForQueryCorrected(unsequenceFiles, deviceId, measurementId)
      ensures |sequenceSources| == |Selected(sequenceFiles)| && |unsequenceSources| == |Selected(unsequenceFiles)|
      ensures forall i :: 0 <= i < |sequenceSources| ==>
        && sequenceSources[i] == DescribeCorrected(Selected(sequenceFiles)[i], deviceId, measurementId)
        && (sequenceSources[i].UnsealedView? <==> !Selected(sequenceFiles)[i].closed)
      ensures forall i :: 0 <= i < |unsequenceSources| ==>
        && unsequenceSources[i] == DescribeCorrected(Selected(unsequenceFiles)[i], deviceId, measurementId)
        && (unsequenceSources[i].UnsealedView? <==> !Selected(unsequenceFiles)[i].closed)
    {
      sequenceSources := ForQueryCorrected(sequenceFiles, deviceId, measurementId);
      unsequenceSources := ForQueryCorrected(unsequenceFiles, deviceId, measurementId);
      ForQueryCorrectedReadsUnsealedThroughProcessor(sequenceFiles, deviceId, measurementId);
      ForQueryCorrectedReadsUnsealedThroughProcessor(unsequenceFiles, deviceId, measurementId);
    }

    /** `closeUnsealedTsFileProcessorCallBack` as written. The closed processor is removed from the
        sequence closing list only. When the sequence chain has files, the end
        times are written into the resource of the WORK sequence processor, and
        a null work pointer throws before the store is written. A failure to
        write the store is swallowed. */
    method CloseCallback(p: Processor, storeWriteSucceeds: bool) returns (outcome: CallbackOutcome)
      requires Valid()
      modifies this, if workSeq != null then {workSeq.resource} else {}
      ensures Valid()
      ensures closingSeq == RemoveFirst(old(closingSeq), p)
      ensures closingUnseq == old(closingUnseq)
      ensures outcome == if old(sequenceFiles) != [] && old(workSeq) == null then NullPointer else Completed
      ensures old(sequenceFiles) != [] && old(workSeq) != null ==>
        EndTimesFrom(old(workSeq).resource.endTimes, old(workSeq.resource.startTimes), latestTime)
      ensures old(workSeq) != null ==>
        && old(workSeq).resource.startTimes == old(workSeq.resource.startTimes)
        && old(workSeq).resource.closed == old(workSeq.resource.closed)
        && (old(sequenceFiles) == [] ==> old(workSeq).resource.endTimes == old(workSeq.resource.endTimes))
      ensures written == if outcome == Completed && storeWriteSucceeds then old(written) + [CurrentStore()]
                         else old(written)
      ensures workSeq == old(workSeq) && workUnseq == old(workUnseq)
      ensures sequenceFiles == old(sequenceFiles) && unsequenceFiles == old(unsequenceFiles)
      ensures latestTime == old(latestTime) && latestFlushedTime == old(latestFlushedTime)
    {
      closingSeq := RemoveFirst(closingSeq, p);
      RemoveFirstFromDistinct(old(closingSeq), p);
      if sequenceFiles != [] {
        if workSeq == null {
          return NullPointer;
        }
        var resource := workSeq.resource;
        var endTimes := EndTimesFromLatest(resource.startTimes, latestTime);
        resource.endTimes := endTimes;
      }
      if storeWriteSucceeds {
        written := written + [CurrentStore()];
      }
      outcome := Completed;
    }

    /** The intended `closeUnsealedTsFileProcessorCallBack`: the processor leaves whichever closing list
        holds it, and the end times go into the closed processor's own file. */
    method CloseCallbackCorrected(p: Processor, storeWriteSucceeds: bool)
      requires Valid()
      modifies this, p.resource`endTimes
      ensures Valid()
      ensures closingSeq == RemoveFirst(old(closingSeq), p)
      ensures closingUnseq == RemoveFirst(old(closingUnseq), p)
      ensures p !in closingSeq && p !in closingUnseq
      ensures EndTimesFrom(p.resource.endTimes, old(p.resource.startTimes), latestTime)
      ensures p.resource.startTimes == old(p.resource.startTimes) && p.resource.closed == old(p.resource.closed)
      ensures written == if storeWriteSucceeds then old(written) + [CurrentStore()] else old(written)
      ensures workSeq == old(workSeq) && workUnseq == old(workUnseq)
      ensures sequenceFiles == old(sequenceFiles) && unsequenceFiles == old(unsequenceFiles)
      ensures latestTime == old(latestTime) && latestFlushedTime == old(latestFlushedTime)
    {
      closingSeq := RemoveFirst(closingSeq, p);
      closingUnseq := RemoveFirst(closingUnseq, p);
      RemoveFirstFromDistinct(old(closingSeq), p);
      RemoveFirstFromDistinct(old(closingUnseq), p);
      var endTimes := EndTimesFromLatest(p.resource.startTimes, latestTime);
      p.resource.endTimes := endTimes;
      if storeWriteSucceeds {
        written := written + [CurrentStore()];
      }
    }

    /** `forceClose`: the work SEQUENCE processor, if any, joins the closing
        list, is force-closed and is no longer the work processor. The
        unsequence chain is left alone. */
    method ForceClose()
      requires Valid()
      modifies this, workSeq
      ensures Valid()
      ensures workSeq == null
      ensures old(workSeq) != null ==>
        && closingSeq == old(closingSeq) + [old(workSeq)]
        && old(workSeq).calls == old(workSeq.calls) + [Call.ForceClose]
      ensures old(workSeq) == null ==> closingSeq == old(closingSeq)
      ensures workUnseq == old(workUnseq) && closingUnseq == old(closingUnseq)
      ensures sequenceFiles == old(sequenceFiles) && unsequenceFiles == old(unsequenceFiles)
      ensures latestTime == old(latestTime) && latestFlushedTime == old(latestFlushedTime)
      ensures written == old(written)
    {
      if workSeq != null {
        closingSeq := closingSeq + [workSeq];
        workSeq.ForceClose();
        workSeq := null;
      }
    }
  }
}
