/**
 * Calls of the storage-group engine on fixed inputs. Each starts from a
 * missing restore file and fixed collaborator answers; its `ensures` states
 * the outcome, proved by the verifier. Together they set one consequence of
 * the write path as written next to the corrected one.
 */
module EngineScenarios {
  import opened TsFiles
  import opened StorageGroup

  /** Every write succeeds; the processor never asks to flush. */
  const Quiet := Answers("data", true, true, false, false)
  /** Every write succeeds and the processor asks to flush and to close. */
  const FlushAndClose := Answers("data", true, true, true, true)
  /** Every write succeeds and the processor asks to flush only. */
  const FlushOnly := Answers("data", true, true, true, false)

  /** As written: two in-order records of one device, with no flush in
      between, open two sequence files, because the processor opened for the
      first is never made the work processor. */
  method RepeatedInsertsOpenNewFiles() returns (sequenceFileCount: nat)
    ensures sequenceFileCount == 2
  {
    var e := new Engine("root.sg", Store(false, map[], [], [], StatusNone, 0));
    var ok1, ok2;
    ghost var t1, t2, c1, c2;
    ok1, t1, c1 := e.Insert(Record("root.sg.d1", 1), Quiet);
    assert e.workSeq == null && |e.sequenceFiles| == 1;
    ok2, t2, c2 := e.Insert(Record("root.sg.d1", 2), Quiet);
    sequenceFileCount := |e.sequenceFiles|;
  }

  /** Corrected: the same two records share one sequence file. */
  method RepeatedInsertsReuseFile() returns (sequenceFileCount: nat)
    ensures sequenceFileCount == 1
  {
    var e := new Engine("root.sg", Store(false, map[], [], [], StatusNone, 0));
    var ok1, ok2;
    ghost var t1, t2, c1, c2;
    ok1, t1, c1 := e.InsertCorrected(Record("root.sg.d1", 1), Quiet);
    assert e.workSeq != null && |e.sequenceFiles| == 1;
    ok2, t2, c2 := e.InsertCorrected(Record("root.sg.d1", 2), Quiet);
    sequenceFileCount := |e.sequenceFiles|;
  }

  /** As written: once a sequence file has been closed, the close callback
      finds a non-empty sequence chain and no work processor, and throws a
      null-pointer exception instead of fixing the file's end times. */
  method CloseCallbackAfterCloseThrows() returns (outcome: CallbackOutcome)
    ensures outcome == NullPointer
  {
    var e := new Engine("root.sg", Store(false, map[], [], [], StatusNone, 0));
    var ok;
    ghost var t, c;
    ok, t, c := e.Insert(Record("root.sg.d1", 1), FlushAndClose);
    assert |e.closingSeq| == 1 && e.sequenceFiles != [] && e.workSeq == null;
    outcome := e.CloseCallback(e.closingSeq[0], true);
  }

  /** A record at or below its device's flushed watermark goes to the
      unsequence chain even when it is newer than other accepted records:
      after (d1, 100) is flushed, (d1, 80) opens an unsequence file. */
  method OutOfOrderRecordGoesToUnsequence() returns (sequenceFileCount: nat, unsequenceFileCount: nat)
    ensures sequenceFileCount == 1 && unsequenceFileCount == 1
  {
    var e := new Engine("root.sg", Store(false, map[], [], [], StatusNone, 0));
    var ok1, ok2;
    ghost var t1, t2, c1, c2;
    ok1, t1, c1 := e.InsertCorrected(Record("root.sg.d1", 100), FlushOnly);
    assert e.latestFlushedTime["root.sg.d1"] == 100;
    ok2, t2, c2 := e.InsertCorrected(Record("root.sg.d1", 80), Quiet);
    sequenceFileCount, unsequenceFileCount := |e.sequenceFiles|, |e.unsequenceFiles|;
  }
}
