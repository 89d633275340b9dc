/**
 * The flush manager (`FlushManager`). It holds a FIFO queue of unsealed-file
 * processors that wait for a flush worker. Each processor has a "managed"
 * flag, which is set while the processor is queued, so that it is never
 * queued twice.
 *
 * Processors are identified by number. A processor's count of memtables
 * waiting to be flushed belongs to the processor; here it is a map owned by
 * the manager. The thread pool is a counter of submitted tasks that have not
 * run yet. Registration holds the processor's monitor, so it is one atomic
 * step. One run of the worker task is also modelled as one atomic step.
 */
module FlushScheduling {
  import opened Basics

  type ProcessorId = nat

  class FlushManager {
    var queue: seq<ProcessorId>
    /** processor -> its managed-by-flush-manager flag (absent: false) */
    var managed: map<ProcessorId, bool>
    /** processor -> number of memtables waiting to be flushed (absent: 0) */
    var flushingMemTables: map<ProcessorId, nat>
    /** tasks submitted to the flush pool that have not run yet */
    var submittedTasks: nat
    /** the processors whose `flushOneMemTable` ran, oldest first */
    var flushes: seq<ProcessorId>

    predicate IsManaged(p: ProcessorId)
      reads this
    {
      p in managed && managed[p]
    }

    function FlushingMemTableSize(p: ProcessorId): nat
      reads this
    {
      if p in flushingMemTables then flushingMemTables[p] else 0
    }

    /** A processor is queued at most once, exactly when its flag is set, and
        only while it has memtables to flush; one task is pending per entry. */
    ghost predicate Valid()
      reads this
    {
      && NoDuplicates(queue)
      && (forall i :: 0 <= i < |queue| ==> IsManaged(queue[i]) && FlushingMemTableSize(queue[i]) > 0)
      && (forall p :: p in managed && managed[p] ==> p in queue)
      && submittedTasks == |queue|
    }

    constructor ()
      ensures Valid()
      ensures queue == [] && managed == map[] && flushingMemTables == map[]
      ensures submittedTasks == 0 && flushes == []
    {
      queue := [];
      managed := map[];
      flushingMemTables := map[];
      submittedTasks := 0;
      flushes := [];
    }

    /** In a valid state a processor occurs in the queue at most once, and a
        queued processor has its flag set. */
    lemma QueuedAtMostOnce(p: ProcessorId)
      requires Valid()
      ensures multiset(queue)[p] <= 1
      ensures p in queue ==> IsManaged(p)
    {
      DistinctOccursAtMostOnce(queue, p);
    }

    /** A processor moves one more memtable to its flushing list (done by the
        processor itself before it registers). */
    method AddFlushingMemTable(p: ProcessorId)
      requires Valid()
      modifies this`flushingMemTables
      ensures Valid()
      ensures flushingMemTables == old(flushingMemTables)[p := old(FlushingMemTableSize(p)) + 1]
    {
      flushingMemTables := flushingMemTables[p := FlushingMemTableSize(p) + 1];
    }

    /** `registerUnsealedTsFileProcessor`: a processor that is not managed and has memtables to flush
        is appended to the queue, flagged and given one task; otherwise nothing
        changes. */
    method RegisterUnsealedTsFileProcessor(p: ProcessorId) returns (ok: bool)
      requires Valid()
      modifies this
      ensures Valid()
      ensures ok == (!old(IsManaged(p)) && old(FlushingMemTableSize(p)) > 0)
      ensures ok ==>
        && queue == old(queue) + [p]
        && managed == old(managed)[p := true]
        && submittedTasks == old(submittedTasks) + 1
      ensures !ok ==>
        && queue == old(queue)
        && managed == old(managed)
        && submittedTasks == old(submittedTasks)
      ensures flushingMemTables == old(flushingMemTables) && flushes == old(flushes)
    {
      if !IsManaged(p) && FlushingMemTableSize(p) > 0 {
        queue := queue + [p];
        managed := managed[p := true];
        submittedTasks := submittedTasks + 1;
        ok := true;
      } else {
        ok := false;
      }
    }

    /** The part of `flushThread` before it registers the processor again:
        the queue head is polled and its task has run, one memtable is flushed
        (or the count the failure left is taken), and the flag is cleared. */
    method TakeHead(flushFails: bool, pendingAfterFailure: nat) returns (p: ProcessorId)
      requires Valid()
      requires submittedTasks > 0
      modifies this
      ensures Valid()
      ensures p == old(queue[0]) && !IsManaged(p) && p !in queue
      ensures queue == old(queue[1..]) && submittedTasks == old(submittedTasks) - 1
      ensures flushes == old(flushes) + [p]
      ensures flushingMemTables == if flushFails then old(flushingMemTables)[p := pendingAfterFailure]
                                   else old(flushingMemTables)[p := old(FlushingMemTableSize(p)) - 1]
      ensures managed == old(managed)[p := false]
    {
      p := queue[0];
      assert p !in queue[1..] by {
        forall j | 0 <= j < |queue[1..]|
          ensures queue[1..][j] != p
        {
          assert queue[1..][j] == queue[j + 1];
        }
      }
      queue := queue[1..];
      submittedTasks := submittedTasks - 1;
      flushes := flushes + [p];
      if flushFails {
        flushingMemTables := flushingMemTables[p := pendingAfterFailure];
      } else {
        flushingMemTables := flushingMemTables[p := FlushingMemTableSize(p) - 1];
      }
      managed := managed[p := false];
    }

    /** `flushThread`: one run of the worker task. It takes the HEAD of the queue
        (whichever processor registered first, not necessarily the one whose
        registration submitted this task), flushes one of its memtables,
        clears its flag and registers it again. An I/O failure of the flush is
        caught and discarded. What a failed flush leaves pending is decided
        inside the processor, so it is the parameter `pendingAfterFailure`. */
    method FlushThread(flushFails: bool, pendingAfterFailure: nat) returns (p: ProcessorId, requeued: bool)
      requires Valid()
      requires submittedTasks > 0
      modifies this
      ensures Valid()
      ensures p == old(queue[0])
      ensures flushes == old(flushes) + [p]
      ensures flushingMemTables == if flushFails then old(flushingMemTables)[p := pendingAfterFailure]
                                   else old(flushingMemTables)[p := old(FlushingMemTableSize(p)) - 1]
      ensures requeued == (FlushingMemTableSize(p) > 0)
      ensures requeued == if flushFails then pendingAfterFailure > 0 else old(FlushingMemTableSize(p)) > 1
      ensures queue == old(queue[1..]) + (if requeued then [p] else [])
      ensures IsManaged(p) == requeued
      ensures forall q :: q != p ==> IsManaged(q) == old(IsManaged(q))
      ensures submittedTasks == old(submittedTasks) - 1 + (if requeued then 1 else 0)
    {
      p := TakeHead(flushFails, pendingAfterFailure);
      requeued := RegisterUnsealedTsFileProcessor(p);
    }
  }
}
