/**
 * The data-file side of a storage group as the write engine sees it:
 * a `TsFileResource` describing one data file, and the unsealed-file
 * processor that owns it.
 *
 * The processor is a collaborator whose internals are not modelled. It is
 * represented by the file it owns and by the ordered list of requests the
 * engine has made of it; its answers (whether a write succeeded, whether it
 * should flush or close) are supplied to the engine as parameters.
 */
module TsFiles {
  import opened Basics

  /** A record to be inserted: the device it belongs to and its timestamp. */
  datatype Record = Record(deviceId: string, time: Long)

  /** Metadata of one data file, sealed or not. */
  class TsFileResource {
    const file: FilePath
    /** device -> first timestamp written to this file (maintained by the processor). */
    var startTimes: map<string, Long>
    /**
     * device -> last timestamp, fixed when the file is closed. `None` stands
     * for the Java `null` stored when the engine knows no latest time for a device.
     */
    var endTimes: map<string, Option<Long>>
    var closed: bool

    constructor (file: FilePath)
      ensures this.file == file
      ensures startTimes == map[] && endTimes == map[] && !closed
    {
      this.file := file;
      startTimes := map[];
      endTimes := map[];
      closed := false;
    }
  }

  /** A request the engine makes of an unsealed-file processor. */
  datatype Call = Write(record: Record) | SetCloseMark | AsyncFlush | ForceClose

  /** An unsealed-file processor: the file it owns and the requests it has received. */
  class Processor {
    const resource: TsFileResource
    var calls: seq<Call>

    /** Opens a processor on a new, empty data file. */
    constructor (file: FilePath)
      ensures fresh(resource)
      ensures resource.file == file
      ensures resource.startTimes == map[] && resource.endTimes == map[] && !resource.closed
      ensures calls == []
    {
      resource := new TsFileResource(file);
      calls := [];
    }

    /** No further writes are accepted once the close mark is set. */
    ghost predicate CloseMarked()
      reads this
    {
      Call.SetCloseMark in calls
    }

    method Write(record: Record)
      modifies this
      ensures calls == old(calls) + [Call.Write(record)]
    {
      calls := calls + [Call.Write(record)];
    }

    method SetCloseMark()
      modifies this
      ensures calls == old(calls) + [Call.SetCloseMark]
      ensures CloseMarked()
    {
      calls := calls + [Call.SetCloseMark];
    }

    method AsyncFlush()
      modifies this
      ensures calls == old(calls) + [Call.AsyncFlush]
    {
      calls := calls + [Call.AsyncFlush];
    }

    method ForceClose()
      modifies this
      ensures calls == old(calls) + [Call.ForceClose]
    {
      calls := calls + [Call.ForceClose];
    }
  }
}
