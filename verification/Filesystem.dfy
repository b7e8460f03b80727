/** The filesystem adapter, call by call. A path is named by its key. */
module FilesystemAdapter {
  import opened Wrappers
  import opened Faults
  import opened Events
  import opened Requests
  import opened Storage

  datatype Existing = Same | Different | Missing | Unreadable

  /** What a read that settles the matter makes of the write: there is nothing to create, or an error. */
  function ReadResult(existing: Existing): Result<bool, WriteResult> {
    match existing
    case Same => Ok(false)
    case Different => Err(Conflicting)
    case _ => Err(Unavailable)
  }

  class Filesystem {
    var files: Objects
    const oracle: Oracle

    constructor (oracle: Oracle)
      ensures this.oracle == oracle && files == map[]
    {
      this.oracle := oracle;
      files := map[];
    }

    /** Guard first, then the final file; a guard created here is rolled back if the final fails. */
    method WriteRawEvent(q: Request) returns (result: WriteResult)
      modifies this, oracle
      ensures StoreRan(q, old(files), Check(Guard, false), old(oracle.log), files, Returned(result), oracle.log)
    {
      var guard := WriteFileIfAbsent(q, Guard, false);
      if guard.Err? {
        return guard.error;
      }
      label Guarded:
      var final := WriteFileIfAbsent(q, Final, guard.value);
      StoreRanTrans(q, old(files), Check(Guard, false), old(oracle.log),
                    old@Guarded(files), Check(Final, guard.value), old@Guarded(oracle.log),
                    files, AfterTarget(Final, guard.value, final), oracle.log);
      if final.Err? {
        result := final.error;
        if guard.value {
          label Failing:
          RemoveFileIfContentMatches(q, result);
          StoreRanTrans(q, old(files), Check(Guard, false), old(oracle.log),
                        old@Failing(files), RollbackCheck(result), old@Failing(oracle.log),
                        files, Returned(result), oracle.log);
        }
        return;
      }
      label Linked:
      var fault := oracle.Draw();
      StoreRanStep(q, old(files), Check(Guard, false), old(oracle.log), files, Naming, old@Linked(oracle.log), fault);
      if !fault.Works? {
        return Unavailable;
      }
      return Written(Uri(q.finalKey));
    }

    ghost function AfterTarget(target: Target, guardCreated: bool, result: Result<bool, WriteResult>): StorePc {
      match result
      case Ok(created) => AfterFile(target, created)
      case Err(error) => FileError(target, guardCreated, error)
    }

    /** `confirmExistingFile`: one read of a path. */
    method ConfirmExistingFile(path: Key, text: Text) returns (found: Existing, ghost fault: Fault)
      modifies oracle
      ensures oracle.log == old(oracle.log) + [fault]
      ensures found == if !fault.Works? then Unreadable else if path !in files then Missing
                       else if files[path] == text then Same else Different
    {
      var f := oracle.Draw();
      found :=
        if !f.Works? then Unreadable
        else if path !in files then Missing
        else if files[path] == text then Same
        else Different;
      fault := f;
    }

    /** Whether the file was created here, or an error; `guardCreated` is what the caller will roll back. */
    method WriteFileIfAbsent(q: Request, target: Target, ghost guardCreated: bool)
      returns (result: Result<bool, WriteResult>)
      modifies this, oracle
      ensures StoreRan(q, old(files), Check(target, guardCreated), old(oracle.log),
                       files, AfterTarget(target, guardCreated, result), oracle.log)
      ensures result.Err? ==> !result.error.Written?
    {
      var path := TargetKey(q, target);
      ghost var o, log, pc := files, oracle.log, Check(target, guardCreated);
      var existing, read := ConfirmExistingFile(path, q.text);
      StoreRanStep(q, o, pc, log, o, pc, log, read);
      if !existing.Missing? {
        return ReadResult(existing);
      }

      label Absent:
      var fault := oracle.Draw();
      StoreRanStep(q, o, pc, log, o, Link(target, guardCreated), old@Absent(oracle.log), fault);
      if fault.Contended? {
        label Occupied:
        var again, reread := ConfirmExistingFile(path, q.text);
        StoreRanStep(q, o, pc, log, o, Recheck(target, guardCreated), old@Occupied(oracle.log), reread);
        return ReadResult(again);
      }
      if !fault.Works? {
        return Err(Unavailable);
      }
      files := files[path := q.text];
      return Ok(true);
    }

    method RemoveFileIfContentMatches(q: Request, ghost result: WriteResult)
      modifies this, oracle
      ensures StoreRan(q, old(files), RollbackCheck(result), old(oracle.log), files, Returned(result), oracle.log)
    {
      var path := GuardKey(q.eventId);
      ghost var o, log := files, oracle.log;
      var existing, read := ConfirmExistingFile(path, q.text);
      StoreRanStep(q, o, RollbackCheck(result), log, o, RollbackCheck(result), log, read);
      if existing.Same? {
        label Matches:
        var fault := oracle.Draw();
        StoreRanStep(q, o, RollbackCheck(result), log, o, RollbackRemove(result), old@Matches(oracle.log), fault);
        if fault.Works? {
          files := files - {path};
        }
      }
    }

    /** `ConfirmRawEvent`: the final file is there and holds exactly this text. */
    method ConfirmRawEvent(path: Key, text: Text) returns (result: WriteResult)
      modifies oracle
      ensures |oracle.log| == |old(oracle.log)| + 1 && oracle.log == old(oracle.log) + [oracle.log[|old(oracle.log)|]]
      ensures var fault := oracle.log[|old(oracle.log)|];
              result == if !fault.Works? || path !in files then Unavailable
                        else if files[path] != text then Conflicting
                        else Written(Uri(path))
    {
      var fault := oracle.Draw();
      if !fault.Works? || path !in files {
        return Unavailable;
      }
      if files[path] != text {
        return Conflicting;
      }
      return Written(Uri(path));
    }
  }
}
