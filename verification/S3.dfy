/** The S3 adapter, call by call. */
module S3Adapter {
  import opened Faults
  import opened Events
  import opened Requests
  import opened Storage

  class S3 {
    var objects: Objects
    const oracle: Oracle

    constructor (oracle: Oracle)
      ensures this.oracle == oracle && objects == map[]
    {
      this.oracle := oracle;
      objects := map[];
    }

    /** Guard first, then the final object. */
    method WriteRawEvent(q: Request) returns (result: WriteResult)
      modifies this, oracle
      ensures StoreRan(q, old(objects), Put(Guard), old(oracle.log), objects, Returned(result), oracle.log)
    {
      result := WriteObjectAtKey(q, Guard);
      if result.Written? {
        label Guarded:
        result := WriteObjectAtKey(q, Final);
        StoreRanTrans(q, old(objects), Put(Guard), old(oracle.log),
                      old@Guarded(objects), Put(Final), old@Guarded(oracle.log),
                      objects, Returned(result), oracle.log);
      }
    }

    /** Where a write of one object leaves the call: at the next write, or returned. */
    ghost function AfterTarget(q: Request, target: Target, result: WriteResult): StorePc {
      if result.Written? then AfterObject(q, target) else Returned(result)
    }

    method WriteObjectAtKey(q: Request, target: Target) returns (result: WriteResult)
      modifies this, oracle
      ensures StoreRan(q, old(objects), Put(target), old(oracle.log),
                       objects, AfterTarget(q, target, result), oracle.log)
      ensures result.Written? ==> result.uri == Uri(TargetKey(q, target))
    {
      var key := TargetKey(q, target);
      var existed := key in objects;
      var fault := oracle.Draw();
      StoreRanStep(q, old(objects), Put(target), old(oracle.log), old(objects), Put(target), old(oracle.log), fault);
      if !existed && fault.TakesEffect() {
        objects := objects[key := q.text];
      }
      if fault.Fails? || fault.FailsAfter? {
        return Unavailable;
      }
      if existed || fault.Contended? || fault.ContendedAfter? {
        label Exists:
        result := ConfirmRawEventAtKey(key, q.text);
        ghost var reply := oracle.log[|oracle.log| - 1];
        StoreRanStep(q, old(objects), Put(target), old(oracle.log), objects, Get(target), old@Exists(oracle.log),
                     reply);
        return;
      }
      return Written(Uri(key));
    }

    /** `ConfirmRawEvent` for a key: the object is there and holds exactly this text. */
    method ConfirmRawEventAtKey(key: Key, text: Text) returns (result: WriteResult)
      modifies oracle
      ensures |oracle.log| == |old(oracle.log)| + 1 && oracle.log == old(oracle.log) + [oracle.log[|old(oracle.log)|]]
      ensures var fault := oracle.log[|old(oracle.log)|];
              result == if !fault.Works? || key !in objects then Unavailable
                        else if objects[key] != text then Conflicting
                        else Written(Uri(key))
    {
      var fault := oracle.Draw();
      if !fault.Works? || key !in objects {
        return Unavailable;
      }
      if objects[key] != text {
        return Conflicting;
      }
      return Written(Uri(key));
    }
  }
}
