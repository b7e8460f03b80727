/**
 The archive: a map from key to bytes, and `WriteRawEvent` of both adapters as a machine
 that makes one store call per step.

 Each adapter writes the guard object of the event id and then the final object. On S3 each
 write is a PUT with `If-None-Match: *` (section 13.1.2 of RFC 9110), followed by a GET when the
 object is there already. On disk each write reads the path, links a finished temporary file
 into place, and reads again if the link found the path taken; a failed final write removes a
 guard that this call created.
 */
module Storage {
  import opened Wrappers
  import opened Faults
  import opened Events
  import opened Requests

  type Objects = map<Key, Text>

  datatype Target = Guard | Final

  datatype WriteResult =
    | Written(uri: Uri)
    | Conflicting  // the key holds other content: ConflictError
    | Unavailable  // any other storage error

  function TargetKey(q: Request, target: Target): Key {
    if target.Guard? then GuardKey(q.eventId) else q.finalKey
  }

  /** The next store call of a `WriteRawEvent`. */
  datatype StorePc =
    | Put(target: Target)
    | Get(target: Target)
    | Check(target: Target, guardCreated: bool)
    | Link(target: Target, guardCreated: bool)
    | Recheck(target: Target, guardCreated: bool)
    | RollbackCheck(result: WriteResult)
    | RollbackRemove(result: WriteResult)
    | Naming
    | Returned(result: WriteResult)

  function StoreBegin(archiveFirst: bool): StorePc {
    if archiveFirst then Put(Guard) else Check(Guard, false)
  }

  /* ---------- S3 ---------- */

  /** The server's side of a conditional PUT. An existing object is never replaced. */
  function PutIfAbsent(objects: Objects, key: Key, text: Text, fault: Fault): Objects {
    if key !in objects && fault.TakesEffect() then objects[key := text] else objects
  }

  function AfterObject(q: Request, target: Target): StorePc {
    if target.Guard? then Put(Final) else Returned(Written(Uri(q.finalKey)))
  }

  /** What the client does with the reply to its PUT. */
  function PutReply(q: Request, target: Target, existed: bool, fault: Fault): StorePc {
    if fault.Fails? || fault.FailsAfter? then Returned(Unavailable)
    else if existed || fault.Contended? || fault.ContendedAfter? then Get(target)
    else AfterObject(q, target)
  }

  function GetReply(objects: Objects, q: Request, target: Target, fault: Fault): StorePc {
    var key := TargetKey(q, target);
    if !fault.Works? || key !in objects then Returned(Unavailable)
    else if objects[key] != q.text then Returned(Conflicting)
    else AfterObject(q, target)
  }

  /* ---------- Filesystem ---------- */

  /** `writeFileIfAbsent` came back without error; `created` is its first result. */
  function AfterFile(target: Target, created: bool): StorePc {
    if target.Guard? then Check(Final, created) else Naming
  }

  /** `writeFileIfAbsent` failed: a guard this call created is taken back. */
  function FileError(target: Target, guardCreated: bool, result: WriteResult): StorePc {
    if target.Final? && guardCreated then RollbackCheck(result) else Returned(result)
  }

  function CheckReply(objects: Objects, q: Request, target: Target, guardCreated: bool, fault: Fault): StorePc {
    var key := TargetKey(q, target);
    if !fault.Works? then FileError(target, guardCreated, Unavailable)
    else if key !in objects then Link(target, guardCreated)
    else if objects[key] != q.text then FileError(target, guardCreated, Conflicting)
    else AfterFile(target, false)
  }

  /**
   A failed temporary file or link has no effect. A link that finds the path occupied is followed by
   another read, even if the file that was in its way is a guard that has been taken back since.
   */
  function LinkReply(objects: Objects, q: Request, target: Target, guardCreated: bool, fault: Fault): StorePc {
    if fault.Contended? || (fault.Works? && TargetKey(q, target) in objects) then Recheck(target, guardCreated)
    else if !fault.Works? then FileError(target, guardCreated, Unavailable)
    else AfterFile(target, true)
  }

  function LinkIfAbsent(objects: Objects, key: Key, text: Text, fault: Fault): Objects {
    if key !in objects && fault.Works? then objects[key := text] else objects
  }

  function RecheckReply(objects: Objects, q: Request, target: Target, guardCreated: bool, fault: Fault): StorePc {
    var key := TargetKey(q, target);
    if !fault.Works? || key !in objects then FileError(target, guardCreated, Unavailable)
    else if objects[key] != q.text then FileError(target, guardCreated, Conflicting)
    else AfterFile(target, false)
  }

  function RollbackReply(objects: Objects, q: Request, result: WriteResult, fault: Fault): StorePc {
    var key := GuardKey(q.eventId);
    if fault.Works? && key in objects && objects[key] == q.text then RollbackRemove(result) else Returned(result)
  }

  function Remove(objects: Objects, key: Key, fault: Fault): Objects {
    if fault.Works? then objects - {key} else objects
  }

  /* ---------- One step, and a call running alone ---------- */

  function StoreStep(q: Request, objects: Objects, pc: StorePc, fault: Fault): (Objects, StorePc) {
    match pc
    case Put(t) =>
      (PutIfAbsent(objects, TargetKey(q, t), q.text, fault), PutReply(q, t, TargetKey(q, t) in objects, fault))
    case Get(t) => (objects, GetReply(objects, q, t, fault))
    case Check(t, c) => (objects, CheckReply(objects, q, t, c, fault))
    case Link(t, c) => (LinkIfAbsent(objects, TargetKey(q, t), q.text, fault), LinkReply(objects, q, t, c, fault))
    case Recheck(t, c) => (objects, RecheckReply(objects, q, t, c, fault))
    case RollbackCheck(r) => (objects, RollbackReply(objects, q, r, fault))
    case RollbackRemove(r) => (Remove(objects, GuardKey(q.eventId), fault), Returned(r))
    case Naming => (objects, Returned(if fault.Works? then Written(Uri(q.finalKey)) else Unavailable))
    case Returned(_) => (objects, pc)
  }

  /**
   One call running alone under exactly these faults, one per store call made. A list that
   stops early is a crash; a list that goes on after the call returned is no run at all.
   */
  function StoreWalk(q: Request, objects: Objects, pc: StorePc, faults: seq<Fault>): Option<(Objects, StorePc)> {
    if faults == [] then Some((objects, pc))
    else
      match StoreWalk(q, objects, pc, faults[..|faults| - 1])
      case None => None
      case Some((o, p)) => if p.Returned? then None else Some(StoreStep(q, o, p, faults[|faults| - 1]))
  }

  /** Between two moments of a fault log, a call moved from one program point to another. */
  ghost predicate StoreRan(q: Request, o: Objects, pc: StorePc, log: seq<Fault>, o': Objects, pc': StorePc,
                           log': seq<Fault>)
  {
    log <= log' && StoreWalk(q, o, pc, log'[|log|..]) == Some((o', pc'))
  }

  lemma StoreRanStep(q: Request, o: Objects, pc: StorePc, log: seq<Fault>, o': Objects, pc': StorePc, log': seq<Fault>,
                     fault: Fault)
    requires StoreRan(q, o, pc, log, o', pc', log') && !pc'.Returned?
    ensures var (o'', pc'') := StoreStep(q, o', pc', fault); StoreRan(q, o, pc, log, o'', pc'', log' + [fault])
  {
    var faults := (log' + [fault])[|log|..];
    assert faults[..|faults| - 1] == log'[|log|..];
  }

  lemma {:induction false} StoreWalkAppend(q: Request, o: Objects, pc: StorePc, a: seq<Fault>, b: seq<Fault>)
    requires StoreWalk(q, o, pc, a).Some?
    ensures var (v, r) := StoreWalk(q, o, pc, a).value; StoreWalk(q, o, pc, a + b) == StoreWalk(q, v, r, b)
  {
    if b == [] {
      assert a + b == a;
    } else {
      StoreWalkAppend(q, o, pc, a, b[..|b| - 1]);
      assert (a + b)[..|a + b| - 1] == a + b[..|b| - 1];
    }
  }

  lemma StoreRanTrans(q: Request, o: Objects, pc: StorePc, log: seq<Fault>, o': Objects, pc': StorePc, log': seq<Fault>,
                      o'': Objects, pc'': StorePc, log'': seq<Fault>)
    requires StoreRan(q, o, pc, log, o', pc', log') && StoreRan(q, o', pc', log', o'', pc'', log'')
    ensures StoreRan(q, o, pc, log, o'', pc'', log'')
  {
    StoreWalkAppend(q, o, pc, log'[|log|..], log''[|log'|..]);
    assert log'[|log|..] + log''[|log'|..] == log''[|log|..];
  }
}
