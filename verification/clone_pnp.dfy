/** The clone device's dispatch routines (driver/clone.c): a PnP responder
    that answers PnP itself, without forwarding: it hands the lifecycle
    requests to the success helper, makes up its identity strings, points
    capability queries at what the filter cached, and names itself as its
    own target device. */
module ClonePnp {
  import opened Common
  import opened RemoveLock
  import opened Irp
  import MultiSz
  import FilterPnp

  /** The role tag is read two ways: compared with ISCLONE at the top of
      the PnP and power routines, and tested for the ISCLONE bit when the
      identity strings are chosen. ISCLONE is defined in a header that is
      not part of this model, so the two readings are separate fields. */
  datatype CloneDevice = CloneDevice(
    tagIsClone: bool,  // the role tag equals ISCLONE
    cloneBit: bool,    // the role tag has the ISCLONE bit set
    lock: Lock)

  /** A device named in a relations list. */
  datatype DeviceRef = CloneSelf | OtherDevice(id: nat)

  /** The request's Information field. */
  datatype Info = NoInfo | IdBuffer(buf: string) | RelationList(objects: seq<DeviceRef>)

  /** The request's status block. */
  datatype IoStatus = IoStatus(status: Status, info: Info)

  /** What one request sees: the driver name the device ID starts with, the
      capabilities the filter cached, whether allocations succeed, and the
      status block the request carries when its minor function is read. The success and repeater
      helpers are defined outside the modelled files, so what each returns
      and the status block it leaves on the request are inputs too. */
  datatype CloneEnv = CloneEnv(
    driverName: string,
    filterCaps: DevCaps,
    poolAvailable: bool,
    incoming: IoStatus,
    succeedStatus: Status,
    succeedIo: IoStatus,
    repeatStatus: Status,
    repeatIo: IoStatus)

  datatype CloneOutcome = CloneOutcome(
    status: Status,          // what the routine returns
    io: IoStatus,            // the status block the request ends with
    capsTarget: Option<DevCaps>,  // what the request's capability pointer is left pointing at, if reset
    lock: Lock,
    trace: seq<Event>)

  const CloneHwId: string := "*GCH4133"
  const OtherHwId: string := "*GCH4134"
  const InstanceIdString: string := "0000"

  /** The role-tag check at the top of the PnP and power routines: a device
      whose tag is not ISCLONE is handed to the failure helper with
      NO_SUCH_DEVICE, and the routine then carries on as for any device. */
  function RoleCheck(d: CloneDevice): (t: seq<Event>)
  {
    if d.tagIsClone then [] else [FailRequest(NoSuchDevice)]
  }

  /** The identity string for an ID query, or None for the kinds the clone
      does not answer. */
  function IdString(t: IdType, cloneBit: bool, driverName: string): (r: Option<string>)
  {
    match t
    case BusQueryInstanceId => Some(InstanceIdString)
    case BusQueryDeviceId => Some(driverName + "\\" + (if cloneBit then CloneHwId else OtherHwId))
    case BusQueryHardwareIds => Some(if cloneBit then CloneHwId else OtherHwId)
    case _ => None
  }

  /** The buffer handed back for an identity string: the string, its
      terminator, and one more NUL. */
  function IdBufferOf(id: string): (buf: string)
    ensures |buf| == |id| + 2
  {
    id + [NUL, NUL]
  }

  /** Completed here with the status block `io`, then the lock given back. */
  function Finish(held: Lock, io: IoStatus, caps: Option<DevCaps>): (o: CloneOutcome)
    requires held.outstanding > 0
  {
    CloneOutcome(io.status, io, caps, Release(held), [CompleteIrp(io.status), ReleaseLock])
  }

  /** ClonePnpDispatch for a request whose remove lock is held. */
  function HandlePnp(d: CloneDevice, held: Lock, m: Minor, env: CloneEnv): (o: CloneOutcome)
    requires held.outstanding > 0
  {
    var io := env.incoming;
    if Lifecycle(m) then CloneOutcome(env.succeedStatus, env.succeedIo, None, held, [Succeed])
    else match m
    case DeviceUsageNotification => CloneOutcome(env.repeatStatus, env.repeatIo, None, held, [Repeat])
    case QueryId(t) =>
      (match IdString(t, d.cloneBit, env.driverName)
       case None =>
         // completed as unsupported, but the routine returns success
         CloneOutcome(Success, IoStatus(NotSupported, NoInfo), None, held, [CompleteIrp(NotSupported)])
       case Some(id) =>
         if !env.poolAvailable then Finish(held, IoStatus(InsufficientResources, NoInfo), None)
         else Finish(held, IoStatus(Success, IdBuffer(IdBufferOf(id))), None))
    case QueryCapabilities(_) => Finish(held, io.(status := Success), Some(env.filterCaps))
    case QueryResourceRequirements =>
      // completed with the status block it came with; the routine returns success
      CloneOutcome(Success, io, None, Release(held), [CompleteIrp(io.status), ReleaseLock])
    case QueryDeviceRelations(relation) =>
      if relation != TargetDeviceRelation then Finish(held, io, None)
      else if env.poolAvailable then Finish(held, IoStatus(Success, RelationList([CloneSelf])), None)
      else Finish(held, io.(status := InsufficientResources), None)
    case _ => Finish(held, io.(status := NotSupported), None)
  }

  /** ClonePnpDispatch after the role check: DELETE_PENDING when the remove
      lock cannot be taken, otherwise handled with the lock held. */
  function AnswerPnp(d: CloneDevice, m: Minor, env: CloneEnv): (o: CloneOutcome)
  {
    match Acquire(d.lock)
    case None => CloneOutcome(DeletePending, env.incoming.(status := DeletePending), None, d.lock, [CompleteIrp(DeletePending)])
    case Some(held) => HandlePnp(d, held, m, env)
  }

  /** ClonePnpDispatch: the role check, then the answer. Every PnP request
      is answered here, none is sent down, and the routine keeps at most the
      one reference it took. */
  function ClonePnpDispatch(d: CloneDevice, m: Minor, env: CloneEnv): (o: CloneOutcome)
    ensures ForwardSync !in o.trace && ForwardAsync !in o.trace
    ensures o.lock.removing == d.lock.removing
    ensures d.lock.outstanding <= o.lock.outstanding <= d.lock.outstanding + 1
  {
    var answer := AnswerPnp(d, m, env);
    answer.(trace := RoleCheck(d) + answer.trace)
  }

  /** ClonePowerDispatch: the role check, then the next power request may
      start on both paths; an accepted request gives the lock back and
      returns what the success helper returns (`succeed`). Nothing is
      passed down, and the lock is left as it was found. */
  function ClonePowerDispatch(d: CloneDevice, succeed: Status): (r: Passed)
    ensures r.lock == d.lock
    ensures ForwardPower !in r.trace && ForwardAsync !in r.trace && ForwardSync !in r.trace
  {
    var answer :=
      (match Acquire(d.lock)
       case None => Passed(DeletePending, d.lock, [StartNextPower, CompleteIrp(DeletePending)])
       case Some(held) => Passed(succeed, Release(held), [StartNextPower, ReleaseLock, Succeed]));
    answer.(trace := RoleCheck(d) + answer.trace)
  }

  /** CloneSystemControlDispatch: nothing is sent down; an accepted request
      gives the lock back and returns what the success helper returns.
      There is no role check here, and the lock is left as it was found. */
  function CloneSystemControlDispatch(lock: Lock, succeed: Status): (r: Passed)
    ensures r.lock == lock
    ensures ForwardAsync !in r.trace && ForwardSync !in r.trace
  {
    match Acquire(lock)
    case None => Passed(DeletePending, lock, [CompleteIrp(DeletePending)])
    case Some(held) => Passed(succeed, Release(held), [ReleaseLock, Succeed])
  }

  // ---- properties ------------------------------------------------------

  /** After the role check, a PnP request is refused with DELETE_PENDING,
      touching nothing, exactly when removal has begun. */
  lemma CloneRefusal(d: CloneDevice, m: Minor, env: CloneEnv)
    ensures var o := ClonePnpDispatch(d, m, env);
            (d.lock.removing <==> o.trace == RoleCheck(d) + [CompleteIrp(DeletePending)]) &&
            (d.lock.removing ==> o.status == DeletePending && o.lock == d.lock)
  {
    var pre, o := RoleCheck(d), ClonePnpDispatch(d, m, env);
    if o.trace == pre + [CompleteIrp(DeletePending)] {
      // the answer's own steps are what follows the role check
      assert AnswerPnp(d, m, env).trace == o.trace[|pre|..] == [CompleteIrp(DeletePending)];
    }
  }

  /** A device whose tag is not ISCLONE is handed to the failure helper
      with NO_SUCH_DEVICE first, and the routine then goes on to answer the
      request exactly as for a correctly tagged device: same status, same
      status block, same lock, same steps after the failure. */
  lemma WrongTagFailsThenCarriesOn(d: CloneDevice, m: Minor, env: CloneEnv)
    ensures var o := ClonePnpDispatch(d, m, env);
            var tagged := ClonePnpDispatch(d.(tagIsClone := true), m, env);
            (d.tagIsClone <==> FailRequest(NoSuchDevice) !in o.trace) &&
            (!d.tagIsClone ==> o.trace == [FailRequest(NoSuchDevice)] + tagged.trace) &&
            o.status == tagged.status && o.io == tagged.io && o.lock == tagged.lock
  {
  }

  /** The eight lifecycle requests are all handed to the success helper,
      whose answer is the routine's, and nothing else is done: the clone has
      no state of its own to move, and nothing is sent down or completed
      here. */
  lemma LifecycleSucceeds(d: CloneDevice, m: Minor, env: CloneEnv)
    requires !d.lock.removing && Lifecycle(m)
    ensures var o := ClonePnpDispatch(d, m, env);
            o.status == env.succeedStatus && o.io == env.succeedIo && o.capsTarget.None? &&
            o.trace == RoleCheck(d) + [Succeed]
  {
  }

  /** The identity table: instance "0000", device ID the driver name, a
      backslash and the hardware ID, hardware ID *GCH4133 for the clone
      (*GCH4134 without the clone bit); compatible IDs and every other kind
      are unsupported, completed with no information while the routine
      still returns success. */
  lemma QueryIdTable(d: CloneDevice, t: IdType, env: CloneEnv)
    requires !d.lock.removing && env.poolAvailable
    ensures var o := ClonePnpDispatch(d, QueryId(t), env);
            var hw := if d.cloneBit then "*GCH4133" else "*GCH4134";
            (t == BusQueryInstanceId ==> o.io == IoStatus(Success, IdBuffer("0000" + [NUL, NUL]))) &&
            (t == BusQueryDeviceId ==> o.io == IoStatus(Success, IdBuffer(env.driverName + "\\" + hw + [NUL, NUL]))) &&
            (t == BusQueryHardwareIds ==> o.io == IoStatus(Success, IdBuffer(hw + [NUL, NUL]))) &&
            (t.BusQueryCompatibleIds? || t.OtherIdType? ==>
               o.status == Success && o.io == IoStatus(NotSupported, NoInfo) &&
               o.trace == RoleCheck(d) + [CompleteIrp(NotSupported)])
  {
  }

  /** An identity buffer is a multi-string holding just the identity
      string, so the installer's splitter reads it back as one entry. */
  lemma IdBufferIsMultiSz(id: string)
    requires |id| > 0 && NUL !in id
    ensures MultiSz.Terminated(IdBufferOf(id), 0)
    ensures MultiSz.Strings(IdBufferOf(id), 0) == [id]
  {
    assert IdBufferOf(id) == MultiSz.Join([id]);
    MultiSz.JoinParses([id]);
  }

  /** Every identity the clone answers is a well-formed one-entry
      multi-string (given a driver name without NUL). */
  lemma AnsweredIdsAreMultiSz(d: CloneDevice, t: IdType, env: CloneEnv)
    requires !d.lock.removing && env.poolAvailable && NUL !in env.driverName
    requires IdString(t, d.cloneBit, env.driverName).Some?
    ensures var o := ClonePnpDispatch(d, QueryId(t), env);
            o.io.info.IdBuffer? && MultiSz.Terminated(o.io.info.buf, 0) &&
            MultiSz.Strings(o.io.info.buf, 0) == [IdString(t, d.cloneBit, env.driverName).value]
  {
    var id := IdString(t, d.cloneBit, env.driverName).value;
    assert NUL !in id;
    IdBufferIsMultiSz(id);
  }

  /** An identity the clone cannot allocate is answered with
      INSUFFICIENT_RESOURCES and no information. */
  lemma QueryIdNoMemory(d: CloneDevice, t: IdType, env: CloneEnv)
    requires !d.lock.removing && !env.poolAvailable && IdString(t, d.cloneBit, env.driverName).Some?
    ensures var o := ClonePnpDispatch(d, QueryId(t), env);
            o.status == InsufficientResources && o.io == IoStatus(InsufficientResources, NoInfo) &&
            o.lock == d.lock
  {
    AcquireRelease(d.lock);
  }

  /** QUERY_CAPABILITIES answers success, leaving the request's capability
      pointer on the record the filter cached, without asking anyone
      below. */
  lemma CapsFromFilter(d: CloneDevice, version: nat, env: CloneEnv)
    requires !d.lock.removing
    ensures var o := ClonePnpDispatch(d, QueryCapabilities(version), env);
            o.status == Success && o.capsTarget == Some(env.filterCaps) && ForwardSync !in o.trace &&
            ForwardAsync !in o.trace
  {
  }

  /** QUERY_DEVICE_RELATIONS: a target-device query is answered with a list
      holding only the clone itself, replacing any earlier list (or with
      INSUFFICIENT_RESOURCES when the list cannot be allocated); any other
      relation query is completed with the status block it came with. */
  lemma TargetRelation(d: CloneDevice, relation: RelationType, env: CloneEnv)
    requires !d.lock.removing
    ensures var o := ClonePnpDispatch(d, QueryDeviceRelations(relation), env);
            o.lock == d.lock &&
            (relation == TargetDeviceRelation && env.poolAvailable ==>
               o.status == Success && o.io.info == RelationList([CloneSelf])) &&
            (relation == TargetDeviceRelation && !env.poolAvailable ==>
               o.status == InsufficientResources && o.io.info == env.incoming.info) &&
            (relation != TargetDeviceRelation ==> o.io == env.incoming && o.status == env.incoming.status)
  {
    AcquireRelease(d.lock);
  }

  /** QUERY_RESOURCE_REQUIREMENTS returns success; every minor function the
      clone does not handle is completed NOT_SUPPORTED. */
  lemma OtherMinors(d: CloneDevice, code: nat, env: CloneEnv)
    requires !d.lock.removing
    ensures ClonePnpDispatch(d, QueryResourceRequirements, env).status == Success
    ensures var o := ClonePnpDispatch(d, OtherMinor(code), env);
            o.status == NotSupported && o.io.info == env.incoming.info && o.lock == d.lock
  {
    AcquireRelease(d.lock);
  }

  /** The record the clone's capability pointer is left on is the one the
      filter's last successful QUERY_CAPABILITIES cached. */
  lemma CachedCapsReachClone(f: FilterPnp.FilterDevice, version: nat, stack: FilterPnp.Stack,
                             d: CloneDevice, env: CloneEnv)
    requires !f.lock.removing && !d.lock.removing && version >= 1 && NtSuccess(stack.lower)
    requires env.filterCaps == FilterPnp.FilterPnpDispatch(f, QueryCapabilities(version), stack).dev.devcaps
    ensures ClonePnpDispatch(d, QueryCapabilities(version), env).capsTarget == Some(stack.lowerCaps)
  {
    FilterPnp.CapsCaching(f, version, stack);
  }

  /** The power routine lets the next power request start on both paths,
      right after the role check; it refuses exactly once removal has
      begun, and otherwise gives the lock back and returns the success
      helper's answer. */
  lemma ClonePowerRule(d: CloneDevice, succeed: Status)
    ensures var r := ClonePowerDispatch(d, succeed);
            var pre := RoleCheck(d);
            |r.trace| > |pre| && r.trace[..|pre|] == pre && r.trace[|pre|] == StartNextPower &&
            (d.lock.removing <==> r.trace == pre + [StartNextPower, CompleteIrp(DeletePending)]) &&
            (d.lock.removing ==> r.status == DeletePending) &&
            (!d.lock.removing ==> r.status == succeed && r.trace == pre + [StartNextPower, ReleaseLock, Succeed])
  {
  }

  /** System-control requests are not sent down: refused once removal has
      begun, otherwise the lock is given back and the success helper's
      answer returned. */
  lemma SystemControlRule(lock: Lock, succeed: Status)
    ensures var r := CloneSystemControlDispatch(lock, succeed);
            r.lock == lock && ForwardAsync !in r.trace && ForwardSync !in r.trace &&
            (lock.removing <==> r.trace == [CompleteIrp(DeletePending)]) &&
            (lock.removing ==> r.status == DeletePending) &&
            (!lock.removing ==> r.status == succeed && r.trace == [ReleaseLock, Succeed])
  {
    if !lock.removing {
      AcquireRelease(lock);
    }
  }
}
