/** What the filter and the clone share: the PnP lifecycle states kept in
    the common device extension, the minor functions they answer, the
    capability record, and the trace of steps a dispatch routine takes on a
    request (forwarding it, completing it, giving back the remove lock …). */
module Irp {
  import opened Common
  import opened RemoveLock

  datatype PnpState = Started | StopPending | Stopped | RemovePending | SurpriseRemoved | Removed

  /** The capability record the lower stack fills in; the filter copies it
      whole, so its contents are left abstract. */
  datatype DevCaps = DevCaps(version: nat, body: seq<bv8>)

  datatype IdType = BusQueryDeviceId | BusQueryHardwareIds | BusQueryCompatibleIds | BusQueryInstanceId
    | OtherIdType(code: nat)

  datatype RelationType = BusRelations | TargetDeviceRelation | OtherRelation(code: nat)

  /** The PnP minor functions the two dispatch routines distinguish. */
  datatype Minor =
    | StartDevice | QueryStopDevice | CancelStopDevice | StopDevice
    | QueryRemoveDevice | CancelRemoveDevice | SurpriseRemoval | RemoveDevice
    | DeviceUsageNotification
    | QueryId(idType: IdType)
    | QueryCapabilities(version: nat)
    | QueryResourceRequirements
    | QueryDeviceRelations(relation: RelationType)
    | OtherMinor(code: nat)

  /** The eight minor functions of the start/stop/remove lifecycle. */
  predicate Lifecycle(m: Minor) {
    m.StartDevice? || m.QueryStopDevice? || m.CancelStopDevice? || m.StopDevice? ||
    m.QueryRemoveDevice? || m.CancelRemoveDevice? || m.SurpriseRemoval? || m.RemoveDevice?
  }

  /** One step a dispatch routine takes on the request it was given. */
  datatype Event =
    | SetState(state: PnpState)   // the device's PnP state is written
    | ForwardSync                 // sent down and waited for
    | ForwardAsync                // sent down without waiting
    | ForwardPower                // sent down through the power manager
    | CompleteIrp(status: Status) // completed here with this status
    | ReleaseLock                 // the remove lock is given back
    | WaitDrain                   // the removal wait
    | Detach                      // detached from the lower device
    | Delete                      // the device object is deleted
    | StartNextPower              // the next power request may start
    | ReportBusRelations          // the clone is reported as the one bus child
    | Succeed                     // answered by the success helper
    | Repeat                      // handed to the repeater helper
    | FailRequest(status: Status) // handed to the failure helper with this status

  /** What a routine that only forwards (or refuses) leaves behind. */
  datatype Passed = Passed(status: Status, lock: Lock, trace: seq<Event>)

  /** The close, cleanup, write, device-control and internal-device-control
      routines of both devices, and the filter's system-control routine:
      refused with DELETE_PENDING once removal has begun, otherwise sent down
      with the lock given back afterwards. */
  function PassThrough(lock: Lock, lower: Status): (r: Passed)
    ensures r.lock == lock
    ensures ForwardAsync in r.trace <==> !lock.removing
    ensures !lock.removing ==> r.status == lower
  {
    match Acquire(lock)
    case None => Passed(DeletePending, lock, [CompleteIrp(DeletePending)])
    case Some(held) => Passed(lower, Release(held), [ForwardAsync, ReleaseLock])
  }

  /** A pass-through either refuses the request, touching nothing, or
      forwards it and returns the lower answer with the lock balanced. */
  lemma PassThroughRule(lock: Lock, lower: Status)
    ensures var r := PassThrough(lock, lower);
            r.lock == lock &&
            (lock.removing <==> r.status == DeletePending && r.trace == [CompleteIrp(DeletePending)]) &&
            (!lock.removing ==> r.status == lower && ForwardAsync in r.trace)
  {
    if !lock.removing {
      AcquireRelease(lock);
    }
  }
}
