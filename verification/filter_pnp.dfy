/** The filter device's dispatch routines (driver/Filter.c): the PnP state
    machine, the power routine, and the routines that only pass requests
    down. The device below is modelled by its answer: the status it returns
    and the facts the filter reads from it. */
module FilterPnp {
  import opened Common
  import opened RemoveLock
  import opened Irp

  datatype FilterDevice = FilterDevice(
    pnpState: PnpState,
    previousPnpState: PnpState,
    lock: Lock,
    devcaps: DevCaps,
    removableMedia: bool,  // FILE_REMOVABLE_MEDIA in the device characteristics
    powerPagable: bool)    // DO_POWER_PAGABLE in the device flags

  /** The stack around the filter, as one request sees it. */
  datatype Stack = Stack(
    lower: Status,               // what the device below answers
    lowerCaps: DevCaps,          // the capabilities it fills in
    lowerRemovable: bool,
    lowerPagable: bool,
    attachedAbove: Option<bool>, // the device attached above, by its DO_POWER_PAGABLE flag
    poolAvailable: bool)         // whether the relations allocation succeeds

  datatype FilterOutcome = FilterOutcome(status: Status, dev: FilterDevice, trace: seq<Event>)

  /** Completed here with `s`, then the lock given back (the common exit of
      the switch). */
  function Finish(d: FilterDevice, s: Status, steps: seq<Event>): (o: FilterOutcome)
    requires d.lock.outstanding > 0
  {
    FilterOutcome(s, d.(lock := Release(d.lock)), steps + [CompleteIrp(s), ReleaseLock])
  }

  /** Sent down without waiting, then the lock given back. */
  function Forward(d: FilterDevice, s: Status, steps: seq<Event>): (o: FilterOutcome)
    requires d.lock.outstanding > 0
  {
    FilterOutcome(s, d.(lock := Release(d.lock)), steps + [ForwardAsync, ReleaseLock])
  }

  /** A cancel of a query: when the matching query is pending it is sent
      down and waited for, and success restores the state saved by the
      query (a failure is fatal in the source and changes nothing); any
      other cancel is spurious and only forwarded. */
  function Cancel(d: FilterDevice, pending: PnpState, stack: Stack): (o: FilterOutcome)
    requires d.lock.outstanding > 0
  {
    if d.pnpState == pending then
      if NtSuccess(stack.lower) then
        Finish(d.(pnpState := d.previousPnpState), stack.lower, [ForwardSync, SetState(d.previousPnpState)])
      else Finish(d, stack.lower, [ForwardSync])
    else Forward(d, stack.lower, [])
  }

  /** FilterPnpDispatch for a request whose remove lock is held. */
  function HandlePnp(d: FilterDevice, m: Minor, stack: Stack): (o: FilterOutcome)
    requires d.lock.outstanding > 0
  {
    match m
    case StartDevice =>
      if !NtSuccess(stack.lower) then Finish(d, stack.lower, [ForwardSync])
      else Finish(d.(pnpState := Started, removableMedia := d.removableMedia || stack.lowerRemovable),
                  stack.lower, [ForwardSync, SetState(Started)])
    case QueryStopDevice =>
      Forward(d.(previousPnpState := d.pnpState, pnpState := StopPending), stack.lower, [SetState(StopPending)])
    case CancelStopDevice => Cancel(d, StopPending, stack)
    case StopDevice =>
      Forward(d.(pnpState := Stopped), stack.lower, [SetState(Stopped)])
    case QueryRemoveDevice =>
      Forward(d.(previousPnpState := d.pnpState, pnpState := RemovePending), stack.lower, [SetState(RemovePending)])
    case CancelRemoveDevice => Cancel(d, RemovePending, stack)
    case SurpriseRemoval =>
      Forward(d.(pnpState := SurpriseRemoved), stack.lower, [SetState(SurpriseRemoved)])
    case RemoveDevice =>
      var drained := WaitForSafeRemove(Release(d.lock));
      FilterOutcome(stack.lower, d.(pnpState := Removed, lock := drained),
                    [SetState(Removed), ReleaseLock, WaitDrain, ForwardAsync, Detach, Delete])
    case DeviceUsageNotification =>
      var before := if stack.attachedAbove.None? || stack.attachedAbove.value then true else d.powerPagable;
      var after := if !stack.lowerPagable then false else before;
      Finish(d.(powerPagable := after), stack.lower, [ForwardSync])
    case QueryId(_) =>
      FilterOutcome(stack.lower, d, [ForwardAsync])
    case QueryCapabilities(version) =>
      if version < 1 then FilterOutcome(stack.lower, d, [ForwardAsync])
      else
        var caps := if NtSuccess(stack.lower) then stack.lowerCaps else d.devcaps;
        FilterOutcome(stack.lower, d.(devcaps := caps), [ForwardSync, CompleteIrp(stack.lower)])
    case QueryDeviceRelations(relation) =>
      // bus relations are filled in and then fall into the default case
      Forward(d, stack.lower, if relation == BusRelations && stack.poolAvailable then [ReportBusRelations] else [])
    case QueryResourceRequirements => Forward(d, stack.lower, [])
    case OtherMinor(_) => Forward(d, stack.lower, [])
  }

  /** FilterPnpDispatch: refused with DELETE_PENDING when the remove lock
      cannot be taken, otherwise handled with the lock held. Only REMOVE
      starts removal, no request keeps more than the one reference it took,
      and every change of PnP state is a step of the trace. */
  function FilterPnpDispatch(d: FilterDevice, m: Minor, stack: Stack): (o: FilterOutcome)
    ensures o.dev.lock.removing <==> d.lock.removing || m.RemoveDevice?
    ensures o.dev.lock.outstanding <= d.lock.outstanding + 1
    ensures o.dev.pnpState == d.pnpState || SetState(o.dev.pnpState) in o.trace
  {
    match Acquire(d.lock)
    case None => FilterOutcome(DeletePending, d, [CompleteIrp(DeletePending)])
    case Some(held) => HandlePnp(d.(lock := held), m, stack)
  }

  /** FilterPowerDispatch: the next power request may start on both paths. */
  function FilterPowerDispatch(lock: Lock, lower: Status): (r: Passed)
    ensures r.lock == lock
    ensures |r.trace| > 0 && r.trace[0] == StartNextPower
    ensures ForwardPower in r.trace <==> !lock.removing
  {
    match Acquire(lock)
    case None => Passed(DeletePending, lock, [StartNextPower, CompleteIrp(DeletePending)])
    case Some(held) => Passed(lower, Release(held), [StartNextPower, ForwardPower, ReleaseLock])
  }

  /** FilterReadDispatch: the read is sent down with a completion routine,
      which gives the lock back later (ReadComplete). */
  function FilterReadDispatch(lock: Lock, lower: Status): (r: Passed)
    ensures r.lock.removing == lock.removing
    ensures ForwardAsync in r.trace <==> !lock.removing
    ensures r.lock.outstanding == if lock.removing then lock.outstanding else lock.outstanding + 1
  {
    match Acquire(lock)
    case None => Passed(DeletePending, lock, [CompleteIrp(DeletePending)])
    case Some(held) => Passed(lower, held, [ForwardAsync])
  }

  /** ReadComplete: gives back the lock the read took and lets the read
      finish with success. The buffer dump it does is not modelled. */
  function ReadComplete(lock: Lock): (r: Passed)
    requires lock.outstanding > 0
    ensures r.lock.outstanding + 1 == lock.outstanding && r.lock.removing == lock.removing
    ensures r.status == Success
  {
    Passed(Success, Release(lock), [ReleaseLock])
  }

  // ---- properties ------------------------------------------------------

  /** A PnP request is refused, with DELETE_PENDING and nothing changed,
      exactly when removal has begun. */
  lemma PnpRefusal(d: FilterDevice, m: Minor, stack: Stack)
    ensures var o := FilterPnpDispatch(d, m, stack);
            (d.lock.removing <==> o.trace == [CompleteIrp(DeletePending)]) &&
            (d.lock.removing ==> o.status == DeletePending && o.dev == d)
  {
  }

  /** START goes down first and waits; the state becomes Started only when
      the devices below started, and a removable-media lower device makes
      the filter removable too. A failed start changes nothing. */
  lemma StartRule(d: FilterDevice, stack: Stack)
    requires !d.lock.removing
    ensures var o := FilterPnpDispatch(d, StartDevice, stack);
            o.status == stack.lower && o.trace[0] == ForwardSync &&
            (o.dev.pnpState == Started <==> NtSuccess(stack.lower) || d.pnpState == Started) &&
            (NtSuccess(stack.lower) ==> o.dev.removableMedia == (d.removableMedia || stack.lowerRemovable)) &&
            (!NtSuccess(stack.lower) ==> o.dev == d)
  {
    AcquireRelease(d.lock);
  }

  /** QUERY_STOP and QUERY_REMOVE save the current state and move to the
      matching pending state before sending the request down. */
  lemma QuerySavesState(d: FilterDevice, m: Minor, stack: Stack)
    requires !d.lock.removing && (m.QueryStopDevice? || m.QueryRemoveDevice?)
    ensures var o := FilterPnpDispatch(d, m, stack);
            o.dev.previousPnpState == d.pnpState &&
            o.dev.pnpState == (if m.QueryStopDevice? then StopPending else RemovePending) &&
            o.dev.lock == d.lock && o.status == stack.lower &&
            o.trace == [SetState(o.dev.pnpState), ForwardAsync, ReleaseLock]
  {
    AcquireRelease(d.lock);
  }

  /** CANCEL_STOP and CANCEL_REMOVE: in the matching pending state the
      request is sent down and waited for, and a successful cancel restores
      the saved state; in any other state it is only forwarded and nothing
      changes. */
  lemma CancelRule(d: FilterDevice, m: Minor, stack: Stack)
    requires !d.lock.removing && (m.CancelStopDevice? || m.CancelRemoveDevice?)
    ensures var o := FilterPnpDispatch(d, m, stack);
            var pending := if m.CancelStopDevice? then StopPending else RemovePending;
            o.status == stack.lower && o.dev.lock == d.lock &&
            (d.pnpState == pending && NtSuccess(stack.lower) ==>
               o.dev == d.(pnpState := d.previousPnpState) && o.trace[0] == ForwardSync) &&
            (d.pnpState == pending && !NtSuccess(stack.lower) ==> o.dev == d) &&
            (d.pnpState != pending ==> o.dev == d && o.trace == [ForwardAsync, ReleaseLock])
  {
    AcquireRelease(d.lock);
  }

  /** A query answered by a successful cancel leaves the device in the state
      it was in before the query. */
  lemma QueryCancelRestores(d: FilterDevice, stop: bool, s1: Stack, s2: Stack)
    requires !d.lock.removing && NtSuccess(s2.lower)
    ensures var query := FilterPnpDispatch(d, if stop then QueryStopDevice else QueryRemoveDevice, s1);
            var cancel := FilterPnpDispatch(query.dev, if stop then CancelStopDevice else CancelRemoveDevice, s2);
            cancel.dev.pnpState == d.pnpState && cancel.dev.lock == d.lock
  {
    var m := if stop then QueryStopDevice else QueryRemoveDevice;
    QuerySavesState(d, m, s1);
    var query := FilterPnpDispatch(d, m, s1);
    CancelRule(query.dev, if stop then CancelStopDevice else CancelRemoveDevice, s2);
  }

  /** STOP, SURPRISE_REMOVAL and REMOVE set the state that ends their path
      whatever the device below answers. */
  lemma TerminalStates(d: FilterDevice, m: Minor, stack: Stack)
    requires !d.lock.removing && (m.StopDevice? || m.SurpriseRemoval? || m.RemoveDevice?)
    ensures var o := FilterPnpDispatch(d, m, stack);
            o.status == stack.lower &&
            o.dev.pnpState == (if m.StopDevice? then Stopped else if m.SurpriseRemoval? then SurpriseRemoved else Removed) &&
            o.trace[0] == SetState(o.dev.pnpState)
  {
  }

  /** REMOVE: the state is set, the lock given back, the in-flight requests
      drained, and only then is the request sent down, the device detached
      and deleted; the lock is left refusing every later request. */
  lemma RemoveOrder(d: FilterDevice, stack: Stack)
    requires !d.lock.removing
    ensures var o := FilterPnpDispatch(d, RemoveDevice, stack);
            o.trace == [SetState(Removed), ReleaseLock, WaitDrain, ForwardAsync, Detach, Delete] &&
            o.dev.pnpState == Removed && o.dev.lock.removing && o.dev.lock.outstanding == 0 &&
            o.dev.devcaps == d.devcaps
  {
  }

  /** After REMOVE every further PnP request is refused with DELETE_PENDING
      and changes nothing. */
  lemma RemovedStaysRemoved(d: FilterDevice, s1: Stack, m: Minor, s2: Stack)
    requires !d.lock.removing
    ensures var gone := FilterPnpDispatch(d, RemoveDevice, s1).dev;
            FilterPnpDispatch(gone, m, s2) == FilterOutcome(DeletePending, gone, [CompleteIrp(DeletePending)])
  {
    RemoveOrder(d, s1);
  }

  /** QUERY_CAPABILITIES: an old-version record is passed down untouched;
      otherwise the request is sent down and waited for, and the filled-in
      capabilities are kept only when the devices below succeeded. */
  lemma CapsCaching(d: FilterDevice, version: nat, stack: Stack)
    requires !d.lock.removing
    ensures var o := FilterPnpDispatch(d, QueryCapabilities(version), stack);
            o.status == stack.lower && o.dev.pnpState == d.pnpState &&
            (version < 1 ==> o.dev.devcaps == d.devcaps && o.trace == [ForwardAsync]) &&
            (version >= 1 ==> o.dev.devcaps == (if NtSuccess(stack.lower) then stack.lowerCaps else d.devcaps) &&
                              o.trace == [ForwardSync, CompleteIrp(stack.lower)])
  {
  }

  /** The remove lock after a PnP request: given back on every path except
      QUERY_ID and QUERY_CAPABILITIES, which keep it, and REMOVE, which
      drains it. */
  lemma LockAccounting(d: FilterDevice, m: Minor, stack: Stack)
    requires !d.lock.removing
    ensures var o := FilterPnpDispatch(d, m, stack);
            o.dev.lock == (if m.QueryId? || m.QueryCapabilities? then d.lock.(outstanding := d.lock.outstanding + 1)
                           else if m.RemoveDevice? then Lock(0, true)
                           else d.lock)
  {
  }

  /** DEVICE_USAGE_NOTIFICATION: the filter is power-pageable afterwards
      exactly when the device below is and either nothing is attached above,
      the device above is, or the filter already was. */
  lemma UsagePagable(d: FilterDevice, stack: Stack)
    requires !d.lock.removing
    ensures var o := FilterPnpDispatch(d, DeviceUsageNotification, stack);
            (o.dev.powerPagable <==>
               stack.lowerPagable && (stack.attachedAbove.None? || stack.attachedAbove.value || d.powerPagable)) &&
            o.dev.pnpState == d.pnpState && o.status == stack.lower
  {
  }

  /** The power routine lets the next power request start on both paths,
      before anything else, and refuses exactly once removal has begun. */
  lemma PowerRule(lock: Lock, lower: Status)
    ensures var r := FilterPowerDispatch(lock, lower);
            r.trace[0] == StartNextPower && r.lock == lock &&
            (lock.removing <==> r.trace == [StartNextPower, CompleteIrp(DeletePending)]) &&
            (lock.removing ==> r.status == DeletePending) &&
            (!lock.removing ==> r.status == lower)
  {
    if !lock.removing {
      AcquireRelease(lock);
    }
  }

  /** A read keeps the lock until its completion routine runs, which gives
      it back; refused reads touch nothing. */
  lemma ReadBalanced(lock: Lock, lower: Status)
    ensures var r := FilterReadDispatch(lock, lower);
            (lock.removing ==> r == Passed(DeletePending, lock, [CompleteIrp(DeletePending)])) &&
            (!lock.removing ==> r.lock.outstanding == lock.outstanding + 1 && ReadComplete(r.lock).lock == lock)
  {
  }
}
