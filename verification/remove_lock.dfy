/** The remove lock every dispatch routine takes before touching a device: a
    count of requests in flight and a flag raised when removal begins. The
    lock routines themselves live outside driver/Filter.c and driver/clone.c;
    this is the behaviour their callers rely on. */
module RemoveLock {
  import opened Common

  datatype Lock = Lock(outstanding: nat, removing: bool)

  /** Taking the lock fails once removal has begun; otherwise one more
      request is in flight. */
  function Acquire(l: Lock): (r: Option<Lock>)
    ensures r.None? <==> l.removing
    ensures r.Some? ==> r.value.outstanding == l.outstanding + 1 && !r.value.removing
  {
    if l.removing then None else Some(l.(outstanding := l.outstanding + 1))
  }

  /** Giving the lock back: the request that took it is no longer in
      flight. */
  function Release(l: Lock): (r: Lock)
    requires l.outstanding > 0
    ensures r.outstanding < l.outstanding && r.removing == l.removing
  {
    l.(outstanding := l.outstanding - 1)
  }

  /** The removal wait: raises the flag and returns once nothing is in
      flight. The wait itself (a blocking drain) is not modelled. */
  function WaitForSafeRemove(l: Lock): (r: Lock)
    ensures r.removing && r.outstanding == 0
  {
    Lock(0, true)
  }

  /** Taking and giving back the lock leaves it as it was. */
  lemma AcquireRelease(l: Lock)
    requires !l.removing
    ensures Acquire(l).Some? && Release(Acquire(l).value) == l
  {
  }
}
