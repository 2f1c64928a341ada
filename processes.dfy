/** The running engine as the service controls it: its priority class, whether it was killed,
    and the snapshot of its threads with their suspend counts. The kernel's thread calls are
    modelled on that snapshot; `OpenThread` failing is the `openable` flag of a thread. */
module Processes {

  /** Win32's `MAXIMUM_SUSPEND_COUNT`: `SuspendThread` fails once a thread's count reaches it. */
  const MaximumSuspendCount: nat := 127

  /** A thread of the snapshot: whether it can be opened for suspend and resume, and its
      suspend count (the thread runs when the count is 0). */
  datatype ThreadRecord = ThreadRecord(openable: bool, suspendCount: nat)

  datatype PriorityClass = Idle | BelowNormal | Normal | AboveNormal | High | RealTime

  /** The enum member's name as `ToString()` writes it. */
  function PriorityName(p: PriorityClass): string {
    match p
    case Idle => "Idle"
    case BelowNormal => "BelowNormal"
    case Normal => "Normal"
    case AboveNormal => "AboveNormal"
    case High => "High"
    case RealTime => "RealTime"
  }

  /** The thread after one pass of `SuspendProcess`: an openable thread's count goes up by one
      unless it is already at the maximum. */
  function Suspended(t: ThreadRecord): ThreadRecord {
    if t.openable && t.suspendCount < MaximumSuspendCount then t.(suspendCount := t.suspendCount + 1) else t
  }

  /** The thread after one pass of `ResumeProcess`: an openable thread runs again. */
  function Resumed(t: ThreadRecord): ThreadRecord {
    if t.openable then t.(suspendCount := 0) else t
  }

  /** The thread after `n` passes of `SuspendProcess`. */
  function SuspendedTimes(t: ThreadRecord, n: nat): ThreadRecord {
    if n == 0 then t else Suspended(SuspendedTimes(t, n - 1))
  }

  function SuspendAll(ts: seq<ThreadRecord>): (r: seq<ThreadRecord>)
    ensures |r| == |ts| && forall k :: 0 <= k < |ts| ==> r[k] == Suspended(ts[k])
  {
    seq(|ts|, k requires 0 <= k < |ts| => Suspended(ts[k]))
  }

  function ResumeAll(ts: seq<ThreadRecord>): (r: seq<ThreadRecord>)
    ensures |r| == |ts| && forall k :: 0 <= k < |ts| ==> r[k] == Resumed(ts[k])
  {
    seq(|ts|, k requires 0 <= k < |ts| => Resumed(ts[k]))
  }

  /** `n` pauses raise an openable thread's count by `n`, up to the maximum, and leave every
      other thread alone. */
  lemma {:induction false} SuspendedTimesCount(t: ThreadRecord, n: nat)
    ensures SuspendedTimes(t, n).openable == t.openable
    ensures !t.openable ==> SuspendedTimes(t, n) == t
    ensures t.openable && t.suspendCount + n <= MaximumSuspendCount ==>
              SuspendedTimes(t, n).suspendCount == t.suspendCount + n
    ensures t.openable && t.suspendCount <= MaximumSuspendCount < t.suspendCount + n ==>
              SuspendedTimes(t, n).suspendCount == MaximumSuspendCount
    ensures t.suspendCount > MaximumSuspendCount ==> SuspendedTimes(t, n) == t
  {
    if n > 0 {
      SuspendedTimesCount(t, n - 1);
    }
  }

  /** Resuming undoes any number of pauses: afterwards the thread is where a single resume would
      have left it, and an openable thread runs. */
  lemma ResumeUndoesSuspends(t: ThreadRecord, n: nat)
    ensures Resumed(SuspendedTimes(t, n)) == Resumed(t)
    ensures t.openable ==> Resumed(SuspendedTimes(t, n)).suspendCount == 0
  {
    SuspendedTimesCount(t, n);
  }

  /** The snapshot after `n` calls of `SuspendProcess`. */
  function SuspendAllTimes(ts: seq<ThreadRecord>, n: nat): seq<ThreadRecord> {
    if n == 0 then ts else SuspendAll(SuspendAllTimes(ts, n - 1))
  }

  /** `n` calls of `SuspendProcess` act on each thread on its own, as `n` passes over it. */
  lemma {:induction false} SuspendAllTimesEach(ts: seq<ThreadRecord>, n: nat)
    ensures |SuspendAllTimes(ts, n)| == |ts|
    ensures forall k :: 0 <= k < |ts| ==> SuspendAllTimes(ts, n)[k] == SuspendedTimes(ts[k], n)
  {
    if n > 0 {
      SuspendAllTimesEach(ts, n - 1);
    }
  }

  /** One `ResumeProcess` after any number of `SuspendProcess` calls leaves the snapshot as a
      single resume would have, and every thread that can be opened runs again. */
  lemma ResumeUndoesPauses(ts: seq<ThreadRecord>, n: nat)
    ensures ResumeAll(SuspendAllTimes(ts, n)) == ResumeAll(ts)
    ensures forall k :: 0 <= k < |ts| && ts[k].openable ==> ResumeAll(SuspendAllTimes(ts, n))[k].suspendCount == 0
  {
    SuspendAllTimesEach(ts, n);
    forall k | 0 <= k < |ts|
      ensures ResumeAll(SuspendAllTimes(ts, n))[k] == ResumeAll(ts)[k]
    {
      ResumeUndoesSuspends(ts[k], n);
    }
  }

  /** `SuspendThread` on an opened thread: the previous count, or -1 when the count is at the
      maximum and the call fails. */
  method SuspendThread(threads: array<ThreadRecord>, i: nat) returns (previous: int)
    requires i < threads.Length && threads[i].openable
    modifies threads
    ensures previous == if old(threads[i].suspendCount) < MaximumSuspendCount then old(threads[i].suspendCount) else -1
    ensures threads[..] == old(threads[..])[i := Suspended(old(threads[i]))]
  {
    var t := threads[i];
    if t.suspendCount < MaximumSuspendCount {
      previous := t.suspendCount;
    } else {
      previous := -1;
    }
    threads[i] := Suspended(t);
  }

  /** `ResumeThread` on an opened thread: the previous count, lowered by one when positive. */
  method ResumeThread(threads: array<ThreadRecord>, i: nat) returns (previous: int)
    requires i < threads.Length && threads[i].openable
    modifies threads
    ensures previous == old(threads[i].suspendCount)
    ensures threads[..] == old(threads[..])[i := old(threads[i]).(suspendCount := if previous > 0 then previous - 1 else 0)]
  {
    var t := threads[i];
    previous := t.suspendCount;
    threads[i] := t.(suspendCount := if previous > 0 then previous - 1 else 0);
  }

  /** An engine process the service started. Whether it has exited is decided by the
      environment; the service reads it, kills the process and sets its priority. */
  class EngineProcess {
    const name: string
    const threads: array<ThreadRecord>
    var hasExited: bool
    var killed: bool
    var priority: PriorityClass

    constructor (name: string, threads: array<ThreadRecord>, priority: PriorityClass)
      ensures this.name == name && this.threads == threads && this.priority == priority
      ensures !hasExited && !killed
    {
      this.name := name;
      this.threads := threads;
      this.priority := priority;
      hasExited := false;
      killed := false;
    }

    /** `Process.Kill()`. */
    method Kill()
      modifies this
      ensures killed && hasExited == old(hasExited) && priority == old(priority)
    {
      killed := true;
    }
  }
}
