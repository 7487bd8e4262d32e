// The two-thread uplink front end: the caller (eNB_fep_full_2thread) and the
// worker (fep_thread) share one mutex, one condition variable and the counter
// instance_cnt_fep. Every atomic step of either thread is one action, so the
// runs below are all the interleavings, with spurious wakeups.
module FepHandshake {
  import opened FrontEnd

  datatype Owner = Free | Caller | Worker

  datatype CallerPc =
    | Outside            // not in eNB_fep_full_2thread
    | Lock               // pthread_mutex_timedlock, taken as blocking
    | CheckBusy          // test of instance_cnt_fep==0, then ++
    | Busy               // "FEP thread busy" exit
    | Signal             // pthread_cond_signal, mutex held
    | Unlock
    | Second(k: nat)     // fep0(eNB,1), k library calls made
    | BusyLock           // wait_on_busy_condition from here on
    | BusyTest
    | BusyWaiting        // in pthread_cond_wait, mutex released
    | BusyRelock         // woken, to take the mutex again
    | BusyUnlock

  datatype WorkerPc =
    | WaitLock           // wait_on_condition
    | WaitTest
    | Waiting
    | Relock
    | WaitUnlock
    | First(k: nat)      // fep0(eNB,0), k library calls made
    | ReleaseLock        // release_thread
    | Decrement
    | ReleaseUnlock
    | DoneSignal         // pthread_cond_signal, mutex not held

  datatype Action =
    | Call(sf: nat)      // the environment enters a call for subframe sf
    | CallerStep
    | WorkerStep
    | SpuriousCaller     // pthread_cond_wait may return without a signal
    | SpuriousWorker

  datatype State = State(mutex: Owner, cnt: int, caller: CallerPc, worker: WorkerPc, subframeRx: nat, log: seq<Event>)

  const Init := State(Free, -1, Outside, WaitLock, 0, [])

  predicate Enabled(s: State, a: Action) {
    match a
    case Call(_) => s.caller == Outside
    case CallerStep =>
      match s.caller {
        case Outside => false
        case Busy => false
        case BusyWaiting => false
        case Lock => s.mutex == Free
        case BusyLock => s.mutex == Free
        case BusyRelock => s.mutex == Free
        case _ => true
      }
    case WorkerStep =>
      match s.worker {
        case Waiting => false
        case WaitLock => s.mutex == Free
        case Relock => s.mutex == Free
        case ReleaseLock => s.mutex == Free
        case _ => true
      }
    case SpuriousCaller => s.caller == BusyWaiting
    case SpuriousWorker => s.worker == Waiting
  }

  // fep0 at its k-th library call reads subframe_rx afresh.
  function Fep0Call(s: State, slot: nat, k: nat): Event {
    WorkItem(slot % 2 + 2 * s.subframeRx, k)
  }

  function CallerNext(half: nat, s: State): State
    requires Enabled(s, CallerStep)
  {
    match s.caller
    case Lock => s.(mutex := Caller, caller := CheckBusy)
    case CheckBusy =>
      if s.cnt == 0 then s.(mutex := Free, caller := Busy)
      else s.(cnt := s.cnt + 1, caller := Signal)
    case Signal =>
      s.(caller := Unlock, worker := if s.worker == Waiting then Relock else s.worker)
    case Unlock => s.(mutex := Free, caller := Second(0))
    case Second(k) =>
      if k <= half then s.(log := s.log + [Fep0Call(s, 1, k)], caller := Second(k + 1))
      else s.(caller := BusyLock)
    case BusyLock => s.(mutex := Caller, caller := BusyTest)
    case BusyTest =>
      if s.cnt == 0 then s.(mutex := Free, caller := BusyWaiting)
      else s.(caller := BusyUnlock)
    case BusyRelock => s.(mutex := Caller, caller := BusyTest)
    case BusyUnlock => s.(mutex := Free, caller := Outside)
  }

  function WorkerNext(half: nat, s: State): State
    requires Enabled(s, WorkerStep)
  {
    match s.worker
    case WaitLock => s.(mutex := Worker, worker := WaitTest)
    case WaitTest =>
      if s.cnt < 0 then s.(mutex := Free, worker := Waiting)
      else s.(worker := WaitUnlock)
    case Relock => s.(mutex := Worker, worker := WaitTest)
    case WaitUnlock => s.(mutex := Free, worker := First(0))
    case First(k) =>
      if k <= half then s.(log := s.log + [Fep0Call(s, 0, k)], worker := First(k + 1))
      else s.(worker := ReleaseLock)
    case ReleaseLock => s.(mutex := Worker, worker := Decrement)
    case Decrement => s.(cnt := s.cnt - 1, worker := ReleaseUnlock)
    case ReleaseUnlock => s.(mutex := Free, worker := DoneSignal)
    case DoneSignal =>
      s.(worker := WaitLock, caller := if s.caller == BusyWaiting then BusyRelock else s.caller)
  }

  // The log is the log of the current or last call: entering a call empties it.
  function Next(half: nat, s: State, a: Action): State
    requires Enabled(s, a)
  {
    match a
    case Call(sf) => s.(caller := Lock, subframeRx := sf, log := [])
    case CallerStep => CallerNext(half, s)
    case WorkerStep => WorkerNext(half, s)
    case SpuriousCaller => s.(caller := BusyRelock)
    case SpuriousWorker => s.(worker := Relock)
  }

  // A run: each action enabled where it is taken.
  ghost predicate IsRun(half: nat, s: State, acts: seq<Action>)
    decreases |acts|
  {
    acts == [] || (Enabled(s, acts[0]) && IsRun(half, Next(half, s, acts[0]), acts[1..]))
  }

  function Last(half: nat, s: State, acts: seq<Action>): State
    requires IsRun(half, s, acts)
    decreases |acts|
  {
    if acts == [] then s else Last(half, Next(half, s, acts[0]), acts[1..])
  }

  // ----- The invariant -----

  predicate CallerHolds(pc: CallerPc) {
    pc in {CheckBusy, Signal, Unlock, BusyTest, BusyUnlock}
  }

  predicate WorkerHolds(pc: WorkerPc) {
    pc in {WaitTest, WaitUnlock, Decrement, ReleaseUnlock}
  }

  // The caller has handed the job over and has not yet seen it finished.
  predicate Handed(pc: CallerPc) {
    pc.Second? || pc in {BusyLock, BusyTest, BusyWaiting, BusyRelock}
  }

  // The worker has taken the job and not given it back.
  predicate Taken(pc: WorkerPc) {
    pc.First? || pc in {WaitUnlock, ReleaseLock, Decrement}
  }

  // Library calls made so far in this call, by each thread.
  function CallerDone(half: nat, pc: CallerPc): nat {
    match pc
    case Second(k) => k
    case BusyLock => half + 1
    case BusyTest => half + 1
    case BusyWaiting => half + 1
    case BusyRelock => half + 1
    case BusyUnlock => half + 1
    case Outside => half + 1
    case _ => 0
  }

  function WorkerDone(half: nat, s: State): nat {
    match s.worker
    case First(k) => k
    case ReleaseLock => half + 1
    case Decrement => half + 1
    case WaitUnlock => 0
    case _ => if s.cnt == -1 && (Handed(s.caller) || s.caller in {BusyUnlock, Outside}) then half + 1 else 0
  }

  // Who may be where.
  ghost predicate Control(half: nat, s: State) {
    && (CallerHolds(s.caller) <==> s.mutex == Caller)
    && (WorkerHolds(s.worker) <==> s.mutex == Worker)
    && (s.cnt == 0 || s.cnt == -1)
    && s.caller != Busy
    && (s.caller in {Outside, Lock, CheckBusy, BusyUnlock} ==> s.cnt == -1)
    && (s.caller in {Signal, Unlock} ==> s.cnt == 0)
    && (Taken(s.worker) ==> s.cnt == 0 && Handed(s.caller))
    && (s.worker == ReleaseUnlock ==> s.cnt == -1 && Handed(s.caller))
    && (s.caller.Second? ==> s.caller.k <= half + 1)
    && (s.worker.First? ==> s.worker.k <= half + 1)
  }

  // No wakeup is lost: a blocked thread whose condition holds is about to be signalled.
  ghost predicate NoLostWakeup(s: State) {
    && (s.worker == Waiting && s.cnt >= 0 ==> s.caller == Signal)
    && (s.caller == BusyWaiting && s.cnt != 0 ==> s.worker in {ReleaseUnlock, DoneSignal})
  }

  // What has been done for the current subframe, on each slot.
  ghost predicate Progress(half: nat, s: State) {
    BothSlots(s.log, 2 * s.subframeRx, WorkerDone(half, s), CallerDone(half, s.caller))
  }

  // `cur` is the subframe of the current or last call, negative before the first.
  ghost predicate Inv(half: nat, s: State, cur: int) {
    && Control(half, s)
    && NoLostWakeup(s)
    && (cur < 0 ==> s.caller == Outside)
    && (cur >= 0 ==> s.subframeRx == cur && Progress(half, s))
  }

  function Current(a: Action, cur: int): int {
    if a.Call? then a.sf else cur
  }

  function LastCalled(acts: seq<Action>, cur: int): int {
    if acts == [] then cur else LastCalled(acts[1..], Current(acts[0], cur))
  }

  // What one step does to the log and to the two counts.
  lemma StepWork(half: nat, s: State, a: Action)
    requires Control(half, s) && Enabled(s, a) && !a.Call?
    ensures
      var t := Next(half, s, a);
      var g, w, c := 2 * s.subframeRx, WorkerDone(half, s), CallerDone(half, s.caller);
      && t.subframeRx == s.subframeRx
      && (|| (t.log == s.log && WorkerDone(half, t) == w && CallerDone(half, t.caller) == c)
          || (t.log == s.log + [WorkItem(g, w)] && WorkerDone(half, t) == w + 1 && CallerDone(half, t.caller) == c)
          || (t.log == s.log + [WorkItem(g + 1, c)] && WorkerDone(half, t) == w && CallerDone(half, t.caller) == c + 1))
  {
  }

  lemma ControlKept(half: nat, s: State, a: Action)
    requires Control(half, s) && NoLostWakeup(s) && Enabled(s, a)
    ensures Control(half, Next(half, s, a)) && NoLostWakeup(Next(half, s, a))
  {
  }

  lemma ProgressKept(half: nat, s: State, a: Action)
    requires Control(half, s) && Enabled(s, a) && !a.Call?
    requires Progress(half, s)
    ensures Progress(half, Next(half, s, a))
  {
    var g, w, c := 2 * s.subframeRx, WorkerDone(half, s), CallerDone(half, s.caller);
    WorkAppend(s.log, g, w, c);
    assert BothSlots(s.log, g, w, c);
    StepWork(half, s, a);
  }

  lemma InvKept(half: nat, s: State, a: Action, cur: int)
    requires Inv(half, s, cur) && Enabled(s, a)
    ensures Inv(half, Next(half, s, a), Current(a, cur))
  {
    ControlKept(half, s, a);
    if a.Call? {
    } else if cur >= 0 {
      ProgressKept(half, s, a);
    }
  }

  lemma {:induction false} InvHolds(half: nat, s: State, acts: seq<Action>, cur: int)
    requires Inv(half, s, cur) && IsRun(half, s, acts)
    ensures Inv(half, Last(half, s, acts), LastCalled(acts, cur))
    decreases |acts|
  {
    if acts != [] {
      InvKept(half, s, acts[0], cur);
      InvHolds(half, Next(half, s, acts[0]), acts[1..], Current(acts[0], cur));
    }
  }

  // ----- Main results, for every run from thread creation -----

  // Once a call has returned, its log does exactly the subframe it was called
  // for: the same calls as the sequential front end, in the same order on each
  // slot, with no call made for another subframe.
  lemma ReturnedCallDidItsSubframe(half: nat, acts: seq<Action>)
    requires IsRun(half, Init, acts)
    requires Last(half, Init, acts).caller == Outside && LastCalled(acts, -1) >= 0
    ensures DoesSubframe(Last(half, Init, acts).log, half, LastCalled(acts, -1))
    ensures OnceInOrder(Last(half, Init, acts).log, half, LastCalled(acts, -1))
  {
    InvHolds(half, Init, acts, -1);
    SubframeMeans(Last(half, Init, acts).log, half, LastCalled(acts, -1));
  }

  // So it leaves the sample buffers as any log of eNB_fep_full would.
  lemma RefinesSequential<S>(half: nat, acts: seq<Action>, sem: (Event, S) -> S, sequential: seq<Event>, buffers: map<nat, S>)
    requires IsRun(half, Init, acts)
    requires Last(half, Init, acts).caller == Outside && LastCalled(acts, -1) >= 0
    requires DoesSubframe(sequential, half, LastCalled(acts, -1))
    ensures Replay(sem, Last(half, Init, acts).log, buffers) == Replay(sem, sequential, buffers)
  {
    ReturnedCallDidItsSubframe(half, acts);
    SameSubframeSameBuffers(sem, Last(half, Init, acts).log, sequential, half, LastCalled(acts, -1), buffers);
  }

  // At any moment of any run: the counter is -1 or 0, the "busy" exit is not
  // taken, the calls made so far are all on the current call's two slots, and a
  // thread blocked on the condition either waits for the other to act or has a
  // signal on its way.
  lemma SafeThroughout(half: nat, acts: seq<Action>)
    requires IsRun(half, Init, acts)
    ensures
      var s := Last(half, Init, acts);
      && (s.cnt == -1 || s.cnt == 0)
      && s.caller != Busy
      && (LastCalled(acts, -1) >= 0 ==>
            forall e :: e in s.log ==> e.slot / 2 == LastCalled(acts, -1))
      && (s.worker == Waiting && s.cnt >= 0 ==> s.caller == Signal)
      && (s.caller == BusyWaiting && s.cnt != 0 ==> s.worker in {ReleaseUnlock, DoneSignal})
  {
    InvHolds(half, Init, acts, -1);
  }

  // No deadlock: inside a call, some thread can take a step that is not a
  // spurious wakeup.
  lemma NoDeadlock(half: nat, acts: seq<Action>)
    requires IsRun(half, Init, acts)
    ensures
      var s := Last(half, Init, acts);
      s.caller != Outside ==> Enabled(s, CallerStep) || Enabled(s, WorkerStep)
  {
    InvHolds(half, Init, acts, -1);
  }

  // ----- Every call ends -----

  // Steps that are certain to be left before both threads rest, were no
  // further wakeup spurious.
  function CallerRank(half: nat, pc: CallerPc): nat {
    match pc
    case Outside => 0
    case Busy => 0
    case BusyUnlock => 1
    case BusyWaiting => 2
    case BusyTest => 3
    case BusyRelock => 4
    case BusyLock => 4
    case Second(k) => 5 + if k <= half then half + 1 - k else 0
    case Unlock => half + 7
    case Signal => half + 10
    case CheckBusy => 2 * half + 22
    case Lock => 2 * half + 23
  }

  function WorkerRank(half: nat, pc: WorkerPc): nat {
    match pc
    case Waiting => 0
    case WaitTest => 1
    case Relock => 2
    case WaitLock => 2
    case DoneSignal => 5
    case ReleaseUnlock => 6
    case Decrement => 7
    case ReleaseLock => 8
    case First(k) => 9 + if k <= half then half + 1 - k else 0
    case WaitUnlock => half + 11
  }

  function Work(half: nat, s: State): nat {
    CallerRank(half, s.caller) + WorkerRank(half, s.worker) +
    if s.cnt == 0 && !Taken(s.worker) then half + 11 else 0
  }

  function Spurious(acts: seq<Action>): nat {
    if acts == [] then 0
    else (if acts[0] in {SpuriousCaller, SpuriousWorker} then 1 else 0) + Spurious(acts[1..])
  }

  lemma WorkDrops(half: nat, s: State, a: Action)
    requires Control(half, s) && Enabled(s, a) && !a.Call?
    ensures Work(half, Next(half, s, a)) + 1 <= Work(half, s) + 3 * Spurious([a])
  {
  }

  lemma {:induction false} WorkBoundsRun(half: nat, s: State, acts: seq<Action>, cur: int)
    requires Inv(half, s, cur) && IsRun(half, s, acts)
    requires forall a :: a in acts ==> !a.Call?
    ensures |acts| + Work(half, Last(half, s, acts)) <= Work(half, s) + 3 * Spurious(acts)
    decreases |acts|
  {
    if acts != [] {
      WorkDrops(half, s, acts[0]);
      InvKept(half, s, acts[0], cur);
      WorkBoundsRun(half, Next(half, s, acts[0]), acts[1..], cur);
    }
  }

  // From the entry of any call in any run, both threads together take at most
  // 2*half + 28 steps, and three more for each spurious wakeup, until they rest
  // or the next call is made. With NoDeadlock, every call returns.
  lemma CallIsBounded(half: nat, before: seq<Action>, sf: nat, acts: seq<Action>)
    requires IsRun(half, Init, before)
    requires Last(half, Init, before).caller == Outside
    requires IsRun(half, Next(half, Last(half, Init, before), Call(sf)), acts)
    requires forall a :: a in acts ==> !a.Call?
    ensures |acts| <= 2 * half + 28 + 3 * Spurious(acts)
  {
    InvHolds(half, Init, before, -1);
    var s := Last(half, Init, before);
    InvKept(half, s, Call(sf), LastCalled(before, -1));
    WorkBoundsRun(half, Next(half, s, Call(sf)), acts, sf);
  }
}
