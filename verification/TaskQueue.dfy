/** The database task queue (src/databasetasks.cpp; src/thread_holder_base.h).

  One worker, any number of threads that add tasks, flush or shut down, one lock and one condition
  variable.  Every action below happens at once, between two points where the C++ code takes or
  gives up the lock, reads the state, or runs a task; any interleaving of actions is a run. */
module TaskQueue {

  import opened Wrappers

  type Task = nat

  datatype Mode = Running | Closing | Terminated

  datatype Thread = Worker | Other(i: nat)

  /** Where the worker is in `threadMain`. */
  datatype WorkerPc = AtTest | AtLock | Locked | Waiting | Woken | Taking | Busy(task: Task) | Finished

  /** Where another thread is: in `addTask`, in `flush`, or in `shutdown`, which flushes as well. */
  datatype Pc =
    | Idle
    | Add(task: Task) | Adding(task: Task) | Signal(signal: bool)
    | Flush(closing: bool) | Flushing(closing: bool) | FlushBusy(task: Task, closing: bool)
    | Shut | Shutting | ShutNotify | Closed

  /** The shared state, with the tasks accepted so far, and who popped and who ran which. */
  datatype State = State(
    mode: Mode, lock: Option<Thread>, tasks: seq<Task>, worker: WorkerPc, others: map<nat, Pc>,
    accepted: seq<Task>, popped: seq<(Thread, Task)>, executed: seq<(Thread, Task)>)

  datatype Action =
    | WTest | WLock | WLook | WWake | WRelock | WTake | WRun
    | CallAdd(i: nat, task: Task) | CallFlush(i: nat) | CallShutdown(i: nat)
    | TakeLock(i: nat) | Push(i: nat) | Notify(i: nat) | FlushTake(i: nat) | FlushRun(i: nat) | Terminate(i: nat)
    | Stop

  function Set(s: State, i: nat, pc: Pc): State {
    s.(others := s.others[i := pc])
  }

  /** The front task goes to thread `t`, and the lock is given up. */
  function Pop(s: State, t: Thread): State
    requires s.tasks != []
  {
    s.(tasks := s.tasks[1..], popped := s.popped + [(t, s.tasks[0])], lock := None)
  }

  /** `notify_one`: only the worker ever waits. */
  function Notified(s: State): State {
    if s.worker == Waiting then s.(worker := Woken) else s
  }

  /** The next state, if the action is possible. */
  function Next(s: State, a: Action): Option<State> {
    match a
    // threadMain
    case WTest => if s.worker == AtTest then Some(s.(worker := if s.mode == Terminated then Finished else AtLock)) else None
    case WLock => if s.worker == AtLock && s.lock == None then Some(s.(worker := Locked, lock := Some(Worker))) else None
    case WLook =>
      if s.worker == Locked then
        Some(if s.tasks == [] then s.(worker := Waiting, lock := None) else s.(worker := Taking))
      else None
    case WWake => if s.worker == Waiting then Some(s.(worker := Woken)) else None
    case WRelock => if s.worker == Woken && s.lock == None then Some(s.(worker := Taking, lock := Some(Worker))) else None
    case WTake =>
      if s.worker == Taking then
        Some(if s.tasks != [] then Pop(s, Worker).(worker := Busy(s.tasks[0])) else s.(worker := AtTest, lock := None))
      else None
    case WRun =>
      if s.worker.Busy? then Some(s.(worker := AtTest, executed := s.executed + [(Worker, s.worker.task)])) else None
    // calls by other threads
    case CallAdd(i, task) => if i in s.others && s.others[i] == Idle then Some(Set(s, i, Add(task))) else None
    case CallFlush(i) => if i in s.others && s.others[i] == Idle then Some(Set(s, i, Flush(false))) else None
    case CallShutdown(i) => if i in s.others && s.others[i] == Idle then Some(Set(s, i, Shut)) else None
    case TakeLock(i) =>
      if i !in s.others || s.lock != None then None
      else
        var t := s.(lock := Some(Other(i)));
        (match s.others[i]
         case Add(task) => Some(Set(t, i, Adding(task)))
         case Flush(closing) => Some(Set(t, i, Flushing(closing)))
         case Shut => Some(Set(t, i, Shutting))
         case _ => None)
    // addTask
    case Push(i) =>
      if i in s.others && s.others[i].Adding? then
        var t := s.(lock := None);
        if s.mode == Running then
          var task := s.others[i].task;
          Some(Set(t.(tasks := s.tasks + [task], accepted := s.accepted + [task]), i, Signal(s.tasks == [])))
        else Some(Set(t, i, Signal(false)))
      else None
    case Notify(i) =>
      if i !in s.others then None
      else if s.others[i].Signal? then Some(Set(if s.others[i].signal then Notified(s) else s, i, Idle))
      else if s.others[i] == ShutNotify then Some(Set(Notified(s), i, Closed))
      else None
    // flush
    case FlushTake(i) =>
      if i in s.others && s.others[i].Flushing? then
        var closing := s.others[i].closing;
        Some(if s.tasks != [] then Set(Pop(s, Other(i)), i, FlushBusy(s.tasks[0], closing))
             else Set(s.(lock := None), i, if closing then ShutNotify else Idle))
      else None
    case FlushRun(i) =>
      if i in s.others && s.others[i].FlushBusy? then
        Some(Set(s.(executed := s.executed + [(Other(i), s.others[i].task)]), i, Flush(s.others[i].closing)))
      else None
    // shutdown and stop
    case Terminate(i) =>
      if i in s.others && s.others[i] == Shutting then Some(Set(s.(mode := Terminated, lock := None), i, Flush(true)))
        else None
    case Stop => Some(s.(mode := Closing))
  }

  /** A run: every action must be possible when its turn comes. */
  function Run(s: State, acts: seq<Action>): Option<State>
    decreases |acts|
  {
    if acts == [] then Some(s) else
      match Next(s, acts[0])
      case None => None
      case Some(t) => Run(t, acts[1..])
  }

  /** After `start`: the worker is about to test the state, nobody else has called anything. */
  function Started(ids: set<nat>): State {
    State(Running, None, [], AtTest, map i | i in ids :: Idle, [], [], [])
  }

  // ---- what holds throughout --------------------------------------------------------------------

  function TasksOf(h: seq<(Thread, Task)>): seq<Task> {
    seq(|h|, i requires 0 <= i < |h| => h[i].1)
  }

  /** What one thread did, in order. */
  function By(h: seq<(Thread, Task)>, t: Thread): seq<Task> {
    if h == [] then [] else By(h[..|h| - 1], t) + (if h[|h| - 1].0 == t then [h[|h| - 1].1] else [])
  }

  /** The task that a thread has in hand. */
  function InHand(s: State, t: Thread): seq<Task> {
    match t
    case Worker => if s.worker.Busy? then [s.worker.task] else []
    case Other(i) => if i in s.others && s.others[i].FlushBusy? then [s.others[i].task] else []
  }

  /** The lock is held by exactly those who are between taking it and giving it up. */
  ghost predicate LockOk(s: State) {
    && (s.lock == Some(Worker) <==> s.worker == Locked || s.worker == Taking)
    && (s.lock.Some? && s.lock.value.Other? ==> s.lock.value.i in s.others)
    && (forall i :: i in s.others ==>
          (s.lock == Some(Other(i)) <==> s.others[i].Adding? || s.others[i].Flushing? || s.others[i] == Shutting))
  }

  /** Nothing is lost or doubled: the accepted tasks are those popped, in order, then those queued; and every
    thread has run exactly what it popped, in order, but for the task in its hand. */
  ghost predicate Conserved(s: State) {
    && s.accepted == TasksOf(s.popped) + s.tasks
    && forall t :: By(s.popped, t) == By(s.executed, t) + InHand(s, t)
  }

  /** If the worker waits while there is work, the thread that will wake it is under way. */
  ghost predicate WakeUpPending(s: State) {
    s.worker == Waiting && s.tasks != [] ==> exists i :: i in s.others && s.others[i] == Signal(true)
  }

  /** A thread past the lock of `shutdown`. */
  predicate ShuttingDown(pc: Pc) {
    match pc
    case Flush(closing) => closing
    case Flushing(closing) => closing
    case FlushBusy(_, closing) => closing
    case ShutNotify => true
    case Closed => true
    case _ => false
  }

  /** No task is accepted once somebody shuts down; once somebody has shut down the queue is empty. */
  ghost predicate ShutOk(s: State) {
    && (forall i :: i in s.others && ShuttingDown(s.others[i]) ==> s.mode != Running)
    && (forall i :: i in s.others && (s.others[i] == ShutNotify || s.others[i] == Closed) ==> s.tasks == [])
  }

  ghost predicate Invariant(s: State) {
    LockOk(s) && Conserved(s) && WakeUpPending(s) && ShutOk(s)
  }

  lemma {:induction false} ByMore(h: seq<(Thread, Task)>, e: (Thread, Task), t: Thread)
    ensures By(h + [e], t) == By(h, t) + (if e.0 == t then [e.1] else [])
  {
    assert (h + [e])[..|h|] == h;
  }

  lemma {:induction false} LockKept(s: State, a: Action)
    requires LockOk(s) && Next(s, a).Some?
    ensures LockOk(Next(s, a).value)
  {
    OthersLockKept(s, a);
    hide TasksOf, By;
    var v := Next(s, a).value;
    assert v.lock == Some(Worker) <==> v.worker == Locked || v.worker == Taking;
  }

  /** What the worker does. */
  predicate ByWorker(a: Action) {
    a == WTest || a == WLock || a == WLook || a == WWake || a == WRelock || a == WTake || a == WRun
  }

  ghost predicate OthersLockOk(s: State) {
    && (s.lock.Some? && s.lock.value.Other? ==> s.lock.value.i in s.others)
    && (forall i :: i in s.others ==>
          (s.lock == Some(Other(i)) <==> s.others[i].Adding? || s.others[i].Flushing? || s.others[i] == Shutting))
  }

  lemma {:induction false} OthersLockKept(s: State, a: Action)
    requires LockOk(s) && Next(s, a).Some?
    ensures OthersLockOk(Next(s, a).value)
  {
    if ByWorker(a) {
      WorkerKeepsLocks(s, a);
    } else {
      CallerKeepsLocks(s, a);
    }
    hide Next, LockOk;
  }

  lemma {:induction false} WorkerKeepsLocks(s: State, a: Action)
    requires LockOk(s) && Next(s, a).Some? && ByWorker(a)
    ensures OthersLockOk(Next(s, a).value)
  {
  }

  /** What another thread does with the lock in its hand, and what gives the lock up. */
  predicate Releases(a: Action) {
    a.Push? || a.FlushTake? || a.Terminate?
  }

  lemma {:induction false} CallerKeepsLocks(s: State, a: Action)
    requires LockOk(s) && Next(s, a).Some? && !ByWorker(a)
    ensures OthersLockOk(Next(s, a).value)
  {
    if Releases(a) {
      ReleaseKeepsLocks(s, a);
    } else if a.TakeLock? {
      TakeKeepsLocks(s, a.i);
    } else {
      RestKeepsLocks(s, a);
    }
    hide Next, LockOk;
  }

  lemma {:induction false} ReleaseKeepsLocks(s: State, a: Action)
    requires LockOk(s) && Next(s, a).Some? && Releases(a)
    ensures OthersLockOk(Next(s, a).value)
  {
  }

  lemma {:induction false} TakeKeepsLocks(s: State, i: nat)
    requires LockOk(s) && Next(s, TakeLock(i)).Some?
    ensures OthersLockOk(Next(s, TakeLock(i)).value)
  {
  }

  lemma {:induction false} RestKeepsLocks(s: State, a: Action)
    requires LockOk(s) && Next(s, a).Some? && !ByWorker(a) && !Releases(a) && !a.TakeLock?
    ensures OthersLockOk(Next(s, a).value)
  {
  }

  lemma {:induction false} OrderKept(s: State, a: Action)
    requires Conserved(s) && Next(s, a).Some?
    ensures var v := Next(s, a).value; v.accepted == TasksOf(v.popped) + v.tasks
  {
    hide By;
    var v := Next(s, a).value;
    if v.popped != s.popped {
      assert s.tasks == [s.tasks[0]] + s.tasks[1..];
      assert TasksOf(v.popped) == TasksOf(s.popped) + [s.tasks[0]];
    }
  }

  /** Histories grow by at most one entry: what was popped goes to a thread's hand, from which it is run. */
  lemma {:induction false} HistoryGrows(s: State, a: Action)
    requires Next(s, a).Some?
    ensures var v := Next(s, a).value;
      && (v.popped == s.popped || (exists t, task :: v.popped == s.popped + [(t, task)] && HandFilled(s, v, t, task)))
      && (v.executed == s.executed
          || (exists t, task :: v.executed == s.executed + [(t, task)] && HandFilled(v, s, t, task)))
      && (v.popped == s.popped || v.executed == s.executed)
      && (v.popped == s.popped && v.executed == s.executed ==> SameHands(s, v))
  {
    var v := Next(s, a).value;
    if a == WTake && s.tasks != [] {
      assert HandFilled(s, v, Worker, s.tasks[0]);
    } else if a.FlushTake? && s.tasks != [] {
      assert HandFilled(s, v, Other(a.i), s.tasks[0]);
    } else if a == WRun {
      assert HandFilled(v, s, Worker, s.worker.task);
    } else if a.FlushRun? {
      assert HandFilled(v, s, Other(a.i), s.others[a.i].task);
    } else {
      HandsStay(s, a);
    }
    hide Next, InHand, HandFilled, SameHands;
  }

  lemma {:induction false} HandsStay(s: State, a: Action)
    requires Next(s, a).Some? && a != WRun && !a.FlushRun? && ((a == WTake || a.FlushTake?) ==> s.tasks == [])
    ensures var v := Next(s, a).value; v.popped == s.popped && v.executed == s.executed && SameHands(s, v)
  {
    if ByWorker(a) {
      WorkerHandsStay(s, a);
    } else {
      CallerHandsStay(s, a);
    }
    hide Next, SameHands;
  }

  lemma {:induction false} WorkerHandsStay(s: State, a: Action)
    requires Next(s, a).Some? && ByWorker(a) && a != WRun && (a == WTake ==> s.tasks == [])
    ensures var v := Next(s, a).value; v.popped == s.popped && v.executed == s.executed && SameHands(s, v)
  {
  }

  lemma {:induction false} CallerHandsStay(s: State, a: Action)
    requires Next(s, a).Some? && !ByWorker(a) && !a.FlushRun? && (a.FlushTake? ==> s.tasks == [])
    ensures var v := Next(s, a).value; v.popped == s.popped && v.executed == s.executed && SameHands(s, v)
  {
  }

  /** Thread `t` has nothing in hand in `s` and the task in `v`; all others have the same. */
  ghost predicate HandFilled(s: State, v: State, t: Thread, task: Task) {
    InHand(s, t) == [] && InHand(v, t) == [task] && forall u :: u != t ==> InHand(s, u) == InHand(v, u)
  }

  ghost predicate SameHands(s: State, v: State) {
    forall u :: InHand(s, u) == InHand(v, u)
  }

  lemma {:induction false} HandsKept(s: State, a: Action, t: Thread)
    requires Conserved(s) && Next(s, a).Some?
    ensures var v := Next(s, a).value; By(v.popped, t) == By(v.executed, t) + InHand(v, t)
  {
    HistoryGrows(s, a);
    hide Next, By, TasksOf, InHand, HandFilled;
    var v := Next(s, a).value;
    assert By(s.popped, t) == By(s.executed, t) + InHand(s, t);
    if v.popped != s.popped {
      var u, task :| v.popped == s.popped + [(u, task)] && HandFilled(s, v, u, task);
      ByMore(s.popped, (u, task), t);
      HandOf(s, v, u, task, t);
      HandTaken(By(s.executed, t), InHand(s, t), InHand(v, t), task, t == u);
    } else if v.executed != s.executed {
      var u, task :| v.executed == s.executed + [(u, task)] && HandFilled(v, s, u, task);
      ByMore(s.executed, (u, task), t);
      HandOf(v, s, u, task, t);
      HandTaken(By(s.executed, t), InHand(v, t), InHand(s, t), task, t == u);
    }
  }

  lemma {:induction false} HandOf(s: State, v: State, u: Thread, task: Task, t: Thread)
    requires HandFilled(s, v, u, task)
    ensures if t == u then InHand(s, t) == [] && InHand(v, t) == [task] else InHand(v, t) == InHand(s, t)
  {
  }

  lemma {:induction false} HandTaken(done: seq<Task>, empty: seq<Task>, full: seq<Task>, task: Task, own: bool)
    requires if own then empty == [] && full == [task] else empty == full
    ensures done + empty + (if own then [task] else []) == done + full
    ensures done + (if own then [task] else []) + empty == done + full
  {
  }

  lemma {:induction false} WakeUpKept(s: State, a: Action)
    requires WakeUpPending(s) && LockOk(s) && Next(s, a).Some?
    ensures WakeUpPending(Next(s, a).value)
  {
    var v := Next(s, a).value;
    if s.worker == Waiting && v.worker == Waiting && v.tasks != [] {
      if s.tasks == [] {
        assert a.Push? && v.others[a.i] == Signal(true);
      } else {
        var i :| i in s.others && s.others[i] == Signal(true);
        assert v.others[i] == Signal(true);
      }
    }
  }

  lemma {:induction false} ShutKept(s: State, a: Action)
    requires ShutOk(s) && Next(s, a).Some?
    ensures ShutOk(Next(s, a).value)
  {
    if ByWorker(a) {
      WorkerKeepsShut(s, a);
    } else {
      CallerKeepsShut(s, a);
    }
    hide Next, ShutOk;
  }

  lemma {:induction false} WorkerKeepsShut(s: State, a: Action)
    requires ShutOk(s) && Next(s, a).Some? && ByWorker(a)
    ensures ShutOk(Next(s, a).value)
  {
  }

  lemma {:induction false} CallerKeepsShut(s: State, a: Action)
    requires ShutOk(s) && Next(s, a).Some? && !ByWorker(a)
    ensures ShutOk(Next(s, a).value)
  {
    hide TasksOf, By;
  }

  /** Every action of any thread keeps the invariant. */
  lemma {:induction false} StepKeeps(s: State, a: Action)
    requires Invariant(s) && Next(s, a).Some?
    ensures Invariant(Next(s, a).value)
  {
    LockKept(s, a);
    OrderKept(s, a);
    forall t
      ensures By(Next(s, a).value.popped, t) == By(Next(s, a).value.executed, t) + InHand(Next(s, a).value, t)
    {
      HandsKept(s, a, t);
    }
    WakeUpKept(s, a);
    ShutKept(s, a);
    hide Next, LockOk, WakeUpPending, ShutOk;
  }

  /** The invariant holds after every interleaving. */
  lemma {:induction false} RunKeeps(s: State, acts: seq<Action>)
    requires Invariant(s) && Run(s, acts).Some?
    ensures Invariant(Run(s, acts).value)
    decreases |acts|
  {
    hide Invariant, Next;
    if acts != [] {
      StepKeeps(s, acts[0]);
      RunKeeps(Next(s, acts[0]).value, acts[1..]);
    }
  }

  /** Popping follows acceptance, and each accepted task is popped at most once, by one thread: after any run
    the popped tasks are a prefix of the accepted ones, and the rest is still queued. */
  lemma {:induction false} PopsFollowAcceptance(ids: set<nat>, acts: seq<Action>)
    requires Run(Started(ids), acts).Some?
    ensures var s := Run(Started(ids), acts).value;
      Invariant(s) && TasksOf(s.popped) <= s.accepted && s.tasks == s.accepted[|s.popped|..]
  {
    RunKeeps(Started(ids), acts);
  }

  // ---- what is accepted -------------------------------------------------------------------------

  /** The task with which thread `i` has last called `addTask`. */
  function TaskOf(acts: seq<Action>, i: nat): Option<Task>
    decreases |acts|
  {
    if acts == [] then None else
      var a := acts[|acts| - 1];
      if a.CallAdd? && a.i == i then Some(a.task) else TaskOf(acts[..|acts| - 1], i)
  }

  /** The tasks that are pushed in a run, in order; with `running`, only those pushed while the queue is running. */
  function Pushes(acts: seq<Action>, running: bool): seq<Task>
    decreases |acts|
  {
    if acts == [] then [] else
      var a, before := acts[|acts| - 1], acts[..|acts| - 1];
      Pushes(before, running) +
        if a.Push? && TaskOf(before, a.i).Some? && (running ==> ModeAfter(Running, before) == Running)
        then [TaskOf(before, a.i).value] else []
  }

  lemma {:induction false} RunLast(s: State, acts: seq<Action>)
    requires acts != [] && Run(s, acts).Some?
    ensures var before := acts[..|acts| - 1];
      Run(s, before).Some? && Run(s, acts) == Next(Run(s, before).value, acts[|acts| - 1])
    decreases |acts|
  {
    hide Next;
    var last := |acts| - 1;
    if last == 0 {
      assert acts == [acts[0]] && acts[1..] == [];
      assert Run(s, acts) == match Next(s, acts[0]) case None => None case Some(t) => Run(t, []);
    } else {
      var t := Next(s, acts[0]).value;
      RunLast(t, acts[1..]);
      assert acts[1..][..last - 1] == acts[..last][1..] && acts[1..][last - 1] == acts[last];
    }
  }

  /** A thread that has a task to add has called `addTask` with it, and with no other since. */
  ghost predicate HandsOk(s: State, acts: seq<Action>) {
    forall i :: i in s.others ==>
      (s.others[i].Add? || s.others[i].Adding? ==> TaskOf(acts, i) == Some(s.others[i].task))
  }

  lemma {:induction false} HandsOkNext(s: State, acts: seq<Action>, a: Action)
    requires HandsOk(s, acts) && Next(s, a).Some?
    ensures HandsOk(Next(s, a).value, acts + [a])
  {
    var all, v := acts + [a], Next(s, a).value;
    assert all[|all| - 1] == a && all[..|all| - 1] == acts;
    forall i | i in v.others && (v.others[i].Add? || v.others[i].Adding?)
      ensures TaskOf(all, i) == Some(v.others[i].task)
    {
      AddsOnly(s, a, i);
      assert TaskOf(all, i) == if a.CallAdd? && a.i == i then Some(a.task) else TaskOf(acts, i);
    }
    hide Next;
  }

  /** How a thread comes to have a task to add. */
  lemma {:induction false} AddsOnly(s: State, a: Action, i: nat)
    requires Next(s, a).Some? && i in Next(s, a).value.others
    requires Next(s, a).value.others[i].Add? || Next(s, a).value.others[i].Adding?
    ensures var pc := Next(s, a).value.others[i];
      if a.CallAdd? && a.i == i then pc.task == a.task
      else i in s.others && (s.others[i].Add? || s.others[i].Adding?) && s.others[i].task == pc.task
  {
  }

  /** What one action adds to the accepted tasks: the task of the thread that pushes, while the queue is running. */
  lemma {:induction false} AcceptedNext(s: State, a: Action)
    requires Next(s, a).Some?
    ensures a.Push? ==> a.i in s.others && s.others[a.i].Adding?
    ensures Next(s, a).value.accepted ==
      s.accepted + if a.Push? && s.mode == Running then [s.others[a.i].task] else []
  {
  }

  /** In every run the accepted tasks are exactly those that were pushed while the queue was running, in this order; every
    push is of the task that its thread has called `addTask` with. */
  lemma {:induction false} AcceptedExactly(ids: set<nat>, acts: seq<Action>)
    requires Run(Started(ids), acts).Some?
    ensures Run(Started(ids), acts).value.accepted == Pushes(acts, true) && HandsOk(Run(Started(ids), acts).value, acts)
    ensures forall k :: 0 <= k < |acts| && acts[k].Push? ==> TaskOf(acts[..k], acts[k].i).Some?
    decreases |acts|
  {
    hide Next;
    if acts != [] {
      var last := |acts| - 1;
      var before, a := acts[..last], acts[last];
      RunLast(Started(ids), acts);
      AcceptedExactly(ids, before);
      var s := Run(Started(ids), before).value;
      assert acts == before + [a];
      HandsOkNext(s, before, a);
      AcceptedNext(s, a);
      ModeIsLast(Started(ids), before);
      forall k | 0 <= k < |acts| && acts[k].Push?
        ensures TaskOf(acts[..k], acts[k].i).Some?
      {
        if k < last { assert acts[k] == before[k] && acts[..k] == before[..k]; }
      }
      hide TaskOf, HandsOk, ModeAfter;
    }
  }

  lemma {:induction false} StaysRunning(acts: seq<Action>)
    requires forall k :: 0 <= k < |acts| ==> acts[k] != Stop && !acts[k].Terminate?
    ensures ModeAfter(Running, acts) == Running
  {
    if acts != [] { StaysRunning(acts[1..]); }
  }

  lemma {:induction false} AllPushes(acts: seq<Action>)
    requires forall k :: 0 <= k < |acts| ==> acts[k] != Stop && !acts[k].Terminate?
    ensures Pushes(acts, true) == Pushes(acts, false)
    decreases |acts|
  {
    if acts != [] {
      StaysRunning(acts[..|acts| - 1]);
      AllPushes(acts[..|acts| - 1]);
    }
  }

  /** As long as nobody calls `stop` and no `shutdown` has closed the queue, every task pushed has been popped or is still
    queued, in the order of the pushes. */
  lemma {:induction false} EveryPushIsKept(ids: set<nat>, acts: seq<Action>)
    requires Run(Started(ids), acts).Some? && forall k :: 0 <= k < |acts| ==> acts[k] != Stop && !acts[k].Terminate?
    ensures var s := Run(Started(ids), acts).value; TasksOf(s.popped) + s.tasks == Pushes(acts, false)
  {
    AcceptedExactly(ids, acts);
    AllPushes(acts);
    PopsFollowAcceptance(ids, acts);
    hide TasksOf, By, Pushes, HandsOk, TaskOf;
  }

  // ---- calls that go through --------------------------------------------------------------------

  lemma {:induction false} RunStep(s: State, acts: seq<Action>)
    requires acts != []
    ensures Run(s, acts) == match Next(s, acts[0]) case None => None case Some(t) => Run(t, acts[1..])
  {
  }

  /** An undisturbed `addTask`: a running queue takes the task, and a waiting worker is woken if the queue was empty; any
    other queue stays as it is. */
  lemma {:induction false} AddGoesThrough(s: State, i: nat, task: Task)
    requires i in s.others && s.others[i] == Idle && s.lock == None
    ensures Run(s, [CallAdd(i, task), TakeLock(i), Push(i), Notify(i)]) ==
      Some(if s.mode != Running then s
           else s.(tasks := s.tasks + [task], accepted := s.accepted + [task],
                   worker := if s.worker == Waiting && s.tasks == [] then Woken else s.worker))
  {
    var s1 := Set(s, i, Add(task));
    var s2 := Set(s1.(lock := Some(Other(i))), i, Adding(task));
    var s3 := Next(s2, Push(i)).value;
    RunStep(s, [CallAdd(i, task), TakeLock(i), Push(i), Notify(i)]);
    assert [CallAdd(i, task), TakeLock(i), Push(i), Notify(i)][1..] == [TakeLock(i), Push(i), Notify(i)];
    RunStep(s1, [TakeLock(i), Push(i), Notify(i)]);
    assert [TakeLock(i), Push(i), Notify(i)][1..] == [Push(i), Notify(i)];
    RunStep(s2, [Push(i), Notify(i)]);
    assert [Push(i), Notify(i)][1..] == [Notify(i)];
    RunStep(s3, [Notify(i)]);
    assert s3.others[i := Idle] == s.others;
  }

  /** An undisturbed round of the worker: the front task is run. */
  lemma {:induction false} RoundGoesThrough(s: State)
    requires s.worker == AtTest && s.lock == None && s.mode != Terminated && s.tasks != []
    ensures Run(s, [WTest, WLock, WLook, WTake, WRun]) ==
      Some(s.(tasks := s.tasks[1..], popped := s.popped + [(Worker, s.tasks[0])],
              executed := s.executed + [(Worker, s.tasks[0])]))
  {
    var s1 := s.(worker := AtLock);
    var s2 := s.(worker := Locked, lock := Some(Worker));
    var s3 := s2.(worker := Taking);
    var s4 := Next(s3, WTake).value;
    assert [WTest, WLock, WLook, WTake, WRun][1..] == [WLock, WLook, WTake, WRun];
    RunStep(s, [WTest, WLock, WLook, WTake, WRun]);
    assert [WLock, WLook, WTake, WRun][1..] == [WLook, WTake, WRun];
    RunStep(s1, [WLock, WLook, WTake, WRun]);
    assert [WLook, WTake, WRun][1..] == [WTake, WRun];
    RunStep(s2, [WLook, WTake, WRun]);
    assert [WTake, WRun][1..] == [WRun];
    RunStep(s3, [WTake, WRun]);
    RunStep(s4, [WRun]);
  }

  /** An undisturbed turn of `flush`: the front task is run, or an empty queue ends the flush. */
  lemma {:induction false} FlushGoesThrough(s: State, i: nat, closing: bool)
    requires i in s.others && s.others[i] == Flush(closing) && s.lock == None
    ensures s.tasks != [] ==>
      Run(s, [TakeLock(i), FlushTake(i), FlushRun(i)]) ==
        Some(s.(tasks := s.tasks[1..], popped := s.popped + [(Other(i), s.tasks[0])],
                executed := s.executed + [(Other(i), s.tasks[0])]))
    ensures s.tasks == [] ==>
      Run(s, [TakeLock(i), FlushTake(i)]) == Some(Set(s, i, if closing then ShutNotify else Idle))
  {
    var s1 := Set(s.(lock := Some(Other(i))), i, Flushing(closing));
    var s2 := Next(s1, FlushTake(i)).value;
    assert [TakeLock(i), FlushTake(i)][1..] == [FlushTake(i)];
    RunStep(s, [TakeLock(i), FlushTake(i)]);
    RunStep(s1, [FlushTake(i)]);
    assert [TakeLock(i), FlushTake(i), FlushRun(i)][1..] == [FlushTake(i), FlushRun(i)];
    RunStep(s, [TakeLock(i), FlushTake(i), FlushRun(i)]);
    assert [FlushTake(i), FlushRun(i)][1..] == [FlushRun(i)];
    RunStep(s1, [FlushTake(i), FlushRun(i)]);
    RunStep(s2, [FlushRun(i)]);
    if s.tasks != [] {
      assert s2.others[i := Flush(closing)] == s.others;
    } else {
      assert s1.others[i := if closing then ShutNotify else Idle] == s.others[i := if closing then ShutNotify else Idle];
    }
  }

  /** Once the queue is closed and empty, no action of anybody fills it again. */
  lemma {:induction false} ClosedStaysEmpty(s: State, acts: seq<Action>)
    requires s.mode != Running && s.tasks == [] && Run(s, acts).Some?
    ensures var v := Run(s, acts).value; v.mode != Running && v.tasks == [] && v.accepted == s.accepted
    decreases |acts|
  {
    hide TasksOf, By;
    if acts != [] {
      ClosedStaysEmpty(Next(s, acts[0]).value, acts[1..]);
    }
  }

  /** When `shutdown` has returned somewhere, everything accepted has been popped, and that is final. */
  lemma {:induction false} ShutdownIsFinal(ids: set<nat>, acts: seq<Action>, i: nat, more: seq<Action>)
    requires Run(Started(ids), acts).Some?
    requires var s := Run(Started(ids), acts).value; i in s.others && s.others[i] == Closed && Run(s, more).Some?
    ensures var s, v := Run(Started(ids), acts).value, Run(Run(Started(ids), acts).value, more).value;
      TasksOf(s.popped) == s.accepted && v.tasks == [] && v.accepted == s.accepted
  {
    RunKeeps(Started(ids), acts);
    var s := Run(Started(ids), acts).value;
    ClosedStaysEmpty(s, more);
  }

  /** When nobody is in the middle of a task, everything popped has been run, by the thread that popped it. */
  lemma {:induction false} AllRun(s: State)
    requires Invariant(s) && !s.worker.Busy? && forall i :: i in s.others ==> !s.others[i].FlushBusy?
    ensures forall t :: By(s.popped, t) == By(s.executed, t)
  {
    forall t
      ensures By(s.popped, t) == By(s.executed, t)
    {
      assert InHand(s, t) == [];
      assert By(s.executed, t) + [] == By(s.executed, t);
    }
  }

  // ---- whether the worker misses the end --------------------------------------------------------

  /** The mode is set by the last call of `stop` or step of `shutdown`. */
  function ModeAfter(mode: Mode, acts: seq<Action>): Mode
    decreases |acts|
  {
    if acts == [] then mode else
      ModeAfter(if acts[0] == Stop then Closing else if acts[0].Terminate? then Terminated else mode, acts[1..])
  }

  lemma {:induction false} ModeIsLast(s: State, acts: seq<Action>)
    requires Run(s, acts).Some?
    ensures Run(s, acts).value.mode == ModeAfter(s.mode, acts)
    decreases |acts|
  {
    if acts != [] {
      var t := Next(s, acts[0]).value;
      assert t.mode == if acts[0] == Stop then Closing else if acts[0].Terminate? then Terminated else s.mode;
      hide Next;
      ModeIsLast(t, acts[1..]);
    }
  }

  /** The worker can get to this point; `stops` says whether `stop` may be called on the way. */
  ghost predicate CanBe(s: State, pc: WorkerPc, stops: bool) {
    exists acts :: (stops || Stop !in acts) && Run(s, acts).Some? && Run(s, acts).value.worker == pc
  }

  lemma {:induction false} CanBeNow(s: State)
    ensures CanBe(s, s.worker, false)
  {
    assert Run(s, []) == Some(s);
  }

  lemma {:induction false} CanBeAfter(s: State, a: Action, pc: WorkerPc, stops: bool)
    requires (stops || a != Stop) && Next(s, a).Some? && CanBe(Next(s, a).value, pc, stops)
    ensures CanBe(s, pc, stops)
  {
    var t := Next(s, a).value;
    var acts :| (stops || Stop !in acts) && Run(t, acts).Some? && Run(t, acts).value.worker == pc;
    assert ([a] + acts)[1..] == acts;
    assert Run(s, [a] + acts) == Run(t, acts);
  }

  /** A thread is about to terminate, with the lock in its hand. */
  ghost predicate SomeoneShuts(s: State) {
    exists i :: i in s.others && s.others[i] == Shutting
  }

  /** The thread that holds the lock can give it up at once, once the queue is closed and empty. */
  lemma {:induction false} LockIsGivenUp(s: State) returns (a: Action)
    requires LockOk(s) && s.mode != Running && s.tasks == [] && s.lock.Some? && s.lock.value.Other?
    ensures a != Stop && Next(s, a).Some?
    ensures var t := Next(s, a).value;
      && LockOk(t) && t.tasks == [] && t.lock == None && t.worker == s.worker && !SomeoneShuts(t)
      && t.mode == if SomeoneShuts(s) then Terminated else s.mode
  {
    var i := s.lock.value.i;
    a := if s.others[i].Adding? then Push(i) else if s.others[i].Flushing? then FlushTake(i) else Terminate(i);
    LockKept(s, a);
  }

  /** With the lock free it takes two steps to wait. */
  lemma {:induction false} WaitsNext(s: State)
    requires LockOk(s) && s.tasks == [] && (s.worker == Locked || (s.worker == AtLock && s.lock == None))
    ensures CanBe(s, Waiting, false)
    decreases s.worker == AtLock
  {
    if s.worker == AtLock {
      LockKept(s, WLock);
      WaitsNext(Next(s, WLock).value);
      CanBeAfter(s, WLock, Waiting, false);
    } else {
      CanBeNow(Next(s, WLook).value);
      CanBeAfter(s, WLook, Waiting, false);
    }
  }

  lemma {:induction false} CanWait(s: State)
    requires LockOk(s) && s.mode != Running && s.tasks == [] && (s.worker == Locked || s.worker == AtLock)
    ensures CanBe(s, Waiting, false)
  {
    if s.worker == Locked || s.lock == None {
      WaitsNext(s);
    } else {
      var a := LockIsGivenUp(s);
      WaitsNext(Next(s, a).value);
      CanBeAfter(s, a, Waiting, false);
    }
  }

  /** The worker is past the point where it could still go to sleep. */
  ghost predicate Awake(s: State) {
    s.mode == Terminated && s.tasks == [] && s.worker != AtLock && s.worker != Locked && s.worker != Waiting
  }

  lemma {:induction false} AwakeStep(s: State, a: Action)
    requires Awake(s) && a != Stop && Next(s, a).Some?
    ensures Awake(Next(s, a).value)
  {
  }

  /** Then it never waits again, whatever anybody does but call `stop`. */
  lemma {:induction false} StaysAwake(s: State, acts: seq<Action>)
    requires Awake(s) && Stop !in acts && Run(s, acts).Some?
    ensures Awake(Run(s, acts).value)
    decreases |acts|
  {
    hide Awake, Next;
    if acts != [] {
      assert acts[0] in acts;
      AwakeStep(s, acts[0]);
      StaysAwake(Next(s, acts[0]).value, acts[1..]);
    }
  }

  /** How far the worker is from the end. */
  function StepsLeft(pc: WorkerPc): nat {
    match pc
    case Finished => 0
    case AtTest => 1
    case Busy(_) => 2
    case Taking => 2
    case _ => 3
  }

  /** The next step of a worker that does not wait for a lock. */
  function NextOf(pc: WorkerPc): Action {
    match pc
    case AtTest => WTest
    case Busy(_) => WRun
    case Taking => WTake
    case _ => WRelock
  }

  /** And it can finish. */
  lemma {:induction false} CanFinish(s: State)
    requires Awake(s) && LockOk(s)
    ensures CanBe(s, Finished, false)
    decreases StepsLeft(s.worker), if s.lock.Some? then 1 else 0
  {
    if s.worker == Finished {
      CanBeNow(s);
    } else {
      var a := NextOf(s.worker);
      if s.worker == Woken && s.lock != None {
        a := LockIsGivenUp(s);
      }
      LockKept(s, a);
      CanFinish(Next(s, a).value);
      CanBeAfter(s, a, Finished, false);
    }
  }

  // ---- when `stop` came last --------------------------------------------------------------------

  /** The worker has been woken, and the lock that it needs is with a thread that is about to terminate. */
  ghost predicate Held(s: State) {
    s.worker == Woken && SomeoneShuts(s)
  }

  /** A queue that is only closing lets the worker wait again, from wherever it is. */
  lemma {:induction false} CanWaitAgain(s: State)
    requires LockOk(s) && s.mode == Closing && s.tasks == [] && s.worker != Finished && !Held(s)
    ensures CanBe(s, Waiting, false)
    decreases StepsLeft(s.worker), if s.lock.Some? then 1 else 0
  {
    if s.worker == Waiting {
      CanBeNow(s);
    } else if s.worker == AtLock || s.worker == Locked {
      CanWait(s);
    } else {
      var a := NextOf(s.worker);
      if s.worker == Woken && s.lock != None {
        a := LockIsGivenUp(s);
      }
      LockKept(s, a);
      var t := Next(s, a).value;
      if s.worker == AtTest {
        CanWait(t);
      } else {
        CanWaitAgain(t);
      }
      CanBeAfter(s, a, Waiting, false);
    }
  }

  lemma {:induction false} HeldStep(s: State, a: Action)
    requires LockOk(s) && Held(s) && s.mode == Closing && s.tasks == [] && a != Stop && Next(s, a).Some?
    ensures var t := Next(s, a).value; Awake(t) || (LockOk(t) && Held(t) && t.mode == Closing && t.tasks == [])
  {
    LockKept(s, a);
    var i :| i in s.others && s.others[i] == Shutting;
    assert s.lock == Some(Other(i));
    if a != Terminate(i) {
      assert Next(s, a).value.others[i] == Shutting;
    }
  }

  /** Held like this, it goes on only after the termination, and then never waits. */
  lemma {:induction false} HeldNeverWaits(s: State, acts: seq<Action>)
    requires LockOk(s) && Held(s) && s.mode == Closing && s.tasks == [] && Stop !in acts && Run(s, acts).Some?
    ensures Run(s, acts).value.worker != Waiting
    decreases |acts|
  {
    if acts != [] {
      assert acts[0] in acts;
      HeldStep(s, acts[0]);
      hide Next, LockOk, Held;
      var t := Next(s, acts[0]).value;
      if Awake(t) {
        StaysAwake(t, acts[1..]);
      } else {
        HeldNeverWaits(t, acts[1..]);
      }
    }
  }

  /** Once `stop` may be called again, the worker can wait unless it has finished. */
  lemma {:induction false} CanWaitWithStop(s: State)
    requires LockOk(s) && s.mode != Running && s.tasks == [] && s.worker != Finished
    ensures CanBe(s, Waiting, true)
    decreases SomeoneShuts(s)
  {
    if SomeoneShuts(s) {
      var a := LockIsGivenUp(s);
      CanWaitWithStop(Next(s, a).value);
      CanBeAfter(s, a, Waiting, true);
    } else {
      LockKept(s, Stop);
      CanWaitAgain(Next(s, Stop).value);
      CanBeAfter(s, Stop, Waiting, true);
    }
  }

  lemma {:induction false} FinishedStays(s: State, acts: seq<Action>)
    requires s.worker == Finished && Run(s, acts).Some?
    ensures Run(s, acts).value.worker == Finished
    decreases |acts|
  {
    if acts != [] {
      assert Next(s, acts[0]).value.worker == Finished;
      hide Next;
      FinishedStays(Next(s, acts[0]).value, acts[1..]);
    }
  }

  /** Nobody is on the way to terminate a queue that is closing. */
  ghost predicate OnlyClosing(s: State) {
    s.mode == Closing && s.worker != Finished && forall i :: i in s.others ==> s.others[i] != Shut && s.others[i] != Shutting
  }

  /** After a `stop` that came last the worker never finishes, unless `shutdown` is called once more. */
  lemma {:induction false} StopUndoesShutdown(s: State, acts: seq<Action>)
    requires OnlyClosing(s) && Run(s, acts).Some? && forall a :: a in acts ==> !a.CallShutdown?
    ensures OnlyClosing(Run(s, acts).value)
    decreases |acts|
  {
    if acts != [] {
      assert acts[0] in acts;
      assert forall a :: a in acts[1..] ==> a in acts;
      OnlyClosingStep(s, acts[0]);
      hide OnlyClosing, Next;
      StopUndoesShutdown(Next(s, acts[0]).value, acts[1..]);
    }
  }

  lemma {:induction false} OnlyClosingStep(s: State, a: Action)
    requires OnlyClosing(s) && !a.CallShutdown? && Next(s, a).Some?
    ensures OnlyClosing(Next(s, a).value)
  {
    hide TasksOf, By;
  }

  /** Where the worker has to be, at the last notification of `shutdown`, to wait again although nobody calls `stop`
    any more: if the queue is terminated, between its test of the state and its wait; if a `stop` came after the
    termination, anywhere but at its end, unless it needs the lock of a thread that is about to terminate. */
  ghost predicate MayMiss(s: State) {
    if s.mode == Terminated then s.worker == AtLock || s.worker == Locked
    else s.worker != Finished && !((s.worker == Waiting || s.worker == Woken) && SomeoneShuts(s))
  }

  /** Whether the worker can sleep through `shutdown`, for every run up to its last notification. */
  lemma {:induction false} MissesShutdownExactly(ids: set<nat>, acts: seq<Action>, i: nat)
    requires Run(Started(ids), acts).Some?
    requires var s := Run(Started(ids), acts).value; i in s.others && s.others[i] == ShutNotify
    ensures var s := Run(Started(ids), acts).value;
      && s.mode == ModeAfter(Running, acts) && s.mode != Running
      && Next(s, Notify(i)).Some?
      && var v := Next(s, Notify(i)).value;
         && (CanBe(v, Waiting, false) <==> MayMiss(s))
         && (CanBe(v, Waiting, true) <==> s.worker != Finished)
         && (s.mode == Terminated && !MayMiss(s) ==> CanBe(v, Finished, false))
  {
    RunKeeps(Started(ids), acts);
    ModeIsLast(Started(ids), acts);
    var s := Run(Started(ids), acts).value;
    Notification(s, i);
    hide *;
    NotifiedMisses(Next(s, Notify(i)).value);
  }

  /** What the last notification of `shutdown` changes. */
  lemma {:induction false} Notification(s: State, i: nat)
    requires Invariant(s) && i in s.others && s.others[i] == ShutNotify
    ensures s.mode != Running && Next(s, Notify(i)).Some?
    ensures var v := Next(s, Notify(i)).value;
      && LockOk(v) && v.mode == s.mode && v.tasks == [] && v.worker != Waiting
      && (v.worker == Finished <==> s.worker == Finished) && (MayMiss(v) <==> MayMiss(s))
  {
    var v := Next(s, Notify(i)).value;
    LockKept(s, Notify(i));
    assert forall j :: j in s.others ==> (s.others[j] == Shutting <==> v.others[j] == Shutting);
    assert SomeoneShuts(s) <==> SomeoneShuts(v);
  }

  /** From a state in which the worker is not waiting. */
  lemma {:induction false} NotifiedMisses(v: State)
    requires LockOk(v) && v.mode != Running && v.tasks == [] && v.worker != Waiting
    ensures CanBe(v, Waiting, false) <==> MayMiss(v)
    ensures CanBe(v, Waiting, true) <==> v.worker != Finished
    ensures v.mode == Terminated && !MayMiss(v) ==> CanBe(v, Finished, false)
  {
    if v.worker == Finished {
      NeverWaits(v);
    } else {
      CanWaitWithStop(v);
    }
    if MayMiss(v) {
      if v.mode == Terminated { CanWait(v); } else { CanWaitAgain(v); }
    } else {
      if v.mode == Terminated { CanFinish(v); }
      NeverWaits(v);
    }
  }

  lemma {:induction false} NeverWaits(v: State)
    requires LockOk(v) && v.mode != Running && v.tasks == [] && v.worker != Waiting
    ensures v.worker == Finished ==> !CanBe(v, Waiting, true)
    ensures !MayMiss(v) ==> !CanBe(v, Waiting, false)
  {
    forall more | Run(v, more).Some?
      ensures v.worker == Finished ==> Run(v, more).value.worker != Waiting
      ensures !MayMiss(v) && Stop !in more ==> Run(v, more).value.worker != Waiting
    {
      if v.worker == Finished {
        FinishedStays(v, more);
      } else if !MayMiss(v) && Stop !in more {
        if v.mode == Terminated { StaysAwake(v, more); } else { HeldNeverWaits(v, more); }
      }
    }
  }

  /** No thread is on its way to wake the worker. */
  ghost predicate NobodyNotifies(s: State) {
    forall i :: i in s.others ==>
      s.others[i] != Signal(true) && s.others[i] != Shut && s.others[i] != Shutting
      && (ShuttingDown(s.others[i]) ==> s.others[i] == Closed)
  }

  /** The worker waits on a closed and empty queue, and nobody is on the way to wake it. */
  ghost predicate Asleep(s: State) {
    s.worker == Waiting && s.mode != Running && s.tasks == [] && NobodyNotifies(s)
  }

  lemma {:induction false} AsleepStep(s: State, a: Action)
    requires Asleep(s) && a != WWake && !a.CallShutdown? && Next(s, a).Some?
    ensures Asleep(Next(s, a).value)
  {
    hide TasksOf, By;
  }

  /** Then it waits for good: only a further call of `shutdown`, or a wake-up without a notification, ends that. */
  lemma {:induction false} WaitsForGood(s: State, acts: seq<Action>)
    requires Asleep(s) && Run(s, acts).Some? && forall a :: a in acts ==> a != WWake && !a.CallShutdown?
    ensures Asleep(Run(s, acts).value)
    decreases |acts|
  {
    hide Asleep, Next;
    if acts != [] {
      assert acts[0] in acts;
      assert forall a :: a in acts[1..] ==> a in acts;
      AsleepStep(s, acts[0]);
      WaitsForGood(Next(s, acts[0]).value, acts[1..]);
    }
  }

  ghost predicate Reaches(s: State, t: State) {
    exists acts :: Run(s, acts) == Some(t)
  }

  lemma {:induction false} ReachesFirst(s: State, a: Action, t: State, u: State)
    requires Next(s, a) == Some(t) && Reaches(t, u)
    ensures Reaches(s, u)
  {
    var acts :| Run(t, acts) == Some(u);
    assert ([a] + acts)[1..] == acts;
    assert Run(s, [a] + acts) == Some(u);
  }

  function Lonely(mode: Mode, lock: Option<Thread>, worker: WorkerPc, pc: Pc): State {
    State(mode, lock, [], worker, map[0 := pc], [], [], [])
  }

  lemma {:induction false} LonelySet(mode: Mode, lock: Option<Thread>, worker: WorkerPc, pc: Pc, other: Pc)
    ensures Set(Lonely(mode, lock, worker, pc), 0, other) == Lonely(mode, lock, worker, other)
  {
    assert map[0 := pc][0 := other] == map[0 := other];
  }

  /** The worker tests the state before it takes the lock, so the one notification of `shutdown` can come before
    it waits: a run after which `shutdown` has returned and the worker waits for a task that cannot come.  It is
    the same whether `stop` was called before, as when the server goes down, or not. */
  lemma {:induction false} WorkerMayMissShutdown(mode: Mode)
    requires mode == Running || mode == Closing
    ensures Reaches(Started({0}).(mode := mode), Lonely(Terminated, None, Waiting, Closed))
    ensures Next(Started({0}), Stop) == Some(Started({0}).(mode := Closing))
    ensures Asleep(Lonely(Terminated, None, Waiting, Closed))
  {
    var s1 := Lonely(mode, None, AtLock, Idle);
    assert Started({0}).others == map[0 := Idle];
    ShutdownReturns(mode);
    hide Reaches, Run;
    ReachesFirst(Started({0}).(mode := mode), WTest, s1, Lonely(Terminated, None, Waiting, Closed));
  }

  lemma {:induction false} ShutdownReturns(mode: Mode)
    ensures Reaches(Lonely(mode, None, AtLock, Idle), Lonely(Terminated, None, Waiting, Closed))
  {
    var end := Lonely(Terminated, None, Waiting, Closed);
    var s1, s2 := Lonely(mode, None, AtLock, Idle), Lonely(mode, None, AtLock, Shut);
    var s3, s4 := Lonely(mode, Some(Other(0)), AtLock, Shutting), Lonely(Terminated, None, AtLock, Flush(true));
    hide Reaches, Run, Next, Lonely;
    ShutdownBegins(mode);
    ShutdownFlushes();
    ReachesFirst(s3, Terminate(0), s4, end);
    ReachesFirst(s2, TakeLock(0), s3, end);
    ReachesFirst(s1, CallShutdown(0), s2, end);
  }

  lemma {:induction false} ShutdownBegins(mode: Mode)
    ensures Next(Lonely(mode, None, AtLock, Idle), CallShutdown(0)) == Some(Lonely(mode, None, AtLock, Shut))
    ensures Next(Lonely(mode, None, AtLock, Shut), TakeLock(0)) ==
      Some(Lonely(mode, Some(Other(0)), AtLock, Shutting))
    ensures Next(Lonely(mode, Some(Other(0)), AtLock, Shutting), Terminate(0)) ==
      Some(Lonely(Terminated, None, AtLock, Flush(true)))
  {
    LonelySet(mode, None, AtLock, Idle, Shut);
    LonelySet(mode, Some(Other(0)), AtLock, Shut, Shutting);
    LonelySet(Terminated, None, AtLock, Shutting, Flush(true));
  }

  lemma {:induction false} ShutdownFlushes()
    ensures Reaches(Lonely(Terminated, None, AtLock, Flush(true)), Lonely(Terminated, None, Waiting, Closed))
  {
    var end := Lonely(Terminated, None, Waiting, Closed);
    var s1, s2 := Lonely(Terminated, None, AtLock, Flush(true)), Lonely(Terminated, Some(Other(0)), AtLock, Flushing(true));
    var s3, s4 := Lonely(Terminated, None, AtLock, ShutNotify), Lonely(Terminated, None, AtLock, Closed);
    var s5 := Lonely(Terminated, Some(Worker), Locked, Closed);
    assert Next(s1, TakeLock(0)) ==
      Some(s2) by { LonelySet(Terminated, Some(Other(0)), AtLock, Flush(true), Flushing(true)); }
    assert Next(s2, FlushTake(0)) == Some(s3) by { LonelySet(Terminated, None, AtLock, Flushing(true), ShutNotify); }
    assert Next(s3, Notify(0)) == Some(s4) by { LonelySet(Terminated, None, AtLock, ShutNotify, Closed); }
    assert Next(s4, WLock) == Some(s5) && Next(s5, WLook) == Some(end);
    Stays(end);
    hide Reaches, Run, Next, Lonely;
    ReachesFirst(s5, WLook, end, end);
    ReachesFirst(s4, WLock, s5, end);
    ReachesFirst(s3, Notify(0), s4, end);
    ReachesFirst(s2, FlushTake(0), s3, end);
    ReachesFirst(s1, TakeLock(0), s2, end);
  }

  lemma {:induction false} Stays(s: State)
    ensures Reaches(s, s)
  {
    assert Run(s, []) == Some(s);
  }
}
