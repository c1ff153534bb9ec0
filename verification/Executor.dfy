/** The executor: threads hand tasks to a fixed set of workers through a bounded blocking queue.

    The state machine covers `BlockingQueue::push/pop/close` and `Executor::async_execute/join` and
    the worker loop. One step is one read of an atomic flag, one lock acquisition, one test made
    while holding the lock, or one queue operation together with the release of the lock. A wait
    gives the lock up and may end at any later moment, as a timeout or as a wakeup; wakeups need no
    notification, so lost and spurious ones are covered. */
module Executor {
  import opened Basics

  /** Each call of `async_execute` submits one task; calls are numbered in the order they start. */
  type Task = nat

  datatype Pc =
    // outside the executor: other threads, and workers while they run a task
    | Outside
    | EntryCheck(task: Task)     // async_execute: first test of done_
    | LoopCheck(task: Task)      // async_execute: while (!done_)
    | PushCheck(task: Task)      // push: test of closed_ outside the lock
    | PushLock(task: Task)       // push: acquire the lock
    | PushTest(task: Task)       // push: full and not closed?          (holds the lock)
    | PushWait(task: Task)       // push: waiting for room
    | PushClosed(task: Task)     // push: test of closed_ under the lock (holds the lock)
    | PushItem(task: Task)       // push: enqueue                        (holds the lock)
    | Accepted(task: Task)       // async_execute: push returned true
    | GaveUp(task: Task)         // async_execute: left the loop without success
    | JoinCheck | JoinSwap | JoinClose
    // workers
    | WorkerLoop                 // while (!done_)
    | PopCheck                   // pop: test of closed_ outside the lock
    | PopLock
    | PopTest                    // pop: empty and not closed?           (holds the lock)
    | PopWait
    | PopItem                    // pop: dequeue unless empty            (holds the lock)
    | WorkerExit

  /** What all threads share: the queue with its lock and flags, and a history of what happened. */
  datatype Shared = Shared(
    capacity: nat,
    queue: seq<Task>,
    lock: Option<nat>,
    closed: bool,
    done: bool,
    // history
    calls: nat,                   // calls of async_execute so far
    answers: map<Task, bool>,     // what finished calls returned
    accepted: seq<Task>,          // tasks in the order they entered the queue
    taken: seq<(nat, Task)>,      // (worker, task) in the order they left it
    latePushes: nat)              // pushes that succeeded after the queue was closed

  /** A thread, with the number of tasks it took after the queue was closed. A worker that runs a task is
      outside the executor like any other thread, and may call it from there. */
  datatype Thread = Thread(pc: Pc, lateTakes: nat, running: Option<Task>)

  datatype State = State(sh: Shared, threads: seq<Thread>)

  /** What the scheduler decides: which thread moves, and what it does where it has a choice. */
  datatype Choice = Call | Join | Finish | Wake | Timeout
  datatype Action = Action(tid: nat, choice: Choice)

  function Answer(sh: Shared, task: Task, ok: bool): Shared {
    sh.(answers := sh.answers[task := ok])
  }

  function Enqueue(sh: Shared, task: Task): Shared {
    sh.(lock := None, queue := sh.queue + [task], accepted := sh.accepted + [task],
        latePushes := sh.latePushes + if sh.closed then 1 else 0)
  }

  function Dequeue(sh: Shared, i: nat): Shared
    requires sh.queue != []
  {
    sh.(lock := None, queue := sh.queue[1..], taken := sh.taken + [(i, sh.queue[0])])
  }

  /** A step of thread `i`: the shared state and where the thread stands then.
      Waiting for the lock leaves both as they are. A wait ends with the lock held again; a timeout
      then gives it back at once. */
  function Move(sh: Shared, th: Thread, i: nat, choice: Choice): (Shared, Pc) {
    var pc := th.pc;
    match pc
    case Outside =>
      if choice == Call then (sh.(calls := sh.calls + 1), EntryCheck(sh.calls))
      else if choice == Join then (sh, JoinCheck)
      else if choice == Finish && th.running.Some? then (sh, WorkerLoop)
      else (sh, pc)
    case EntryCheck(t) => if sh.done then (Answer(sh, t, false), Outside) else (sh, LoopCheck(t))
    case LoopCheck(t) => (sh, if sh.done then GaveUp(t) else PushCheck(t))
    case PushCheck(t) => (sh, if sh.closed then LoopCheck(t) else PushLock(t))
    case PushLock(t) => if sh.lock == None then (sh.(lock := Some(i)), PushTest(t)) else (sh, pc)
    case PushTest(t) =>
      if |sh.queue| >= sh.capacity && !sh.closed then (sh.(lock := None), PushWait(t)) else (sh, PushClosed(t))
    case PushWait(t) =>
      if sh.lock != None then (sh, pc)
      else if choice == Timeout then (sh, LoopCheck(t))
      else (sh.(lock := Some(i)), PushTest(t))
    case PushClosed(t) => if sh.closed then (sh.(lock := None), LoopCheck(t)) else (sh, PushItem(t))
    case PushItem(t) => (Enqueue(sh, t), Accepted(t))
    case Accepted(t) => (Answer(sh, t, true), Outside)
    case GaveUp(t) => (Answer(sh, t, !sh.done), Outside)
    case JoinCheck => (sh, if sh.done then Outside else JoinSwap)
    case JoinSwap => if sh.done then (sh, Outside) else (sh.(done := true), JoinClose)
    case JoinClose => (sh.(closed := true), Outside)
    case WorkerLoop => (sh, if sh.done then WorkerExit else PopCheck)
    case PopCheck => (sh, if sh.closed then WorkerLoop else PopLock)
    case PopLock => if sh.lock == None then (sh.(lock := Some(i)), PopTest) else (sh, pc)
    case PopTest =>
      if sh.queue == [] && !sh.closed then (sh.(lock := None), PopWait) else (sh, PopItem)
    case PopWait =>
      if sh.lock != None then (sh, pc)
      else if choice == Timeout then (sh, WorkerLoop)
      else (sh.(lock := Some(i)), PopTest)
    case PopItem =>
      if sh.queue == [] then (sh.(lock := None), WorkerLoop) else (Dequeue(sh, i), Outside)
    case WorkerExit => (sh, pc)
  }

  /** 1 when the step takes a task although the queue is closed. */
  function LateTake(sh: Shared, pc: Pc): nat {
    if pc.PopItem? && sh.queue != [] && sh.closed then 1 else 0
  }

  /** The task a thread runs after a step to `pc'`: taken from the queue, kept, or finished. */
  function Running(sh: Shared, th: Thread, pc': Pc): Option<Task> {
    if th.pc.PopItem? && sh.queue != [] then Some(sh.queue[0])
    else if pc'.WorkerLoop? then None
    else th.running
  }

  function Step(s: State, a: Action): State {
    if a.tid < |s.threads| then
      var th := s.threads[a.tid];
      var (sh', pc') := Move(s.sh, th, a.tid, a.choice);
      State(sh', s.threads[a.tid := Thread(pc', th.lateTakes + LateTake(s.sh, th.pc), Running(s.sh, th, pc'))])
    else s
  }

  ghost predicate Initial(s: State) {
    && (exists capacity: nat :: s.sh == Shared(capacity, [], None, false, false, 0, map[], [], [], 0))
    && forall i | 0 <= i < |s.threads| ::
         s.threads[i] == Thread(Outside, 0, None) || s.threads[i] == Thread(WorkerLoop, 0, None)
  }

  function Exec(s: State, actions: seq<Action>): State
    decreases |actions|
  {
    if actions == [] then s else Exec(Step(s, actions[0]), actions[1..])
  }

  // ---------------------------------------------------------------- invariants

  predicate HoldsLock(pc: Pc) {
    pc.PushTest? || pc.PushClosed? || pc.PushItem? || pc.PopTest? || pc.PopItem?
  }

  /** Inside `pop`, past its first test of `closed_`. */
  predicate InPop(pc: Pc) {
    pc.PopLock? || pc.PopTest? || pc.PopWait? || pc.PopItem?
  }

  /** The call a thread is in, if any. */
  function CallOf(pc: Pc): Option<Task> {
    match pc
    case EntryCheck(t) => Some(t)
    case LoopCheck(t) => Some(t)
    case PushCheck(t) => Some(t)
    case PushLock(t) => Some(t)
    case PushTest(t) => Some(t)
    case PushWait(t) => Some(t)
    case PushClosed(t) => Some(t)
    case PushItem(t) => Some(t)
    case Accepted(t) => Some(t)
    case GaveUp(t) => Some(t)
    case _ => None
  }

  function Tasks(taken: seq<(nat, Task)>): (r: seq<Task>)
    ensures |r| == |taken|
    ensures forall k | 0 <= k < |taken| :: r[k] == taken[k].1
  {
    seq(|taken|, k requires 0 <= k < |taken| => taken[k].1)
  }

  ghost predicate NoDuplicates(ts: seq<Task>) {
    forall j, k | 0 <= j < k < |ts| :: ts[j] != ts[k]
  }

  /** Mutual exclusion, and what the lock holder has seen of the queue and the flags. */
  ghost predicate LockPart(sh: Shared, pc: Pc, i: nat) {
    && (HoldsLock(pc) <==> sh.lock == Some(i))
    && (pc.PushClosed? ==> |sh.queue| < sh.capacity || sh.closed)
    && (pc.PushItem? ==> |sh.queue| < sh.capacity && sh.latePushes == 0)
    && (pc.JoinClose? || pc.GaveUp? ==> sh.done)
  }

  ghost predicate LatePart(sh: Shared, th: Thread) {
    && (!sh.closed ==> th.lateTakes == 0)
    && th.lateTakes + (if InPop(th.pc) then 1 else 0) <= 1
  }

  /** The call in progress: numbered, not answered, accepted just when `push` has returned true. */
  ghost predicate CallPart(sh: Shared, pc: Pc) {
    CallOf(pc).Some? ==>
      var t := CallOf(pc).value;
      t < sh.calls && t !in sh.answers && (t in sh.accepted <==> pc.Accepted?)
  }

  /** What one thread may rely on, whatever the others do. */
  ghost predicate ThreadInv(sh: Shared, th: Thread, i: nat) {
    LockPart(sh, th.pc, i) && LatePart(sh, th) && CallPart(sh, th.pc)
  }

  ghost predicate SharedInv(sh: Shared) {
    && |sh.queue| <= sh.capacity
    && sh.accepted == Tasks(sh.taken) + sh.queue
    && (sh.closed ==> sh.done)
    && (!sh.closed ==> sh.latePushes == 0)
    && sh.latePushes <= 1
    && NoDuplicates(sh.accepted)
    && (forall t | t in sh.accepted :: t < sh.calls)
    && (forall t | t in sh.answers :: t < sh.calls && (sh.answers[t] <==> t in sh.accepted))
  }

  ghost predicate Inv(s: State) {
    && SharedInv(s.sh)
    && (forall i | 0 <= i < |s.threads| :: ThreadInv(s.sh, s.threads[i], i))
    && (forall i, j | 0 <= i < j < |s.threads| && CallOf(s.threads[i].pc).Some? ::
          CallOf(s.threads[i].pc) != CallOf(s.threads[j].pc))
  }

  lemma EnqueueKeepsSharedInv(sh: Shared, t: Task)
    requires SharedInv(sh) && |sh.queue| < sh.capacity && sh.latePushes == 0
    requires t < sh.calls && t !in sh.accepted && t !in sh.answers
    ensures SharedInv(Enqueue(sh, t))
  {
  }

  lemma DequeueKeepsSharedInv(sh: Shared, i: nat)
    requires SharedInv(sh) && sh.queue != []
    ensures SharedInv(Dequeue(sh, i))
  {
  }

  lemma AnswerKeepsSharedInv(sh: Shared, t: Task, ok: bool)
    requires SharedInv(sh) && t < sh.calls && (ok <==> t in sh.accepted)
    ensures SharedInv(Answer(sh, t, ok))
  {
  }

  predicate Quiet(sh: Shared, pc: Pc) {
    !pc.EntryCheck? && !pc.Accepted? && !pc.GaveUp? && !pc.PushItem? && (pc.PopItem? ==> sh.queue == [])
  }

  /** All other moves change nothing but the lock, the flags, and the number of calls. */
  lemma QuietMove(sh: Shared, th: Thread, i: nat, choice: Choice)
    requires Quiet(sh, th.pc)
    ensures var sh' := Move(sh, th, i, choice).0;
            && sh' == sh.(lock := sh'.lock, closed := sh'.closed, done := sh'.done, calls := sh'.calls)
            && sh.calls <= sh'.calls && (sh.done ==> sh'.done) && (sh.closed ==> sh'.closed)
            && (sh'.closed ==> sh.closed || th.pc.JoinClose?)
  {
  }

  lemma QuietKeepsSharedInv(sh: Shared, sh': Shared)
    requires SharedInv(sh)
    requires sh' == sh.(lock := sh'.lock, closed := sh'.closed, done := sh'.done, calls := sh'.calls)
    requires sh.calls <= sh'.calls && (sh.closed ==> sh'.closed) && (sh'.closed ==> sh'.done)
    ensures SharedInv(sh')
  {
  }

  /** The moves that write to the history. */
  lemma LoudMove(sh: Shared, th: Thread, i: nat, choice: Choice)
    requires !Quiet(sh, th.pc)
    ensures Move(sh, th, i, choice).0 ==
              match th.pc
              case EntryCheck(t) => if sh.done then Answer(sh, t, false) else sh
              case Accepted(t) => Answer(sh, t, true)
              case GaveUp(t) => Answer(sh, t, !sh.done)
              case PushItem(t) => Enqueue(sh, t)
              case _ => if sh.queue == [] then sh else Dequeue(sh, i)
  {
  }

  lemma MoveKeepsSharedInv(sh: Shared, th: Thread, i: nat, choice: Choice)
    requires SharedInv(sh) && ThreadInv(sh, th, i)
    ensures SharedInv(Move(sh, th, i, choice).0)
  {
    if Quiet(sh, th.pc) {
      QuietMove(sh, th, i, choice);
      QuietKeepsSharedInv(sh, Move(sh, th, i, choice).0);
    } else {
      LoudMove(sh, th, i, choice);
      LoudKeepsSharedInv(sh, th, i);
    }
  }

  lemma LoudKeepsSharedInv(sh: Shared, th: Thread, i: nat)
    requires SharedInv(sh) && ThreadInv(sh, th, i) && !Quiet(sh, th.pc)
    ensures match th.pc
            case EntryCheck(t) => SharedInv(Answer(sh, t, false))
            case Accepted(t) => SharedInv(Answer(sh, t, true))
            case GaveUp(t) => SharedInv(Answer(sh, t, !sh.done))
            case PushItem(t) => SharedInv(Enqueue(sh, t))
            case _ => sh.queue != [] && SharedInv(Dequeue(sh, i))
  {
    match th.pc
    case EntryCheck(t) => AnswerKeepsSharedInv(sh, t, false);
    case Accepted(t) => AnswerKeepsSharedInv(sh, t, true);
    case GaveUp(t) => AnswerKeepsSharedInv(sh, t, false);
    case PushItem(t) => EnqueueKeepsSharedInv(sh, t);
    case _ => DequeueKeepsSharedInv(sh, i);
  }

  lemma MoveKeepsLockPart(sh: Shared, th: Thread, i: nat, choice: Choice)
    requires SharedInv(sh) && LockPart(sh, th.pc, i)
    ensures var (sh', pc') := Move(sh, th, i, choice); LockPart(sh', pc', i)
  {
  }

  lemma MoveKeepsLatePart(sh: Shared, th: Thread, i: nat, choice: Choice)
    requires SharedInv(sh) && LatePart(sh, th)
    ensures var (sh', pc') := Move(sh, th, i, choice);
            LatePart(sh', Thread(pc', th.lateTakes + LateTake(sh, th.pc), Running(sh, th, pc')))
  {
  }

  lemma MoveKeepsCallPart(sh: Shared, th: Thread, i: nat, choice: Choice)
    requires SharedInv(sh) && CallPart(sh, th.pc)
    ensures var (sh', pc') := Move(sh, th, i, choice); CallPart(sh', pc')
  {
    if Quiet(sh, th.pc) {
      QuietMove(sh, th, i, choice);
    } else {
      LoudMove(sh, th, i, choice);
    }
  }

  /** A move changes the queue and the lock only while it holds the lock or takes it. */
  ghost predicate LockFrame(sh: Shared, sh': Shared, i: nat) {
    && sh'.capacity == sh.capacity
    && (sh'.lock != sh.lock ==>
          (sh.lock == None && sh'.lock == Some(i)) || (sh.lock == Some(i) && sh'.lock == None))
    && (sh'.queue != sh.queue || sh'.latePushes != sh.latePushes ==> sh.lock == Some(i))
    && (sh.closed ==> sh'.closed) && (sh.done ==> sh'.done)
  }

  /** A move changes only what is known of the thread's own call. */
  ghost predicate CallFrame(sh: Shared, sh': Shared, pc: Pc) {
    && sh.calls <= sh'.calls
    && (forall t :: CallOf(pc) != Some(t) ==>
          (t in sh'.answers <==> t in sh.answers) && (t in sh'.accepted <==> t in sh.accepted))
  }

  lemma MoveKeepsLockFrame(sh: Shared, th: Thread, i: nat, choice: Choice)
    requires ThreadInv(sh, th, i)
    ensures LockFrame(sh, Move(sh, th, i, choice).0, i)
  {
    if Quiet(sh, th.pc) { QuietMove(sh, th, i, choice); }
  }

  lemma MoveKeepsCallFrame(sh: Shared, th: Thread, i: nat, choice: Choice)
    requires ThreadInv(sh, th, i)
    ensures CallFrame(sh, Move(sh, th, i, choice).0, th.pc)
  {
    if Quiet(sh, th.pc) { QuietMove(sh, th, i, choice); }
  }

  lemma FrameKeepsOtherInv(sh: Shared, sh': Shared, pc: Pc, i: nat, th: Thread, j: nat)
    requires LockFrame(sh, sh', i) && CallFrame(sh, sh', pc) && ThreadInv(sh, th, j) && i != j
    requires CallOf(th.pc) == None || CallOf(th.pc) != CallOf(pc)
    ensures ThreadInv(sh', th, j)
  {
  }

  lemma StepKeepsInv(s: State, a: Action)
    requires Inv(s)
    ensures Inv(Step(s, a))
  {
    if a.tid < |s.threads| {
      var i := a.tid;
      var th := s.threads[i];
      var (sh', pc') := Move(s.sh, th, i, a.choice);
      var s' := Step(s, a);
      MoveKeepsSharedInv(s.sh, th, i, a.choice);
      MoveKeepsLockPart(s.sh, th, i, a.choice);
      MoveKeepsLatePart(s.sh, th, i, a.choice);
      MoveKeepsCallPart(s.sh, th, i, a.choice);
      MoveKeepsLockFrame(s.sh, th, i, a.choice);
      MoveKeepsCallFrame(s.sh, th, i, a.choice);
      forall j | 0 <= j < |s'.threads| ensures ThreadInv(s'.sh, s'.threads[j], j) {
        if j != i {
          FrameKeepsOtherInv(s.sh, sh', th.pc, i, s.threads[j], j);
        }
      }
      NewCallIsNew(s.sh, th, i, a.choice);
      forall j | 0 <= j < |s.threads| ensures ThreadInv(s.sh, s.threads[j], j) {}
    }
  }

  lemma NewCallIsNew(sh: Shared, th: Thread, i: nat, choice: Choice)
    ensures var pc' := Move(sh, th, i, choice).1;
            CallOf(pc') == None || CallOf(pc') == CallOf(th.pc) || CallOf(pc') == Some(sh.calls)
  {
  }

  lemma {:induction false} InvHolds(s: State, actions: seq<Action>)
    requires Inv(s)
    ensures Inv(Exec(s, actions))
    decreases |actions|
  {
    if actions != [] {
      StepKeepsInv(s, actions[0]);
      InvHolds(Step(s, actions[0]), actions[1..]);
    }
  }

  lemma InitialInv(s: State)
    requires Initial(s)
    ensures Inv(s)
  {
  }

  // ---------------------------------------------------------------- what holds of every run

  /** The queue loses, invents, repeats and reorders nothing, and stays within its capacity: the
      accepted tasks are those taken, each by one worker, followed by those still queued. */
  lemma TasksAreHandedOverInOrder(s: State, actions: seq<Action>)
    requires Initial(s)
    ensures var r := Exec(s, actions).sh;
            && r.accepted == Tasks(r.taken) + r.queue
            && NoDuplicates(r.accepted)
            && |r.queue| <= s.sh.capacity
  {
    InitialInv(s);
    InvHolds(s, actions);
    HistoryGrows(s, actions);
  }

  ghost predicate RunningTaken(s: State) {
    forall i | 0 <= i < |s.threads| && s.threads[i].running.Some? :: (i, s.threads[i].running.value) in s.sh.taken
  }

  lemma {:induction false} RunningWereTaken(s: State, actions: seq<Action>)
    requires RunningTaken(s)
    ensures RunningTaken(Exec(s, actions))
    decreases |actions|
  {
    if actions != [] {
      StepKeepsRunning(s, actions[0]);
      RunningWereTaken(Step(s, actions[0]), actions[1..]);
    }
  }

  lemma StepKeepsRunning(s: State, a: Action)
    requires RunningTaken(s)
    ensures RunningTaken(Step(s, a))
  {
    if a.tid < |s.threads| {
      var th, r := s.threads[a.tid], Step(s, a);
      if th.pc.PopItem? && s.sh.queue != [] {
        assert r.sh.taken[|s.sh.taken|] == (a.tid, s.sh.queue[0]);
        assert forall x | x in s.sh.taken :: x in r.sh.taken;
      } else if Quiet(s.sh, th.pc) {
        QuietMove(s.sh, th, a.tid, a.choice);
      }
    }
  }

  lemma TakenOnce(sh: Shared, k: nat, m: nat)
    requires sh.accepted == Tasks(sh.taken) + sh.queue && NoDuplicates(sh.accepted)
    requires k < |sh.taken| && m < |sh.taken| && sh.taken[k].1 == sh.taken[m].1
    ensures k == m
  {
    assert sh.accepted[k] == sh.taken[k].1 && sh.accepted[m] == sh.taken[m].1;
  }

  /** A thread runs only tasks it took itself, and no two threads run the same one. */
  lemma RunningTasksAreApart(s: State, actions: seq<Action>, i: nat, j: nat)
    requires Initial(s)
    ensures var r := Exec(s, actions);
            i < j < |r.threads| && r.threads[i].running.Some? ==> r.threads[i].running != r.threads[j].running
  {
    var r := Exec(s, actions);
    TasksAreHandedOverInOrder(s, actions);
    RunningWereTaken(s, actions);
    if i < j < |r.threads| && r.threads[i].running.Some? && r.threads[i].running == r.threads[j].running {
      var t := r.threads[i].running.value;
      var k :| 0 <= k < |r.sh.taken| && r.sh.taken[k] == (i, t);
      var m :| 0 <= m < |r.sh.taken| && r.sh.taken[m] == (j, t);
      TakenOnce(r.sh, k, m);
    }
  }

  /** `async_execute` answers true exactly for the tasks that entered the queue, and a task that
      was refused never enters it. */
  lemma AnswersTellAcceptance(s: State, actions: seq<Action>, later: seq<Action>)
    requires Initial(s)
    ensures var m := Exec(s, actions);
            var r := Exec(m, later).sh;
            forall t | t in m.sh.answers ::
              t in r.answers && r.answers[t] == m.sh.answers[t] && (m.sh.answers[t] <==> t in r.accepted)
  {
    var m := Exec(s, actions);
    InitialInv(s);
    InvHolds(s, actions);
    InvHolds(m, later);
    AnswersStand(m, later);
  }

  /** The number of tasks taken by worker `w`. */
  function TakenBy(taken: seq<(nat, Task)>, w: nat): nat {
    if taken == [] then 0
    else TakenBy(taken[..|taken| - 1], w) + if taken[|taken| - 1].0 == w then 1 else 0
  }

  /** Once the queue is closed, at most one more push succeeds and each worker takes at most one
      more task, however the run goes on. */
  lemma LittleHappensAfterClose(s: State, actions: seq<Action>, later: seq<Action>, w: nat)
    requires Initial(s) && Exec(s, actions).sh.closed
    ensures var m := Exec(s, actions).sh;
            var r := Exec(Exec(s, actions), later).sh;
            && |m.accepted| <= |r.accepted| <= |m.accepted| + 1
            && TakenBy(m.taken, w) <= TakenBy(r.taken, w) <= TakenBy(m.taken, w) + 1
  {
    var m := Exec(s, actions);
    InitialInv(s);
    InvHolds(s, actions);
    InvHolds(m, later);
    LateWorkIsCounted(m, later, w);
    HistoryGrows(m, later);
    var r := Exec(m, later);
    if w < |m.threads| {
      assert ThreadInv(r.sh, r.threads[w], w) && ThreadInv(m.sh, m.threads[w], w);
    }
  }

  lemma {:induction false} HistoryGrows(s: State, actions: seq<Action>)
    ensures var r := Exec(s, actions);
            && r.sh.capacity == s.sh.capacity
            && |r.threads| == |s.threads|
            && s.sh.accepted <= r.sh.accepted
    decreases |actions|
  {
    if actions != [] {
      StepGrows(s, actions[0]);
      HistoryGrows(Step(s, actions[0]), actions[1..]);
    }
  }

  lemma StepGrows(s: State, a: Action)
    ensures var r := Step(s, a);
            && r.sh.capacity == s.sh.capacity
            && |r.threads| == |s.threads|
            && s.sh.accepted <= r.sh.accepted
  {
    if a.tid < |s.threads| && Quiet(s.sh, s.threads[a.tid].pc) {
      QuietMove(s.sh, s.threads[a.tid], a.tid, a.choice);
    }
  }

  lemma {:induction false} AnswersStand(s: State, actions: seq<Action>)
    requires Inv(s)
    ensures forall t | t in s.sh.answers ::
              t in Exec(s, actions).sh.answers && Exec(s, actions).sh.answers[t] == s.sh.answers[t]
    decreases |actions|
  {
    if actions != [] {
      StepKeepsInv(s, actions[0]);
      StepKeepsAnswers(s, actions[0]);
      AnswersStand(Step(s, actions[0]), actions[1..]);
    }
  }

  lemma StepKeepsAnswers(s: State, a: Action)
    requires Inv(s)
    ensures forall t | t in s.sh.answers :: t in Step(s, a).sh.answers && Step(s, a).sh.answers[t] == s.sh.answers[t]
  {
    if a.tid < |s.threads| {
      var th := s.threads[a.tid];
      assert ThreadInv(s.sh, th, a.tid);
      if Quiet(s.sh, th.pc) {
        QuietMove(s.sh, th, a.tid, a.choice);
      }
    }
  }

  function LateTakesOf(s: State, w: nat): nat {
    if w < |s.threads| then s.threads[w].lateTakes else 0
  }

  lemma {:induction false} LateWorkIsCounted(s: State, actions: seq<Action>, w: nat)
    requires s.sh.closed
    ensures var r := Exec(s, actions);
            && |r.sh.accepted| - |s.sh.accepted| == r.sh.latePushes - s.sh.latePushes
            && TakenBy(r.sh.taken, w) - TakenBy(s.sh.taken, w) == LateTakesOf(r, w) - LateTakesOf(s, w) >= 0
    decreases |actions|
  {
    if actions != [] {
      var a := actions[0];
      LateStepIsCounted(s, a, w);
      LateWorkIsCounted(Step(s, a), actions[1..], w);
    }
  }

  lemma LateStepIsCounted(s: State, a: Action, w: nat)
    requires s.sh.closed
    ensures var r := Step(s, a);
            && r.sh.closed
            && |r.sh.accepted| - |s.sh.accepted| == r.sh.latePushes - s.sh.latePushes
            && TakenBy(r.sh.taken, w) - TakenBy(s.sh.taken, w) == LateTakesOf(r, w) - LateTakesOf(s, w) >= 0
  {
    if a.tid < |s.threads| {
      var pc := s.threads[a.tid].pc;
      var r := Step(s, a);
      if pc.PopItem? && s.sh.queue != [] {
        assert r.sh.taken[..|r.sh.taken| - 1] == s.sh.taken;
      } else if Quiet(s.sh, pc) {
        QuietMove(s.sh, s.threads[a.tid], a.tid, a.choice);
      }
    }
  }
}
