/** The thread pool as a state machine: the atomic steps of its workers and of
    the one client that calls `exec`, `expand` and the destructor. */
module ThreadPool {
  import opened Ast

  const MAX_THREADS: nat := 16

  /** A task is known by a number. */
  type Task = nat

  /** Where a worker stands in its loop. */
  datatype Worker =
    | Testing                 // before reading the running flag
    | Locking                 // before taking the mutex
    | Holding                 // has the mutex, before evaluating the wait predicate
    | Sleeping                // in the wait, without the mutex
    | Checking                // has the mutex, the predicate was true
    | Taking                  // has the mutex, about to take the front task
    | Took(task: Task)        // before decrementing the idle count
    | Working(task: Task)     // running the task
    | Worked                  // before incrementing the idle count
    | Exited

  /** Where the client stands; `calls` says whether an `exec` is waiting for the
      expansion. */
  datatype Client =
    | Ready
    | Pushing(task: Task)
    | Weighing                // before reading the idle count and the size
    | Growing(left: nat)      // in `expand`, with `left` threads to go
    | Counting(left: nat)     // a thread started, its increment pending
    | Joining(next: nat)
    | Gone

  /** `submitted`, `popped`, `ran` and `late` record the history: what was
      pushed, who took what, who ran what, and how many tasks each worker took
      after the flag was cleared. */
  datatype State = State(
    running: bool,
    idle: int,
    mutex: Option<nat>,
    tasks: seq<Task>,
    workers: seq<Worker>,
    client: Client,
    submitted: seq<Task>,
    popped: seq<(nat, Task)>,
    ran: seq<(nat, Task)>,
    late: seq<nat>)

  function Initial(size: nat): State {
    State(true, 0, None, [], [], Growing(size), [], [], [], [])
  }

  datatype Action =
    | Work(worker: nat)
    | Go
    | CallExec(task: Task)
    | CallExpand(size: nat)
    | CallDestroy

  /** Whether the action's thread can take its next step. A waiting worker may
      wake at any time. */
  predicate Enabled(s: State, a: Action) {
    match a
    case Work(i) =>
      i < |s.workers| && s.workers[i] != Exited && (s.workers[i] == Locking ==> s.mutex.None?)
    case Go =>
      (match s.client
       case Ready => false
       case Gone => false
       case Pushing(_) => s.mutex.None?
       case Joining(k) => k < |s.workers| ==> s.workers[k] == Exited
       case _ => true)
    case CallExec(_) => s.client == Ready
    case CallExpand(_) => s.client == Ready
    case CallDestroy => s.client == Ready
  }

  function Set(s: State, i: nat, w: Worker): State
    requires i < |s.workers|
  {
    s.(workers := s.workers[i := w])
  }

  function WorkerStep(s: State, i: nat): State
    requires i < |s.workers| == |s.late|
  {
    match s.workers[i]
    case Testing => Set(s, i, if s.running then Locking else Exited)
    case Locking => Set(s, i, Holding).(mutex := Some(i))
    case Holding =>
      if !s.running || s.tasks != [] then Set(s, i, Checking) else Set(s, i, Sleeping).(mutex := None)
    case Sleeping => Set(s, i, Locking)
    case Checking =>
      if !s.running && s.tasks == [] then Set(s, i, Exited).(mutex := None) else Set(s, i, Taking)
    case Taking =>
      if s.tasks == [] then s else
        Set(s, i, Took(s.tasks[0])).(
          mutex := None,
          tasks := s.tasks[1..],
          popped := s.popped + [(i, s.tasks[0])],
          late := if s.running then s.late else s.late[i := s.late[i] + 1])
    case Took(t) => Set(s, i, Working(t)).(idle := s.idle - 1)
    case Working(t) => Set(s, i, Worked).(ran := s.ran + [(i, t)])
    case Worked => Set(s, i, Testing).(idle := s.idle + 1)
    case Exited => s
  }

  function ClientStep(s: State): State {
    match s.client
    case Pushing(t) => s.(client := Weighing, tasks := s.tasks + [t], submitted := s.submitted + [t])
    case Weighing => s.(client := if s.idle < 1 && |s.workers| < MAX_THREADS then Growing(1) else Ready)
    case Growing(n) =>
      if n > 0 && |s.workers| < MAX_THREADS then
        s.(client := Counting(n - 1), workers := s.workers + [Testing], late := s.late + [0])
      else s.(client := Ready)
    case Counting(n) => s.(client := Growing(n), idle := s.idle + 1)
    case Joining(k) => s.(client := if k < |s.workers| then Joining(k + 1) else Gone)
    case _ => s
  }

  function Next(s: State, a: Action): (r: State)
    requires Enabled(s, a) && |s.late| == |s.workers|
    ensures |r.late| == |r.workers|
  {
    match a
    case Work(i) => WorkerStep(s, i)
    case Go => ClientStep(s)
    case CallExec(t) => if s.running then s.(client := Pushing(t)) else s
    case CallExpand(n) => s.(client := Growing(n))
    case CallDestroy => s.(running := false, client := Joining(0))
  }

  // ----- what every step keeps -----

  predicate IsBusy(w: Worker) {
    w.Working? || w.Worked?
  }

  function Busy(ws: seq<Worker>): nat {
    if ws == [] then 0 else Busy(ws[..|ws| - 1]) + if IsBusy(ws[|ws| - 1]) then 1 else 0
  }

  /** The task that a worker has taken and not yet run. */
  function Held(i: nat, w: Worker): multiset<(nat, Task)> {
    match w
    case Took(t) => multiset{(i, t)}
    case Working(t) => multiset{(i, t)}
    case _ => multiset{}
  }

  function InFlight(ws: seq<Worker>): multiset<(nat, Task)> {
    if ws == [] then multiset{} else InFlight(ws[..|ws| - 1]) + Held(|ws| - 1, ws[|ws| - 1])
  }

  function Tasks(ps: seq<(nat, Task)>): seq<Task> {
    if ps == [] then [] else Tasks(ps[..|ps| - 1]) + [ps[|ps| - 1].1]
  }

  /** Pushed tasks are the popped ones followed by the queue; each popped task
      was run once by the worker that took it, or that worker has it in hand. */
  ghost predicate Conserved(s: State) {
    && s.submitted == Tasks(s.popped) + s.tasks
    && multiset(s.popped) == multiset(s.ran) + InFlight(s.workers)
  }

  function PendingIncrement(c: Client): nat {
    if c.Counting? then 1 else 0
  }

  predicate Accounted(s: State) {
    |s.workers| <= MAX_THREADS && s.idle + Busy(s.workers) + PendingIncrement(s.client) == |s.workers|
  }

  predicate HasMutex(w: Worker) {
    w.Holding? || w.Checking? || w.Taking?
  }

  /** The mutex is held by the worker in the critical section, if there is one;
      a worker that takes a task finds one. */
  predicate Exclusive(s: State) {
    && (forall i | 0 <= i < |s.workers| :: HasMutex(s.workers[i]) <==> s.mutex == Some(i))
    && (s.mutex.Some? ==> s.mutex.value < |s.workers|)
    && (forall i | 0 <= i < |s.workers| && s.workers[i] == Taking :: s.tasks != [])
    && (forall i | 0 <= i < |s.workers| && s.workers[i] == Checking :: !s.running || s.tasks != [])
  }

  /** Workers exit only after the flag was cleared; after that each takes at most
      one more task, and the client has joined those before `next`. */
  predicate ShutsDown(s: State) {
    && |s.late| == |s.workers|
    && (s.running <==> !s.client.Joining? && s.client != Gone)
    && (forall i | 0 <= i < |s.workers| && s.workers[i] == Exited :: !s.running)
    && (forall i | 0 <= i < |s.late| ::
          s.late[i] <= 1 && (s.running ==> s.late[i] == 0)
          && (s.late[i] == 1 ==> s.workers[i].Took? || IsBusy(s.workers[i]) || s.workers[i] in {Testing, Exited}))
    && (s.client.Joining? ==> s.client.next <= |s.workers|
                              && forall i | 0 <= i < s.client.next :: s.workers[i] == Exited)
    && (s.client == Gone ==> forall i | 0 <= i < |s.workers| :: s.workers[i] == Exited)
  }

  ghost predicate Invariant(s: State) {
    Conserved(s) && Accounted(s) && Exclusive(s) && ShutsDown(s)
  }

  lemma {:induction false} BusyUpdate(ws: seq<Worker>, i: nat, w: Worker)
    requires i < |ws|
    ensures Busy(ws[i := w]) + (if IsBusy(ws[i]) then 1 else 0) == Busy(ws) + if IsBusy(w) then 1 else 0
  {
    var n := |ws| - 1;
    if i < n {
      assert ws[i := w][..n] == ws[..n][i := w];
      BusyUpdate(ws[..n], i, w);
    } else {
      assert ws[i := w][..n] == ws[..n];
    }
  }

  lemma {:induction false} InFlightUpdate(ws: seq<Worker>, i: nat, w: Worker)
    requires i < |ws|
    ensures InFlight(ws[i := w]) + Held(i, ws[i]) == InFlight(ws) + Held(i, w)
  {
    hide Held;
    var n := |ws| - 1;
    var h := Held(n, ws[n]);
    if i < n {
      assert ws[i := w][..n] == ws[..n][i := w];
      InFlightUpdate(ws[..n], i, w);
      var a, b := InFlight(ws[..n][i := w]), InFlight(ws[..n]);
      assert InFlight(ws[i := w]) == a + h && InFlight(ws) == b + h;
      assert a + h + Held(i, ws[i]) == a + Held(i, ws[i]) + h;
    } else {
      assert ws[i := w][..n] == ws[..n];
      assert InFlight(ws[i := w]) == InFlight(ws[..n]) + Held(n, w);
    }
  }

  /** A step of one worker changes no other worker, and not the client. */
  lemma {:induction false} OneWorker(s: State, i: nat)
    requires i < |s.workers| == |s.late|
    ensures var r := WorkerStep(s, i);
            && |r.workers| == |s.workers| && r.workers == s.workers[i := r.workers[i]]
            && r.client == s.client && r.running == s.running && r.submitted == s.submitted
  {
  }

  lemma {:induction false} AccountedWorker(s: State, i: nat)
    requires Accounted(s) && i < |s.workers| == |s.late|
    ensures Accounted(WorkerStep(s, i))
  {
    hide Busy;
    var r := WorkerStep(s, i);
    OneWorker(s, i);
    BusyUpdate(s.workers, i, r.workers[i]);
    assert r.idle + (if IsBusy(r.workers[i]) then 1 else 0) == s.idle + if IsBusy(s.workers[i]) then 1 else 0;
  }

  lemma {:induction false} AccountedClient(s: State, a: Action)
    requires Accounted(s) && Enabled(s, a) && !a.Work? && |s.late| == |s.workers|
    ensures Accounted(Next(s, a))
  {
    assert (s.workers + [Testing])[..|s.workers|] == s.workers;
  }

  /** How a step moves a task: from the queue to the worker's hand, or from
      there to the record of tasks run, or not. */
  ghost predicate Moves<T>(p: multiset<T>, p1: multiset<T>, r: multiset<T>, r1: multiset<T>,
                           h: multiset<T>, h1: multiset<T>) {
    || (p1 == p + h1 && r1 == r && h == multiset{})
    || (p1 == p && r1 == r + h && h1 == multiset{})
    || (p1 == p && r1 == r && h1 == h)
  }

  lemma {:induction false} MovesKeep<T>(p: multiset<T>, p1: multiset<T>, r: multiset<T>, r1: multiset<T>,
                                        f: multiset<T>, f1: multiset<T>, h: multiset<T>, h1: multiset<T>)
    requires p == r + f && f1 + h == f + h1 && Moves(p, p1, r, r1, h, h1)
    ensures p1 == r1 + f1
  {
    forall x: T ensures p1[x] == (r1 + f1)[x] {
      assert (f1 + h)[x] == (f + h1)[x] && (r + f)[x] == p[x];
    }
  }

  lemma {:induction false} ConservedWorker(s: State, i: nat)
    requires Conserved(s) && i < |s.workers| == |s.late|
    ensures Conserved(WorkerStep(s, i))
  {
    hide InFlight, Held, WorkerStep, Moves;
    var r := WorkerStep(s, i);
    OneWorker(s, i);
    InFlightUpdate(s.workers, i, r.workers[i]);
    HeldStep(s, i);
    MovesKeep(multiset(s.popped), multiset(r.popped), multiset(s.ran), multiset(r.ran),
              InFlight(s.workers), InFlight(r.workers), Held(i, s.workers[i]), Held(i, r.workers[i]));
    QueueStep(s, i);
  }

  /** What is taken is the front of the queue. */
  lemma {:induction false} QueueStep(s: State, i: nat)
    requires i < |s.workers| == |s.late|
    ensures var r := WorkerStep(s, i); Tasks(r.popped) + r.tasks == Tasks(s.popped) + s.tasks
  {
    if s.workers[i] == Taking && s.tasks != [] {
      var r := WorkerStep(s, i);
      assert r.popped[..|s.popped|] == s.popped;
      assert s.tasks == [s.tasks[0]] + s.tasks[1..];
      assert Tasks(s.popped) + [s.tasks[0]] + s.tasks[1..] == Tasks(s.popped) + ([s.tasks[0]] + s.tasks[1..]);
    }
  }

  lemma {:induction false} HeldStep(s: State, i: nat)
    requires i < |s.workers| == |s.late|
    ensures var r := WorkerStep(s, i);
            Moves(multiset(s.popped), multiset(r.popped), multiset(s.ran), multiset(r.ran),
                  Held(i, s.workers[i]), Held(i, r.workers[i]))
  {
    hide WorkerStep;
    var r := WorkerStep(s, i);
    OneWorker(s, i);
    HistoryStep(s, i);
  }

  /** The history records who takes and who runs a task. */
  lemma {:induction false} HistoryStep(s: State, i: nat)
    requires i < |s.workers| == |s.late|
    ensures var r := WorkerStep(s, i);
            var w, w1 := s.workers[i], r.workers[i];
            || (w == Taking && w1.Took? && r.popped == s.popped + [(i, w1.task)] && r.ran == s.ran)
            || (w.Working? && w1 == Worked && r.popped == s.popped && r.ran == s.ran + [(i, w.task)])
            || (r.popped == s.popped && r.ran == s.ran && Held(i, w1) == Held(i, w))
  {
  }

  lemma {:induction false} ConservedClient(s: State, a: Action)
    requires Conserved(s) && Enabled(s, a) && !a.Work? && |s.late| == |s.workers|
    ensures Conserved(Next(s, a))
  {
    hide Tasks;
    InFlightTesting(s.workers);
    if a == Go && s.client.Pushing? {
      var t := s.client.task;
      assert Tasks(s.popped) + (s.tasks + [t]) == Tasks(s.popped) + s.tasks + [t];
    }
  }

  lemma {:induction false} InFlightTesting(ws: seq<Worker>)
    ensures InFlight(ws + [Testing]) == InFlight(ws)
  {
    assert (ws + [Testing])[..|ws|] == ws;
  }

  lemma {:induction false} ExclusiveWorker(s: State, i: nat)
    requires Exclusive(s) && i < |s.workers| == |s.late| && Enabled(s, Work(i))
    ensures Exclusive(WorkerStep(s, i))
  {
    var r := WorkerStep(s, i);
    OneWorker(s, i);
    if s.workers[i] != Locking && !HasMutex(s.workers[i]) {
      assert r.mutex == s.mutex && r.tasks == s.tasks && !HasMutex(r.workers[i]);
    }
  }

  lemma {:induction false} ExclusiveClient(s: State, a: Action)
    requires Exclusive(s) && Enabled(s, a) && !a.Work? && |s.late| == |s.workers|
    ensures Exclusive(Next(s, a))
  {
  }

  lemma {:induction false} ShutsDownWorker(s: State, i: nat)
    requires ShutsDown(s) && i < |s.workers| && Enabled(s, Work(i))
    ensures ShutsDown(WorkerStep(s, i))
  {
    var r := WorkerStep(s, i);
    OneWorker(s, i);
    if s.workers[i] != Taking {
      assert r.late == s.late;
    }
  }

  lemma {:induction false} ShutsDownClient(s: State, a: Action)
    requires ShutsDown(s) && Enabled(s, a) && !a.Work?
    ensures ShutsDown(Next(s, a))
  {
  }

  // ----- all runs -----

  /** The state after a run of enabled actions. */
  function Run(s: State, acts: seq<Action>): (r: Option<State>)
    requires |s.late| == |s.workers|
    ensures r.Some? ==> |r.value.late| == |r.value.workers|
    decreases |acts|
  {
    if acts == [] then Some(s)
    else if !Enabled(s, acts[0]) then None
    else Run(Next(s, acts[0]), acts[1..])
  }

  lemma {:induction false} StepKeeps(s: State, a: Action)
    requires Invariant(s) && Enabled(s, a)
    ensures Invariant(Next(s, a))
  {
    hide Conserved, Accounted, Exclusive, WorkerStep;
    if a.Work? {
      ConservedWorker(s, a.worker);
      AccountedWorker(s, a.worker);
      ExclusiveWorker(s, a.worker);
      ShutsDownWorker(s, a.worker);
    } else {
      ConservedClient(s, a);
      AccountedClient(s, a);
      ExclusiveClient(s, a);
      ShutsDownClient(s, a);
    }
  }

  lemma {:induction false} RunKeeps(s: State, acts: seq<Action>)
    requires Invariant(s) && Run(s, acts).Some?
    ensures Invariant(Run(s, acts).value)
    decreases |acts|
  {
    hide Conserved, Accounted, Exclusive, Next, Enabled;
    if acts != [] {
      StepKeeps(s, acts[0]);
      RunKeeps(Next(s, acts[0]), acts[1..]);
    }
  }

  lemma {:induction false} InitialHolds(size: nat)
    ensures Invariant(Initial(size))
  {
  }

  ghost predicate Reachable(size: nat, s: State) {
    exists acts :: Run(Initial(size), acts) == Some(s)
  }

  lemma {:induction false} ReachableKeeps(size: nat, s: State)
    requires Reachable(size, s)
    ensures Invariant(s)
  {
    hide Run, Invariant;
    var acts :| Run(Initial(size), acts) == Some(s);
    InitialHolds(size);
    RunKeeps(Initial(size), acts);
  }

  /** Conservation, in every interleaving: the submitted tasks are the popped
      ones, in that order, followed by the queue; and what was popped was run
      exactly once by the worker that popped it or is in that worker's hand. */
  lemma {:induction false} Conservation(size: nat, s: State)
    requires Reachable(size, s)
    ensures Tasks(s.popped) <= s.submitted && s.tasks == s.submitted[|Tasks(s.popped)|..]
    ensures multiset(s.popped) == multiset(s.ran) + InFlight(s.workers)
    ensures forall i: nat, t: Task | i < |s.workers| && s.workers[i] == Working(t) :: (i, t) in multiset(s.popped)
  {
    hide Reachable, Tasks, Held;
    ReachableKeeps(size, s);
    forall i: nat, t: Task | i < |s.workers| && s.workers[i] == Working(t) ensures (i, t) in multiset(s.popped) {
      HeldInFlight(s.workers, i, t);
    }
  }

  lemma {:induction false} HeldInFlight(ws: seq<Worker>, i: nat, t: Task)
    requires i < |ws| && ws[i] == Working(t)
    ensures (i, t) in InFlight(ws)
  {
    if i < |ws| - 1 {
      HeldInFlight(ws[..|ws| - 1], i, t);
    }
  }

  /** Accounting, in every interleaving: never more than 16 threads, and idle
      count, busy workers and the pending increment add up to their number. */
  lemma {:induction false} Accounting(size: nat, s: State)
    requires Reachable(size, s)
    ensures |s.workers| <= 16 && s.idle + Busy(s.workers) + PendingIncrement(s.client) == |s.workers|
    ensures -1 <= s.idle <= |s.workers|
  {
    hide Reachable, Busy, Conserved, Exclusive;
    ReachableKeeps(size, s);
    BusyAtMost(s.workers);
  }

  lemma {:induction false} BusyAtMost(ws: seq<Worker>)
    ensures Busy(ws) <= |ws|
  {
    if ws != [] {
      BusyAtMost(ws[..|ws| - 1]);
    }
  }

  /** Mutual exclusion, and no pop of an empty queue. */
  lemma {:induction false} Exclusion(size: nat, s: State)
    requires Reachable(size, s)
    ensures forall i, j | 0 <= i < |s.workers| && 0 <= j < |s.workers| && HasMutex(s.workers[i]) && HasMutex(s.workers[j])
                          :: i == j
    ensures forall i | 0 <= i < |s.workers| && s.workers[i] == Taking :: s.tasks != []
  {
    hide Reachable, Conserved, Accounted;
    ReachableKeeps(size, s);
  }

  /** Shutdown: once the flag is cleared each worker takes at most one more task,
      and when all joins have returned every popped task has been run. */
  lemma {:induction false} Shutdown(size: nat, s: State)
    requires Reachable(size, s)
    ensures forall i | 0 <= i < |s.late| :: s.late[i] <= 1
    ensures s.client == Gone ==> (forall i | 0 <= i < |s.workers| :: s.workers[i] == Exited)
    ensures s.client == Gone ==> multiset(s.popped) == multiset(s.ran)
  {
    hide Reachable, Accounted, Exclusive;
    ReachableKeeps(size, s);
    if s.client == Gone {
      NoneInFlight(s.workers);
    }
  }

  lemma {:induction false} NoneInFlight(ws: seq<Worker>)
    requires forall i | 0 <= i < |ws| :: ws[i] == Exited
    ensures InFlight(ws) == multiset{}
  {
    if ws != [] {
      NoneInFlight(ws[..|ws| - 1]);
    }
  }

  // ----- how many threads are started -----

  /** The client goes on with the call that it is in, and workers run. */
  predicate Quiet(acts: seq<Action>) {
    forall i | 0 <= i < |acts| :: acts[i].Work? || acts[i] == Go
  }

  predicate IsGrowing(c: Client) {
    c == Ready || c.Growing? || c.Counting?
  }

  function AtMost(n: nat, max: nat): nat {
    if n <= max then n else max
  }

  /** The number of threads when the client will be ready. */
  function Grown(s: State): nat
    requires IsGrowing(s.client)
  {
    match s.client
    case Growing(n) => AtMost(|s.workers| + n, 16)
    case Counting(n) => AtMost(|s.workers| + n, 16)
    case _ => |s.workers|
  }

  lemma {:induction false} GrowingStep(s: State, a: Action)
    requires Invariant(s) && IsGrowing(s.client) && Enabled(s, a) && (a.Work? || a == Go)
    ensures var r := Next(s, a); IsGrowing(r.client) && Grown(r) == Grown(s) && r.submitted == s.submitted
  {
    hide Conserved, Exclusive, ShutsDown, Busy, WorkerStep;
    if a.Work? {
      assert ShutsDown(s);
      LateWorkers(s);
      OneWorker(s, a.worker);
    }
  }

  lemma {:induction false} LateWorkers(s: State)
    requires ShutsDown(s)
    ensures |s.late| == |s.workers| && (s.client == Ready ==> s.running)
  {
  }

  lemma {:induction false} GrowingRun(s: State, acts: seq<Action>)
    requires Invariant(s) && IsGrowing(s.client) && Quiet(acts) && Run(s, acts).Some?
    ensures var r := Run(s, acts).value; IsGrowing(r.client) && Grown(r) == Grown(s) && r.submitted == s.submitted
    decreases |acts|
  {
    hide Conserved, Accounted, Exclusive, Next, Enabled, Grown;
    if acts != [] {
      StepKeeps(s, acts[0]);
      GrowingStep(s, acts[0]);
      GrowingRun(Next(s, acts[0]), acts[1..]);
    }
  }

  /** The constructor starts as many threads as asked for, up to 16. */
  lemma {:induction false} ConstructorStarts(size: nat, acts: seq<Action>, r: State)
    requires Quiet(acts) && Run(Initial(size), acts) == Some(r) && r.client == Ready
    ensures |r.workers| == if size <= 16 then size else 16
  {
    hide Run, Invariant;
    InitialHolds(size);
    GrowingRun(Initial(size), acts);
  }

  /** So does every call of `expand`, beyond the threads there are. */
  lemma {:induction false} ExpandStarts(size: nat, s: State, n: nat, acts: seq<Action>, r: State)
    requires Reachable(size, s) && s.client == Ready && Quiet(acts)
    requires Run(Next(s, CallExpand(n)), acts) == Some(r) && r.client == Ready
    ensures |r.workers| == if |s.workers| + n <= 16 then |s.workers| + n else 16
  {
    hide Run, Reachable, Conserved, Accounted, Exclusive;
    ReachableKeeps(size, s);
    StepKeeps(s, CallExpand(n));
    GrowingRun(Next(s, CallExpand(n)), acts);
  }

  /** From the push to the end of the call, through the place where the idle
      count is read. */
  ghost predicate Weighed(s: State, acts: seq<Action>, k: nat, r: State)
    requires |s.late| == |s.workers|
  {
    && k < |acts| && acts[k] == Go && Run(s, acts[..k]).Some?
    && var w := Run(s, acts[..k]).value;
       && w.client == Weighing && |w.workers| == |s.workers|
       && |r.workers| == |s.workers| + if w.idle < 1 && |s.workers| < 16 then 1 else 0
  }

  lemma {:induction false} WeighingRun(s: State, acts: seq<Action>) returns (k: nat)
    requires Invariant(s) && (s.client.Pushing? || s.client == Weighing) && Quiet(acts)
    requires Run(s, acts).Some? && Run(s, acts).value.client == Ready
    ensures Weighed(s, acts, k, Run(s, acts).value)
    ensures Run(s, acts).value.submitted == s.submitted + if s.client.Pushing? then [s.client.task] else []
    decreases |acts|
  {
    hide Conserved, Accounted, Exclusive, WorkerStep;
    LateWorkers(s);
    var a := acts[0];
    var s1 := Next(s, a);
    StepKeeps(s, a);
    if a.Work? {
      OneWorker(s, a.worker);
    }
    if s.client == Weighing && a == Go {
      k := 0;
      assert acts[..0] == [];
      WeighingStep(s);
      GrowingRun(s1, acts[1..]);
    } else {
      k := WeighingRun(s1, acts[1..]);
      WeighedLater(s, acts, k);
      k := k + 1;
    }
  }

  lemma {:induction false} WeighingStep(s: State)
    requires Accounted(s) && s.client == Weighing
    ensures var r := ClientStep(s);
            IsGrowing(r.client) && Grown(r) == |s.workers| + if s.idle < 1 && |s.workers| < 16 then 1 else 0
  {
  }

  lemma {:induction false} WeighedLater(s: State, acts: seq<Action>, k: nat)
    requires |s.late| == |s.workers| && acts != [] && Enabled(s, acts[0]) && k <= |acts| - 1
    ensures Run(s, acts[..k + 1]) == Run(Next(s, acts[0]), acts[1..][..k])
  {
    assert acts[..k + 1][1..] == acts[1..][..k];
  }

  /** `exec` puts its task at the end of the queue and starts one thread exactly
      when the idle count that it reads is below 1 and there are fewer than 16. */
  lemma {:induction false} ExecStarts(size: nat, s: State, t: Task, acts: seq<Action>, r: State) returns (k: nat)
    requires Reachable(size, s) && s.client == Ready && Quiet(acts)
    requires Run(Next(s, CallExec(t)), acts) == Some(r) && r.client == Ready
    ensures Weighed(Next(s, CallExec(t)), acts, k, r)
    ensures |Next(s, CallExec(t)).workers| == |s.workers| && r.submitted == s.submitted + [t]
  {
    hide Run, Reachable, Conserved, Accounted, Exclusive, Weighed;
    ReachableKeeps(size, s);
    LateWorkers(s);
    StepKeeps(s, CallExec(t));
    k := WeighingRun(Next(s, CallExec(t)), acts);
  }

  // ----- no deadlock -----

  /** Until the client has gone or is free to call, some thread can take a step;
      a worker in its wait may be the one, woken by whatever wakes it. */
  lemma {:induction false} Progress(size: nat, s: State)
    requires Reachable(size, s) && s.client != Ready && s.client != Gone
    ensures exists a :: Enabled(s, a) && (a.Work? || a == Go)
  {
    hide Reachable, Invariant, Enabled;
    ReachableKeeps(size, s);
    StateProgress(s);
  }

  lemma {:induction false} StateProgress(s: State)
    requires Invariant(s) && s.client != Ready && s.client != Gone
    ensures exists a :: Enabled(s, a) && (a.Work? || a == Go)
  {
    hide Conserved, Accounted;
    if Enabled(s, Go) {
    } else {
      if s.mutex.Some? {
        assert Enabled(s, Work(s.mutex.value));
      } else {
        assert Enabled(s, Work(s.client.next));
      }
    }
  }

  // ----- taking tasks, and the end -----

  /** A worker that has the mutex takes the front task, if there is one, and
      otherwise, while the pool is running, waits without the mutex. */
  lemma {:induction false} WorkerTakes(size: nat, s: State, i: nat)
    requires Reachable(size, s) && i < |s.workers| && s.workers[i] == Holding
    ensures s.tasks != [] ==>
              var r := Run(s, [Work(i), Work(i), Work(i)]);
              r.Some? && r.value.workers == s.workers[i := Took(s.tasks[0])] && r.value.mutex.None?
              && r.value.tasks == s.tasks[1..]
    ensures s.tasks == [] && s.running ==>
              Next(s, Work(i)) == s.(workers := s.workers[i := Sleeping], mutex := None)
  {
    hide Reachable, Conserved, Accounted, Exclusive, Run;
    ReachableKeeps(size, s);
    if s.tasks != [] {
      var s1 := Next(s, Work(i));
      var s2 := Next(s1, Work(i));
      var s3 := Next(s2, Work(i));
      assert s1.workers[i] == Checking && s2.workers[i] == Taking && s3.workers[i] == Took(s.tasks[0]);
      assert s3.workers == s.workers[i := Took(s.tasks[0])];
      RunThree(s, i);
    }
  }

  lemma {:induction false} RunThree(s: State, i: nat)
    requires |s.late| == |s.workers| && Enabled(s, Work(i))
    requires Enabled(Next(s, Work(i)), Work(i)) && Enabled(Next(Next(s, Work(i)), Work(i)), Work(i))
    ensures Run(s, [Work(i), Work(i), Work(i)]) == Some(Next(Next(Next(s, Work(i)), Work(i)), Work(i)))
  {
    hide Next, Enabled, Run;
    var a := Work(i);
    var s1 := Next(s, a);
    var s2 := Next(s1, a);
    var s3 := Next(s2, a);
    RunNothing(s3);
    RunNext(s2, a, [], s3);
    RunNext(s1, a, [a] + [], s3);
    RunNext(s, a, [a] + ([a] + []), s3);
    assert [a] + ([a] + ([a] + [])) == [a, a, a];
  }

  /** How many steps a worker can take once the flag is cleared. */
  function StepsLeft(w: Worker): nat {
    match w
    case Sleeping => 9
    case Locking => 8
    case Holding => 7
    case Checking => 6
    case Taking => 5
    case Took(_) => 4
    case Working(_) => 3
    case Worked => 2
    case Testing => 1
    case Exited => 0
  }

  function AllStepsLeft(ws: seq<Worker>): nat {
    if ws == [] then 0 else AllStepsLeft(ws[..|ws| - 1]) + StepsLeft(ws[|ws| - 1])
  }

  function JoinsLeft(s: State): nat {
    match s.client
    case Joining(k) => if k <= |s.workers| then |s.workers| - k + 1 else 0
    case _ => 0
  }

  lemma {:induction false} StepsUpdate(ws: seq<Worker>, i: nat, w: Worker)
    requires i < |ws|
    ensures AllStepsLeft(ws[i := w]) + StepsLeft(ws[i]) == AllStepsLeft(ws) + StepsLeft(w)
  {
    hide StepsLeft;
    var n := |ws| - 1;
    if i < n {
      assert ws[i := w][..n] == ws[..n][i := w];
      StepsUpdate(ws[..n], i, w);
    } else {
      assert ws[i := w][..n] == ws[..n];
    }
  }

  lemma {:induction false} StepsAtMost(ws: seq<Worker>)
    ensures AllStepsLeft(ws) <= 9 * |ws|
  {
    if ws != [] {
      StepsAtMost(ws[..|ws| - 1]);
    }
  }

  /** Once the flag is cleared every step brings the end nearer. */
  lemma {:induction false} NearerEnd(s: State, a: Action)
    requires Invariant(s) && !s.running && Enabled(s, a)
    ensures var r := Next(s, a);
            !r.running && AllStepsLeft(r.workers) + JoinsLeft(r) < AllStepsLeft(s.workers) + JoinsLeft(s)
  {
    hide Conserved, Accounted, AllStepsLeft;
    if a.Work? {
      OneWorker(s, a.worker);
      StepsUpdate(s.workers, a.worker, WorkerStep(s, a.worker).workers[a.worker]);
    }
  }

  lemma {:induction false} EndBound(s: State, acts: seq<Action>)
    requires Invariant(s) && !s.running && Run(s, acts).Some?
    ensures |acts| <= AllStepsLeft(s.workers) + JoinsLeft(s) && !Run(s, acts).value.running
    decreases |acts|
  {
    hide Conserved, Accounted, Exclusive, Next, Enabled, AllStepsLeft, JoinsLeft;
    if acts != [] {
      StepKeeps(s, acts[0]);
      NearerEnd(s, acts[0]);
      EndBound(Next(s, acts[0]), acts[1..]);
    }
  }

  /** The destructor ends: after its call no run is longer than ten steps for
      each worker and one more, and a run that cannot go on has ended with the
      client gone, provided that waiting workers wake. */
  lemma {:induction false} DestructorEnds(size: nat, s: State, acts: seq<Action>, r: State)
    requires Reachable(size, s) && s.client == Ready && Run(Next(s, CallDestroy), acts) == Some(r)
    ensures |acts| <= 10 * |s.workers| + 1
    ensures r.client == Gone || exists a :: Enabled(r, a) && (a.Work? || a == Go)
  {
    hide Reachable, Run, Conserved, Accounted, Exclusive, AllStepsLeft;
    ReachableKeeps(size, s);
    var d := Next(s, CallDestroy);
    StepKeeps(s, CallDestroy);
    EndBound(d, acts);
    StepsAtMost(s.workers);
    RunKeeps(d, acts);
    if r.client != Gone {
      StateProgress(r);
    }
  }

  // ----- what the destructor leaves behind -----

  /** Past the test of the flag and before taking a task: such a worker takes
      one more task if it finds one, although the flag is cleared meanwhile. */
  predicate IsCommitted(w: Worker) {
    w.Locking? || w.Holding? || w.Sleeping? || w.Checking? || w.Taking?
  }

  function Committed(ws: seq<Worker>): nat {
    if ws == [] then 0 else Committed(ws[..|ws| - 1]) + if IsCommitted(ws[|ws| - 1]) then 1 else 0
  }

  /** The queued tasks that no committed worker is left for. */
  function Excess(s: State): nat {
    if |s.tasks| <= Committed(s.workers) then 0 else |s.tasks| - Committed(s.workers)
  }

  lemma {:induction false} CommittedUpdate(ws: seq<Worker>, i: nat, w: Worker)
    requires i < |ws|
    ensures Committed(ws[i := w]) + (if IsCommitted(ws[i]) then 1 else 0) ==
            Committed(ws) + if IsCommitted(w) then 1 else 0
  {
    var n := |ws| - 1;
    if i < n {
      assert ws[i := w][..n] == ws[..n][i := w];
      CommittedUpdate(ws[..n], i, w);
    } else {
      assert ws[i := w][..n] == ws[..n];
    }
  }

  /** Once the flag is cleared no step changes the excess, and tasks leave the
      queue at its front only. */
  lemma {:induction false} ExcessStays(s: State, a: Action)
    requires Invariant(s) && !s.running && Enabled(s, a)
    ensures var r := Next(s, a);
            && Excess(r) == Excess(s) && !r.running && r.submitted == s.submitted
            && |r.tasks| <= |s.tasks| && r.tasks == s.tasks[|s.tasks| - |r.tasks|..]
  {
    hide Conserved, Accounted, Committed;
    if a.Work? {
      OneWorker(s, a.worker);
      CommittedUpdate(s.workers, a.worker, WorkerStep(s, a.worker).workers[a.worker]);
    }
  }

  lemma {:induction false} ExcessKept(s: State, acts: seq<Action>)
    requires Invariant(s) && !s.running && Run(s, acts).Some?
    ensures var r := Run(s, acts).value;
            && Excess(r) == Excess(s) && r.submitted == s.submitted
            && |r.tasks| <= |s.tasks| && r.tasks == s.tasks[|s.tasks| - |r.tasks|..]
    decreases |acts|
  {
    hide Conserved, Accounted, Exclusive, Excess, Next, Enabled;
    if acts != [] {
      var s1 := Next(s, acts[0]);
      StepKeeps(s, acts[0]);
      ExcessStays(s, acts[0]);
      ExcessKept(s1, acts[1..]);
      var r := Run(s1, acts[1..]).value;
      assert s1.tasks[|s1.tasks| - |r.tasks|..] == s.tasks[|s.tasks| - |r.tasks|..];
    }
  }

  lemma {:induction false} NoneCommitted(ws: seq<Worker>)
    requires forall i | 0 <= i < |ws| :: ws[i] == Exited
    ensures Committed(ws) == 0
  {
    if ws != [] {
      NoneCommitted(ws[..|ws| - 1]);
    }
  }

  lemma {:induction false} TasksLength(ps: seq<(nat, Task)>)
    ensures |Tasks(ps)| == |ps|
  {
    if ps != [] {
      TasksLength(ps[..|ps| - 1]);
    }
  }

  /** What the destructor does with the tasks queued when it is called, in every
      interleaving: it leaves exactly those behind that exceed the workers
      committed at that moment, the last ones of the queue; every other
      submitted task has been run when it returns. So all submitted tasks are
      run if and only if the queue is no longer than there are such workers. */
  lemma {:induction false} DestructorRuns(size: nat, s: State, acts: seq<Action>, r: State)
    requires Reachable(size, s) && s.client == Ready
    requires Run(Next(s, CallDestroy), acts) == Some(r) && r.client == Gone
    ensures r.submitted == s.submitted && r.tasks == s.tasks[|s.tasks| - Excess(s)..]
    ensures multiset(r.popped) == multiset(r.ran) && |r.ran| + Excess(s) == |r.submitted|
    ensures |r.ran| == |r.submitted| <==> |s.tasks| <= Committed(s.workers)
  {
    hide Reachable, Run, Committed, Conserved, Tasks, InFlight, Accounted, Exclusive;
    ReachableKeeps(size, s);
    var d := Next(s, CallDestroy);
    StepKeeps(s, CallDestroy);
    assert Excess(d) == Excess(s);
    RunKeeps(d, acts);
    ExcessKept(d, acts);
    NoneCommitted(r.workers);
    AllRun(r);
  }

  lemma {:induction false} AllRun(s: State)
    requires Conserved(s) && forall i | 0 <= i < |s.workers| :: s.workers[i] == Exited
    ensures multiset(s.popped) == multiset(s.ran) && |s.ran| + |s.tasks| == |s.submitted|
  {
    hide Tasks, InFlight;
    NoneInFlight(s.workers);
    TasksLength(s.popped);
    assert |multiset(s.popped)| == |s.popped| && |multiset(s.ran)| == |s.ran|;
  }

  // ----- a run that leaves a task behind -----

  /** A pool of one thread that has not run yet, with the task 7 submitted. */
  const Loaded := State(true, 1, None, [7], [Testing], Ready, [7], [], [], [0])
  const Dropped := State(false, 1, None, [7], [Exited], Gone, [7], [], [], [0])

  lemma {:induction false} RunNext(s: State, a: Action, acts: seq<Action>, r: State)
    requires |s.late| == |s.workers| && Enabled(s, a) && Run(Next(s, a), acts) == Some(r)
    ensures Run(s, [a] + acts) == Some(r)
  {
    assert ([a] + acts)[1..] == acts;
  }

  lemma {:induction false} LoadedToDropped()
    ensures Run(Loaded, [CallDestroy] + ([Work(0)] + ([Go] + ([Go] + [])))) == Some(Dropped)
  {
    hide Run;
    var joining := Dropped.(client := Joining(0));
    assert Run(Dropped, []) == Some(Dropped) by { RunNothing(Dropped); }
    RunNext(Dropped.(client := Joining(1)), Go, [], Dropped);
    RunNext(joining, Go, [Go] + [], Dropped);
    assert [Testing][0 := Exited] == [Exited];
    RunNext(joining.(workers := [Testing]), Work(0), [Go] + ([Go] + []), Dropped);
    RunNext(Loaded, CallDestroy, [Work(0)] + ([Go] + ([Go] + [])), Dropped);
  }

  lemma {:induction false} RunNothing(s: State)
    requires |s.late| == |s.workers|
    ensures Run(s, []) == Some(s)
  {
  }

  lemma {:induction false} InitialToLoaded(acts: seq<Action>)
    requires Run(Loaded, acts) == Some(Dropped)
    ensures Reachable(1, Dropped)
  {
    hide Run;
    var empty := Loaded.(tasks := [], submitted := []);
    RunNext(Loaded.(client := Weighing), Go, acts, Dropped);
    assert [] + [7] == [7];
    RunNext(empty.(client := Pushing(7)), Go, [Go] + acts, Dropped);
    RunNext(empty, CallExec(7), [Go] + ([Go] + acts), Dropped);
    var a3 := [CallExec(7)] + ([Go] + ([Go] + acts));
    RunNext(empty.(client := Growing(0)), Go, a3, Dropped);
    RunNext(empty.(client := Counting(0), idle := 0), Go, [Go] + a3, Dropped);
    assert [] + [Testing] == [Testing] && [] + [0] == [0];
    RunNext(Initial(1), Go, [Go] + ([Go] + a3), Dropped);
  }

  /** The destructor does not empty the queue: a task submitted before it can be
      left behind when all threads have been joined. */
  lemma {:induction false} ShutdownLeavesTask()
    ensures exists s :: Reachable(1, s) && s.client == Gone && s.submitted == [7] && s.popped == [] && s.tasks == [7]
  {
    hide Reachable, Run;
    LoadedToDropped();
    InitialToLoaded([CallDestroy] + ([Work(0)] + ([Go] + ([Go] + []))));
    assert Reachable(1, Dropped);
  }
}
