/** The parallel search as a step machine: N worker threads and the main thread, three mutexes,
    a directory queue, a FIFO queue of idle threads and one condition variable per worker.

    A step is one lock operation, or one statement group that touches data another thread may
    read without holding the same lock. Statements that only touch data guarded by the lock their
    thread already holds are grouped with their neighbour. A waiting thread resumes only after a
    signal on its own condition variable, and then competes for the mutex again. */
module SearchProtocol {
  import opened SearchTree

  /** Who holds a mutex. */
  datatype Owner = Free | ByMain | By(t: nat)

  /** A worker's `dir_to_handle`. `malloc` leaves it unset; `thread_enqueue` sets it to NULL. */
  datatype Gift = Unset | NoGift | Gift(job: Job)

  /** Where a worker is. The comments give line numbers of hw4_os/pfind.c. */
  datatype PC =
    | StartLock                                       // 275, and 279 after the broadcast
    | StartTest                                       // 276
    | StartWait                                       // 279, waiting on search_cv
    | StartUnlock                                     // 281
    | LockQueue                                       // 380
    | SleepTest                                       // 381
    | LockFinish                                      // 384
    | Enqueue                                         // 386-389
    | SignalFinish                                    // 395
    | UnlockFinish                                    // 396
    | ReadyTest                                       // 398
    | RaiseReady                                      // 405-412
    | Asleep                                          // 410 or 417, waiting on queue_cv[t]
    | Woken                                           // 410 or 417, signalled, wants queue_mutex
    | ExitTest                                        // 419
    | ExitUnlock                                      // 423
    | Done                                            // 424
    | Claim                                           // 426-436
    | ClaimUnlock(job: Job)                           // 437
    | Open(job: Job)                                  // 442
    | Scan(job: Job, rest: seq<Node>)                 // 288
    | PublishLock(job: Job, rest: seq<Node>, sub: Job)   // 307
    | Publish(job: Job, rest: seq<Node>, sub: Job)       // 313-327
    | PublishUnlock(job: Job, rest: seq<Node>)           // 328
    | FailLock(job: Job, rest: seq<Node>)             // 84
    | FailCount(job: Job, rest: seq<Node>)            // 85
    | FailSignal(job: Job, rest: seq<Node>)           // 87
    | FailUnlock(job: Job, rest: seq<Node>)           // 88
    | Failed(job: Job, rest: seq<Node>)               // 89

  datatype MainPC =
    | MainLockSearch                                  // 525
    | MainRaiseSearch                                 // 526
    | MainBroadcast                                   // 527
    | MainUnlockSearch                                // 528
    | MainLockFinish                                  // 530
    | MainReadDirs                                    // 535, first operand
    | MainReadIdle                                    // 535, g_thread_queue.count
    | MainReadFailed(idleSeen: nat)                   // 535, g_failed_threads in the sum
    | MainReadAllFailed                               // 535, last operand
    | MainWaiting                                     // 537, waiting on finish_cv
    | MainWoken                                       // 537, signalled, wants finish_mutex
    | MainStop                                        // 539
    | MainLockQueue                                   // 546
    | MainSignalAll(next: nat)                        // 547-550
    | MainUnlockQueue                                 // 551
    | MainUnlockFinish                                // 552
    | MainJoin(next: nat)                             // 555-558
    | MainPrint                                       // 560
    | MainPrinted(shown: nat)                         // 562-578

  datatype Worker = Worker(pc: PC, gift: Gift)

  datatype State = State(
    term: string, root: Job,
    searching: bool,                                  // g_is_search
    ready: bool,                                      // g_all_threads_ready
    found: nat,                                       // g_files_found
    failed: nat,                                      // g_failed_threads
    searchLock: Owner, finishLock: Owner, queueLock: Owner,
    dirs: seq<Job>,                                   // g_dir_queue, oldest first
    idle: seq<nat>,                                   // g_thread_queue, longest idle first
    workers: seq<Worker>,
    main: MainPC,
    // history, never read by a step
    log: seq<Event>,                                  // directories finished and paths printed
    order: seq<nat>,                                  // every thread_enqueue so far
    claims: seq<(nat, Job)>,                          // every directory taken up for scanning
    dead: set<nat>)                                   // the workers counted in `failed`

  /** One step of one thread; `fault` says that `opendir` or `stat` fails in it. */
  datatype Action = Main | Work(t: nat, fault: bool)

  /** `main_init` has created the workers, and the root is in the directory queue (lines 518-522). */
  function Init(term: string, root: Job, n: nat): State {
    State(term, root, false, false, 0, 0, Free, Free, Free, [root], [],
          seq(n, _ => Worker(StartLock, Unset)), MainLockSearch, [], [], [], {})
  }

  predicate Exited(pc: PC) {
    pc.Done? || pc.Failed?
  }

  predicate Enabled(s: State, a: Action) {
    match a
    case Main => (
      match s.main
      case MainLockSearch => s.searchLock == Free
      case MainLockFinish => s.finishLock == Free
      case MainWoken => s.finishLock == Free
      case MainLockQueue => s.queueLock == Free
      case MainJoin(i) => i < |s.workers| ==> Exited(s.workers[i].pc)
      case MainWaiting => false
      case MainPrinted(_) => false
      case _ => true)
    case Work(t, fault) =>
      && t < |s.workers|
      && (fault ==> MayFault(s.workers[t].pc))
      && match s.workers[t].pc
         case StartLock => s.searchLock == Free
         case LockQueue => s.queueLock == Free
         case Woken => s.queueLock == Free
         case PublishLock(_, _, _) => s.queueLock == Free
         case LockFinish => s.finishLock == Free
         case FailLock(_, _) => s.finishLock == Free
         case StartWait => false
         case Asleep => false
         case Done => false
         case Failed(_, _) => false
         case _ => true
  }

  predicate MayFault(pc: PC) {
    pc.Open? || (pc.Scan? && pc.rest != [] && !IsDot(pc.rest[0].name))
  }

  /** What the code takes for granted: queues it dequeues from are not empty, `dir_to_handle` is
      initialised before it is read, threads named by the idle queue exist, and a mutex is released
      only by its owner. */
  predicate Safe(s: State, a: Action) {
    match a
    case Main => (
      match s.main
      case MainUnlockSearch => s.searchLock == ByMain
      case MainReadDirs => s.finishLock == ByMain
      case MainReadAllFailed => s.finishLock == ByMain
      case MainUnlockQueue => s.queueLock == ByMain
      case MainUnlockFinish => s.finishLock == ByMain
      case _ => true)
    case Work(t, _) =>
      t < |s.workers| ==>
        match s.workers[t].pc
        case StartTest => s.searchLock == By(t)
        case StartUnlock => s.searchLock == By(t)
        case SleepTest => s.searching && s.ready && s.dirs == [] ==> !s.workers[t].gift.Unset?
        case UnlockFinish => s.finishLock == By(t)
        case ReadyTest => s.queueLock == By(t)
        case RaiseReady => s.queueLock == By(t) && s.idle != [] && s.idle[0] < |s.workers|
        case ExitUnlock => s.queueLock == By(t)
        case Claim => !s.workers[t].gift.Unset? && (s.workers[t].gift.NoGift? ==> s.dirs != [])
        case ClaimUnlock(_) => s.queueLock == By(t)
        case Publish(_, _, _) => s.idle != [] ==> s.idle[0] < |s.workers|
        case PublishUnlock(_, _) => s.queueLock == By(t)
        case FailUnlock(_, _) => s.finishLock == By(t)
        case _ => true
  }

  function Goto(s: State, t: nat, pc: PC): State
    requires t < |s.workers|
  {
    s.(workers := s.workers[t := s.workers[t].(pc := pc)])
  }

  /** `pthread_cond_signal(&queue_cv[t])`: lost unless thread `t` is waiting. */
  function Signal(s: State, t: nat): State
    requires t < |s.workers|
  {
    if s.workers[t].pc.Asleep? then Goto(s, t, Woken) else s
  }

  /** `pthread_cond_signal(&finish_cv)`: lost unless main is waiting. */
  function SignalMain(s: State): State {
    if s.main.MainWaiting? then s.(main := MainWoken) else s
  }

  /** `pthread_cond_broadcast(&search_cv)` */
  function Broadcast(ws: seq<Worker>): seq<Worker> {
    seq(|ws|, i requires 0 <= i < |ws| => if ws[i].pc.StartWait? then ws[i].(pc := StartLock) else ws[i])
  }

  /** `should_thread_sleep` */
  predicate ShouldSleep(s: State, gift: Gift)
    requires s.searching && s.ready && s.dirs == [] ==> !gift.Unset?
  {
    s.searching && (!s.ready || (s.dirs == [] && gift.NoGift?))
  }

  function Next(s: State, a: Action): State
    requires Enabled(s, a) && Safe(s, a)
  {
    match a
    case Main => MainNext(s)
    case Work(t, fault) => WorkNext(s, t, fault)
  }

  function MainNext(s: State): State
    requires Enabled(s, Main) && Safe(s, Main)
  {
    match s.main
    case MainLockSearch => s.(searchLock := ByMain, main := MainRaiseSearch)
    case MainRaiseSearch => s.(searching := true, main := MainBroadcast)
    case MainBroadcast => s.(workers := Broadcast(s.workers), main := MainUnlockSearch)
    case MainUnlockSearch => s.(searchLock := Free, main := MainLockFinish)
    case MainLockFinish => s.(finishLock := ByMain, main := MainReadDirs)
    case MainReadDirs => s.(main := if s.dirs == [] then MainReadIdle else MainReadAllFailed)
    case MainReadIdle => s.(main := MainReadFailed(|s.idle|))
    case MainReadFailed(c) => s.(main := if c + s.failed == |s.workers| then MainStop else MainReadAllFailed)
    case MainReadAllFailed =>
      if s.failed != |s.workers| then s.(finishLock := Free, main := MainWaiting) else s.(main := MainStop)
    case MainWoken => s.(finishLock := ByMain, main := MainReadDirs)
    case MainStop => s.(searching := false, main := MainLockQueue)
    case MainLockQueue => s.(queueLock := ByMain, main := MainSignalAll(0))
    case MainSignalAll(i) =>
      if i < |s.workers| then Signal(s, i).(main := MainSignalAll(i + 1)) else s.(main := MainUnlockQueue)
    case MainUnlockQueue => s.(queueLock := Free, main := MainUnlockFinish)
    case MainUnlockFinish => s.(finishLock := Free, main := MainJoin(0))
    case MainJoin(i) => s.(main := if i < |s.workers| then MainJoin(i + 1) else MainPrint)
    case MainPrint => s.(main := MainPrinted(s.found))
  }

  function WorkNext(s: State, t: nat, fault: bool): State
    requires Enabled(s, Work(t, fault)) && Safe(s, Work(t, fault))
  {
    var pc := s.workers[t].pc;
    if pc.StartLock? || pc.StartTest? || pc.StartUnlock? || pc.LockQueue? then StartNext(s, t)
    else if pc.SleepTest? || pc.LockFinish? || pc.Enqueue? || pc.SignalFinish? || pc.UnlockFinish? || pc.ReadyTest?
    then IdleNext(s, t)
    else if pc.RaiseReady? then RaiseNext(s, t)
    else if pc.Woken? || pc.ExitTest? || pc.ExitUnlock? then LeaveNext(s, t)
    else if pc.Claim? then ClaimNext(s, t)
    else if pc.ClaimUnlock? then Goto(s.(queueLock := Free), t, Open(pc.job))
    else if pc.Open? then Goto(s, t, if fault then FailLock(pc.job, pc.job.listing) else Scan(pc.job, pc.job.listing))
    else if pc.Scan? then ScanNext(s, t, fault, pc.job, pc.rest)
    else if pc.PublishLock? || pc.Publish? || pc.PublishUnlock? then PublishNext(s, t)
    else FailNext(s, t)
  }

  /** `wait_for_start`, and the first lock of the search loop (lines 273-282, 380). */
  function StartNext(s: State, t: nat): State
    requires t < |s.workers|
    requires var pc := s.workers[t].pc; pc.StartLock? || pc.StartTest? || pc.StartUnlock? || pc.LockQueue?
  {
    match s.workers[t].pc
    case StartLock => Goto(s.(searchLock := By(t)), t, StartTest)
    case StartTest => if s.searching then Goto(s, t, StartUnlock) else Goto(s.(searchLock := Free), t, StartWait)
    case StartUnlock => Goto(s.(searchLock := Free), t, LockQueue)
    case LockQueue => Goto(s.(queueLock := By(t)), t, SleepTest)
  }

  /** Going to sleep (lines 381-398, 417). */
  function IdleNext(s: State, t: nat): State
    requires t < |s.workers| && Safe(s, Work(t, false))
    requires var pc := s.workers[t].pc;
      pc.SleepTest? || pc.LockFinish? || pc.Enqueue? || pc.SignalFinish? || pc.UnlockFinish? || pc.ReadyTest?
  {
    match s.workers[t].pc
    case SleepTest => Goto(s, t, if ShouldSleep(s, s.workers[t].gift) then LockFinish else ExitTest)
    case LockFinish => Goto(s.(finishLock := By(t)), t, Enqueue)
    case Enqueue =>
      if t in s.idle then Goto(s, t, SignalFinish)
      else s.(idle := s.idle + [t], order := s.order + [t], workers := s.workers[t := Worker(SignalFinish, NoGift)])
    case SignalFinish => SignalMain(Goto(s, t, UnlockFinish))
    case UnlockFinish => Goto(s.(finishLock := Free), t, ReadyTest)
    case ReadyTest =>
      if !s.ready && |s.idle| == |s.workers| then Goto(s, t, RaiseReady)
      else Goto(s.(queueLock := Free), t, Asleep)
  }

  /** The last thread to arrive lets the first one start (lines 405-412). */
  function RaiseNext(s: State, t: nat): State
    requires t < |s.workers| && s.idle != [] && s.idle[0] < |s.workers|
  {
    var s1 := s.(ready := true, idle := s.idle[1..]);
    if |s.workers| != 1 then Goto(Signal(s1.(queueLock := Free), s.idle[0]), t, Asleep) else Goto(s1, t, SleepTest)
  }

  /** Waking up, and exiting when the search is over (lines 410, 417-425). */
  function LeaveNext(s: State, t: nat): State
    requires t < |s.workers| && var pc := s.workers[t].pc; pc.Woken? || pc.ExitTest? || pc.ExitUnlock?
  {
    match s.workers[t].pc
    case Woken => Goto(s.(queueLock := By(t)), t, SleepTest)
    case ExitTest => Goto(s, t, if s.searching then Claim else ExitUnlock)
    case ExitUnlock => Goto(s.(queueLock := Free), t, Done)
  }

  /** Taking up the directory handed over, or else the oldest queued one (lines 426-436). */
  function ClaimNext(s: State, t: nat): State
    requires t < |s.workers| && !s.workers[t].gift.Unset? && (s.workers[t].gift.NoGift? ==> s.dirs != [])
  {
    match s.workers[t].gift
    case Gift(job) => Goto(s.(claims := s.claims + [(t, job)]), t, ClaimUnlock(job))
    case NoGift => Goto(s.(dirs := s.dirs[1..], claims := s.claims + [(t, s.dirs[0])]), t, ClaimUnlock(s.dirs[0]))
  }

  /** Passing on a subdirectory: to the longest idle thread, or to the directory queue (lines 307-328). */
  function PublishNext(s: State, t: nat): State
    requires t < |s.workers| && var pc := s.workers[t].pc; pc.PublishLock? || pc.Publish? || pc.PublishUnlock?
    requires s.workers[t].pc.Publish? && s.idle != [] ==> s.idle[0] < |s.workers|
  {
    match s.workers[t].pc
    case PublishLock(job, rest, sub) => Goto(s.(queueLock := By(t)), t, Publish(job, rest, sub))
    case Publish(job, rest, sub) =>
      var s1 := Goto(s, t, PublishUnlock(job, rest));
      if s.idle != [] then
        var u := s.idle[0];
        Signal(s1.(idle := s.idle[1..], workers := s1.workers[u := s1.workers[u].(gift := Gift(sub))]), u)
      else s1.(dirs := s.dirs + [sub])
    case PublishUnlock(job, rest) => Goto(s.(queueLock := Free), t, Scan(job, rest))
  }

  /** `thread_exit_on_error` (lines 84-89). */
  function FailNext(s: State, t: nat): State
    requires t < |s.workers|
    requires var pc := s.workers[t].pc; pc.FailLock? || pc.FailCount? || pc.FailSignal? || pc.FailUnlock?
  {
    match s.workers[t].pc
    case FailLock(job, rest) => Goto(s.(finishLock := By(t)), t, FailCount(job, rest))
    case FailCount(job, rest) => Goto(s.(failed := s.failed + 1, dead := s.dead + {t}), t, FailSignal(job, rest))
    case FailSignal(job, rest) => SignalMain(Goto(s, t, FailUnlock(job, rest)))
    case FailUnlock(job, rest) => Goto(s.(finishLock := Free), t, Failed(job, rest))
  }

  /** One turn of the `readdir` loop of `iterate_in_directory`, or its end (lines 288-347, 446-448). */
  function ScanNext(s: State, t: nat, fault: bool, job: Job, rest: seq<Node>): State
    requires t < |s.workers|
    requires fault ==> rest != []
  {
    if rest == [] then
      s.(log := s.log + [Scanned(job.path)], workers := s.workers[t := Worker(LockQueue, NoGift)])
    else
      var e, tail := rest[0], rest[1..];
      if fault then Goto(s, t, FailLock(job, rest))
      else if IsDot(e.name) then Goto(s, t, Scan(job, tail))
      else
        var path := Join(job.path, e.name);
        match e.kind
        case Folder(searchable, listing) =>
          Goto(s, t, if searchable then PublishLock(job, tail, Job(path, listing)) else Scan(job, tail))
        case Plain =>
          if Contains(e.name, s.term)
          then Goto(s.(found := s.found + 1, log := s.log + [Hit(path)]), t, Scan(job, tail))
          else Goto(s, t, Scan(job, tail))
  }

  /** `acts` is a run from `s`: every action is enabled where it is taken, and finds what it assumes. */
  ghost predicate Run(s: State, acts: seq<Action>)
    decreases |acts|
  {
    acts == [] || (Enabled(s, acts[0]) && Safe(s, acts[0]) && Run(Next(s, acts[0]), acts[1..]))
  }

  /** Where a run ends. */
  ghost function End(s: State, acts: seq<Action>): State
    requires Run(s, acts)
    decreases |acts|
  {
    if acts == [] then s else End(Next(s, acts[0]), acts[1..])
  }
}
