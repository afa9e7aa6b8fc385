/** Every step of every thread keeps the invariant. */
module SearchPreservation {
  import opened SearchTree
  import opened SearchProtocol
  import opened SearchInvariant

  /** Thread `t` moves to `w`; mutexes may change hands between `t` and nobody. */
  function Moved(s: State, t: nat, w: Worker, sl: Owner, fl: Owner, ql: Owner): State
    requires t < |s.workers|
  {
    s.(workers := s.workers[t := w], searchLock := sl, finishLock := fl, queueLock := ql)
  }

  /** A mutex before and after a step of `t` that holds it afterwards just if `held`. */
  predicate Passes(before: Owner, after: Owner, t: nat, held: bool) {
    && (after == By(t) <==> held)
    && (after == before || ((before == Free || before == By(t)) && (after == Free || after == By(t))))
  }

  predicate FairMove(s: State, t: nat, w: Worker, sl: Owner, fl: Owner, ql: Owner)
    requires t < |s.workers|
  {
    var pc := s.workers[t].pc;
    && Passes(s.searchLock, sl, t, HoldsSearch(w.pc))
    && Passes(s.finishLock, fl, t, HoldsFinish(w.pc))
    && Passes(s.queueLock, ql, t, HoldsQueue(w.pc))
    && RoleOk(ModeOf(s), t, w, t in s.idle)
    && Counted(pc) == Counted(w.pc)
    && !Exited(pc)
    && StartOk(s.main, w.pc)
    && (Settling(pc) && !s.ready && |s.idle| == |s.workers| ==> Settling(w.pc))
    && (pc.SignalFinish? || pc.FailSignal? ==> !s.main.MainWaiting?)
    && (w.pc.Asleep? || w.pc.ReadyTest? ==> !Stopped(s.main) || s.main.MainLockQueue?)
  }

  lemma MoveLocks(s: State, t: nat, w: Worker, sl: Owner, fl: Owner, ql: Owner)
    requires Locks(s) && t < |s.workers| && FairMove(s, t, w, sl, fl, ql)
    ensures Locks(Moved(s, t, w, sl, fl, ql))
  {
  }

  lemma MoveRoles(s: State, t: nat, w: Worker, sl: Owner, fl: Owner, ql: Owner)
    requires Roles(s) && t < |s.workers| && FairMove(s, t, w, sl, fl, ql)
    ensures Roles(Moved(s, t, w, sl, fl, ql))
  {
    assert ModeOf(Moved(s, t, w, sl, fl, ql)) == ModeOf(s);
  }

  lemma MoveQueues(s: State, t: nat, w: Worker, sl: Owner, fl: Owner, ql: Owner)
    requires Queues(s) && t < |s.workers| && FairMove(s, t, w, sl, fl, ql)
    ensures Queues(Moved(s, t, w, sl, fl, ql))
  {
  }

  lemma MovePhases(s: State, t: nat, w: Worker, sl: Owner, fl: Owner, ql: Owner)
    requires Locks(s) && Phases(s) && t < |s.workers| && FairMove(s, t, w, sl, fl, ql)
    ensures Phases(Moved(s, t, w, sl, fl, ql))
  {
  }

  lemma MoveMain(s: State, t: nat, w: Worker, sl: Owner, fl: Owner, ql: Owner)
    requires Locks(s) && MainOk(s) && t < |s.workers| && FairMove(s, t, w, sl, fl, ql)
    ensures MainOk(Moved(s, t, w, sl, fl, ql))
  {
  }

  lemma MoveKeeps(s: State, t: nat, w: Worker, sl: Owner, fl: Owner, ql: Owner)
    requires Inv(s) && t < |s.workers|
    requires FairMove(s, t, w, sl, fl, ql)
    requires HolderOk(Moved(s, t, w, sl, fl, ql))
    ensures Inv(Moved(s, t, w, sl, fl, ql))
  {
    MoveLocks(s, t, w, sl, fl, ql);
    MoveRoles(s, t, w, sl, fl, ql);
    MoveQueues(s, t, w, sl, fl, ql);
    MovePhases(s, t, w, sl, fl, ql);
    MoveMain(s, t, w, sl, fl, ql);
  }

  /** The steps that only move their own thread and pass mutexes. */
  predicate Simple(pc: PC) {
    && !pc.Enqueue? && !pc.SignalFinish? && !pc.RaiseReady? && !pc.Claim? && !pc.Scan? && !pc.Publish?
    && !pc.FailCount? && !pc.FailSignal?
  }

  /** What the invariant says about one thread. */
  predicate At(s: State, t: nat) {
    && t < |s.workers|
    && LocksAt(s.searchLock, s.finishLock, s.queueLock, t, s.workers[t].pc)
    && RoleOk(ModeOf(s), t, s.workers[t], t in s.idle)
    && StartOk(s.main, s.workers[t].pc)
    && HolderOk(s) && Phases(s)
    && (Stopped(s.main) ==> s.claims != [])
    && (s.searching <==> !BeforeSearch(s.main) && !Stopped(s.main))
    && (s.workers[t].pc.ReadyTest? ==> !Stopped(s.main) || s.main.MainLockQueue?)
  }

  lemma InvAt(s: State, t: nat)
    requires Inv(s) && t < |s.workers|
    ensures At(s, t)
  {
  }

  predicate IsFairMove(s: State, t: nat, s': State) {
    && t < |s.workers| == |s'.workers|
    && s' == Moved(s, t, s'.workers[t], s'.searchLock, s'.finishLock, s'.queueLock)
    && FairMove(s, t, s'.workers[t], s'.searchLock, s'.finishLock, s'.queueLock)
    && HolderOk(s')
  }

  /** Thread `t` is about to take a step that its mutexes and assumptions permit. */
  predicate Steps(s: State, t: nat, fault: bool) {
    At(s, t) && Enabled(s, Work(t, fault)) && Safe(s, Work(t, fault))
  }

  lemma StartLockMoves(s: State, t: nat, fault: bool)
    requires Steps(s, t, fault) && s.workers[t].pc.StartLock?
    ensures IsFairMove(s, t, WorkNext(s, t, fault))
  {
  }

  lemma StartTestMoves(s: State, t: nat, fault: bool)
    requires Steps(s, t, fault) && s.workers[t].pc.StartTest?
    ensures IsFairMove(s, t, WorkNext(s, t, fault))
  {
  }

  lemma StartUnlockMoves(s: State, t: nat, fault: bool)
    requires Steps(s, t, fault) && s.workers[t].pc.StartUnlock?
    ensures IsFairMove(s, t, WorkNext(s, t, fault))
  {
  }

  lemma LockQueueMoves(s: State, t: nat, fault: bool)
    requires Steps(s, t, fault) && s.workers[t].pc.LockQueue?
    ensures IsFairMove(s, t, WorkNext(s, t, fault))
  {
  }

  lemma SleepTestMoves(s: State, t: nat, fault: bool)
    requires Steps(s, t, fault) && s.workers[t].pc.SleepTest?
    ensures IsFairMove(s, t, WorkNext(s, t, fault))
  {
  }

  lemma LockFinishMoves(s: State, t: nat, fault: bool)
    requires Steps(s, t, fault) && s.workers[t].pc.LockFinish?
    ensures IsFairMove(s, t, WorkNext(s, t, fault))
  {
  }

  lemma UnlockFinishMoves(s: State, t: nat, fault: bool)
    requires Steps(s, t, fault) && s.workers[t].pc.UnlockFinish?
    ensures IsFairMove(s, t, WorkNext(s, t, fault))
  {
  }

  lemma FallsAsleep(s: State, t: nat)
    requires At(s, t) && s.workers[t].pc.ReadyTest? && (s.ready || |s.idle| != |s.workers|)
    ensures IsFairMove(s, t, Goto(s.(queueLock := Free), t, Asleep))
  {
  }

  lemma GoesToRaise(s: State, t: nat)
    requires At(s, t) && s.workers[t].pc.ReadyTest? && !s.ready && |s.idle| == |s.workers|
    ensures IsFairMove(s, t, Goto(s, t, RaiseReady))
  {
  }

  lemma ReadyTestMoves(s: State, t: nat, fault: bool)
    requires Steps(s, t, fault) && s.workers[t].pc.ReadyTest?
    ensures IsFairMove(s, t, WorkNext(s, t, fault))
  {
    if s.ready || |s.idle| != |s.workers| {
      FallsAsleep(s, t);
    } else {
      GoesToRaise(s, t);
    }
  }

  lemma WokenMoves(s: State, t: nat, fault: bool)
    requires Steps(s, t, fault) && s.workers[t].pc.Woken?
    ensures IsFairMove(s, t, WorkNext(s, t, fault))
  {
  }

  lemma ExitTestMoves(s: State, t: nat, fault: bool)
    requires Steps(s, t, fault) && s.workers[t].pc.ExitTest?
    ensures IsFairMove(s, t, WorkNext(s, t, fault))
  {
  }

  lemma ExitUnlockMoves(s: State, t: nat, fault: bool)
    requires Steps(s, t, fault) && s.workers[t].pc.ExitUnlock?
    ensures IsFairMove(s, t, WorkNext(s, t, fault))
  {
  }

  lemma ClaimUnlockMoves(s: State, t: nat, fault: bool)
    requires Steps(s, t, fault) && s.workers[t].pc.ClaimUnlock?
    ensures IsFairMove(s, t, WorkNext(s, t, fault))
  {
  }

  lemma OpenMoves(s: State, t: nat, fault: bool)
    requires Steps(s, t, fault) && s.workers[t].pc.Open?
    ensures IsFairMove(s, t, WorkNext(s, t, fault))
  {
  }

  lemma PublishLockMoves(s: State, t: nat, fault: bool)
    requires Steps(s, t, fault) && s.workers[t].pc.PublishLock?
    ensures IsFairMove(s, t, WorkNext(s, t, fault))
  {
  }

  lemma PublishUnlockMoves(s: State, t: nat, fault: bool)
    requires Steps(s, t, fault) && s.workers[t].pc.PublishUnlock?
    ensures IsFairMove(s, t, WorkNext(s, t, fault))
  {
  }

  lemma FailLockMoves(s: State, t: nat, fault: bool)
    requires Steps(s, t, fault) && s.workers[t].pc.FailLock?
    ensures IsFairMove(s, t, WorkNext(s, t, fault))
  {
  }

  lemma FailUnlockMoves(s: State, t: nat, fault: bool)
    requires Steps(s, t, fault) && s.workers[t].pc.FailUnlock?
    ensures IsFairMove(s, t, WorkNext(s, t, fault))
  {
  }

  lemma SimpleMoves(s: State, t: nat, fault: bool)
    requires Steps(s, t, fault) && Simple(s.workers[t].pc)
    ensures IsFairMove(s, t, WorkNext(s, t, fault))
  {
    match s.workers[t].pc
    case StartLock => StartLockMoves(s, t, fault);
    case StartTest => StartTestMoves(s, t, fault);
    case StartUnlock => StartUnlockMoves(s, t, fault);
    case LockQueue => LockQueueMoves(s, t, fault);
    case SleepTest => SleepTestMoves(s, t, fault);
    case LockFinish => LockFinishMoves(s, t, fault);
    case UnlockFinish => UnlockFinishMoves(s, t, fault);
    case ReadyTest => ReadyTestMoves(s, t, fault);
    case Woken => WokenMoves(s, t, fault);
    case ExitTest => ExitTestMoves(s, t, fault);
    case ExitUnlock => ExitUnlockMoves(s, t, fault);
    case ClaimUnlock(_) => ClaimUnlockMoves(s, t, fault);
    case Open(_) => OpenMoves(s, t, fault);
    case PublishLock(_, _, _) => PublishLockMoves(s, t, fault);
    case PublishUnlock(_, _) => PublishUnlockMoves(s, t, fault);
    case FailLock(_, _) => FailLockMoves(s, t, fault);
    case FailUnlock(_, _) => FailUnlockMoves(s, t, fault);
    case _ =>
  }

  lemma FairMoveKeeps(s: State, t: nat, s': State)
    requires Inv(s) && IsFairMove(s, t, s')
    ensures Inv(s')
  {
    MoveKeeps(s, t, s'.workers[t], s'.searchLock, s'.finishLock, s'.queueLock);
  }

  lemma SimpleKeeps(s: State, t: nat, fault: bool)
    requires Inv(s) && Enabled(s, Work(t, fault)) && Safe(s, Work(t, fault)) && Simple(s.workers[t].pc)
    ensures Inv(WorkNext(s, t, fault))
  {
    InvAt(s, t);
    SimpleMoves(s, t, fault);
    FairMoveKeeps(s, t, WorkNext(s, t, fault));
  }

  lemma WakeMainKeeps(s: State)
    requires Inv(s)
    ensures Inv(SignalMain(s)) && !SignalMain(s).main.MainWaiting?
  {
    assert ModeOf(SignalMain(s)) == ModeOf(s);
  }

  lemma SignalGoes(s: State, t: nat, pc: PC)
    requires At(s, t) && !s.main.MainWaiting?
    requires (s.workers[t].pc.SignalFinish? && pc.UnlockFinish?) || (s.workers[t].pc.FailSignal? && pc.FailUnlock?)
    ensures IsFairMove(s, t, Goto(s, t, pc))
  {
  }

  /** Signalling main and moving on. */
  lemma SignalKeeps(s: State, t: nat, pc: PC)
    requires Inv(s) && t < |s.workers|
    requires (s.workers[t].pc.SignalFinish? && pc.UnlockFinish?) || (s.workers[t].pc.FailSignal? && pc.FailUnlock?)
    ensures Inv(SignalMain(Goto(s, t, pc)))
  {
    var s1 := SignalMain(s);
    WakeMainKeeps(s);
    InvAt(s1, t);
    SignalGoes(s1, t, pc);
    FairMoveKeeps(s1, t, Goto(s1, t, pc));
    assert SignalMain(Goto(s, t, pc)) == Goto(s1, t, pc);
  }

  /** The log and the counter of found files play no part until main prints. */
  lemma RecordKeeps(s: State, found: nat, log: seq<Event>)
    requires Inv(s) && !s.main.MainPrinted?
    ensures Inv(s.(found := found, log := log))
  {
    var s' := s.(found := found, log := log);
    assert ModeOf(s') == ModeOf(s);
    assert Locks(s') && HolderOk(s') && Queues(s');
    assert Roles(s') && Phases(s');
  }

  predicate ScanTarget(before: Worker, after: Worker) {
    if after.pc.LockQueue? then after.gift == NoGift
    else after.gift == before.gift && (after.pc.Scan? || after.pc.FailLock? || after.pc.PublishLock?)
  }

  lemma ScanGoes(s: State, t: nat, w: Worker)
    requires At(s, t) && s.workers[t].pc.Scan?
    requires ScanTarget(s.workers[t], w)
    ensures IsFairMove(s, t, s.(workers := s.workers[t := w]))
  {
  }

  /** One turn of the `readdir` loop moves its thread and may record a hit or a finished directory. */
  lemma ScanIsMove(s: State, t: nat, fault: bool, job: Job, rest: seq<Node>)
    requires t < |s.workers| && (fault ==> rest != [])
    ensures var s' := ScanNext(s, t, fault, job, rest);
      && s' == s.(found := s'.found, log := s'.log, workers := s.workers[t := s'.workers[t]])
      && ScanTarget(s.workers[t], s'.workers[t])
  {
  }

  lemma ScanKeeps(s: State, t: nat, fault: bool, job: Job, rest: seq<Node>)
    requires Inv(s) && t < |s.workers| && s.workers[t].pc == Scan(job, rest) && (fault ==> rest != [])
    ensures Inv(ScanNext(s, t, fault, job, rest))
  {
    var s' := ScanNext(s, t, fault, job, rest);
    ScanIsMove(s, t, fault, job, rest);
    NotPrinted(s, t);
    ScanMoveKeeps(s, t, s'.found, s'.log, s'.workers[t]);
  }

  lemma ScanMoveKeeps(s: State, t: nat, found: nat, log: seq<Event>, w: Worker)
    requires Inv(s) && t < |s.workers| && s.workers[t].pc.Scan? && !s.main.MainPrinted? && ScanTarget(s.workers[t], w)
    ensures Inv(s.(found := found, log := log, workers := s.workers[t := w]))
  {
    var s1 := s.(found := found, log := log);
    RecordKeeps(s, found, log);
    InvAt(s1, t);
    ScanGoes(s1, t, w);
    FairMoveKeeps(s1, t, s1.(workers := s.workers[t := w]));
  }

  /** Main prints only after every worker has exited. */
  lemma NotPrinted(s: State, t: nat)
    requires Inv(s) && t < |s.workers| && !Exited(s.workers[t].pc)
    ensures !s.main.MainPrinted?
  {
  }

  // ---- Claiming and publishing directories ----

  lemma ClaimLogKeeps(s: State, c: (nat, Job))
    requires Inv(s) && s.claims != []
    ensures Inv(s.(claims := s.claims + [c]))
  {
    var s' := s.(claims := s.claims + [c]);
    assert ModeOf(s') == ModeOf(s) && s'.claims[0] == s.claims[0];
    assert Locks(s') && HolderOk(s') && Queues(s');
    assert Roles(s') && Phases(s');
  }

  /** While some thread is busy, the directory queue may change as long as it stays empty beside idle threads. */
  lemma DirsKeep(s: State, dirs: seq<Job>)
    requires Inv(s) && s.claims != [] && !Quiet(s)
    requires s.idle != [] ==> dirs == []
    requires HolderOk(s.(dirs := dirs))
    ensures Inv(s.(dirs := dirs))
  {
    assert ModeOf(s.(dirs := dirs)) == ModeOf(s);
  }

  lemma ClaimMoves(s: State, t: nat, job: Job)
    requires Steps(s, t, false) && s.workers[t].pc.Claim? && s.claims != []
    ensures IsFairMove(s, t, Goto(s, t, ClaimUnlock(job)))
  {
  }

  lemma TakeGiftKeeps(s: State, t: nat)
    requires Inv(s) && Steps(s, t, false) && s.workers[t].pc.Claim? && s.claims != [] && s.workers[t].gift.Gift?
    ensures Inv(Goto(s, t, ClaimUnlock(s.workers[t].gift.job)))
  {
    ClaimMoves(s, t, s.workers[t].gift.job);
    FairMoveKeeps(s, t, Goto(s, t, ClaimUnlock(s.workers[t].gift.job)));
  }

  lemma TakeDirKeeps(s: State, t: nat)
    requires Inv(s) && Steps(s, t, false) && s.workers[t].pc.Claim?
    requires s.claims != [] && s.workers[t].gift.NoGift? && !Quiet(s)
    ensures Inv(Goto(s, t, ClaimUnlock(s.dirs[0])).(dirs := s.dirs[1..]))
  {
    ClaimMoves(s, t, s.dirs[0]);
    FairMoveKeeps(s, t, Goto(s, t, ClaimUnlock(s.dirs[0])));
    DirsKeep(Goto(s, t, ClaimUnlock(s.dirs[0])), s.dirs[1..]);
  }

  /** The state after the root has been claimed. */
  function RootClaimed(s: State, t: nat): State
    requires t < |s.workers|
  {
    s.(dirs := [], claims := [(t, s.root)], workers := s.workers[t := s.workers[t].(pc := ClaimUnlock(s.root))])
  }

  predicate MayClaimRoot(s: State, t: nat) {
    && At(s, t) && s.workers[t].pc.Claim? && s.claims == [] && |s.idle| + s.failed < |s.workers|
  }

  lemma FirstClaimLocks(s: State, t: nat)
    requires Locks(s) && MayClaimRoot(s, t)
    ensures Locks(RootClaimed(s, t)) && HolderOk(RootClaimed(s, t)) && Phases(RootClaimed(s, t))
  {
  }

  lemma FirstClaimRoles(s: State, t: nat)
    requires Roles(s) && Queues(s) && MayClaimRoot(s, t)
    ensures Roles(RootClaimed(s, t)) && Queues(RootClaimed(s, t))
  {
    var s' := RootClaimed(s, t);
    forall u | 0 <= u < |s'.workers| ensures RoleOk(ModeOf(s'), u, s'.workers[u], u in s'.idle) {
      assert RoleOk(ModeOf(s), u, s.workers[u], u in s.idle);
    }
  }

  lemma FirstClaimMain(s: State, t: nat)
    requires Locks(s) && MainOk(s) && MayClaimRoot(s, t)
    ensures MainOk(RootClaimed(s, t))
  {
  }

  lemma FirstClaimKeeps(s: State, t: nat)
    requires Inv(s) && MayClaimRoot(s, t)
    ensures ClaimNext(s, t) == RootClaimed(s, t) && Inv(RootClaimed(s, t))
  {
    FirstClaimLocks(s, t);
    FirstClaimRoles(s, t);
    FirstClaimMain(s, t);
  }

  lemma ClaimKeeps(s: State, t: nat)
    requires Inv(s) && Steps(s, t, false) && s.workers[t].pc.Claim?
    ensures Inv(WorkNext(s, t, false))
  {
    BusyMeansNotQuiet(s, t);
    if s.claims == [] {
      FirstClaimKeeps(s, t);
    } else if s.workers[t].gift.Gift? {
      TakeGiftKeeps(s, t);
      ClaimLogKeeps(Goto(s, t, ClaimUnlock(s.workers[t].gift.job)), (t, s.workers[t].gift.job));
    } else {
      TakeDirKeeps(s, t);
      ClaimLogKeeps(Goto(s, t, ClaimUnlock(s.dirs[0])).(dirs := s.dirs[1..]), (t, s.dirs[0]));
    }
  }

  lemma PublishMoves(s: State, t: nat)
    requires Steps(s, t, false) && s.workers[t].pc.Publish?
    ensures IsFairMove(s, t, Goto(s, t, PublishUnlock(s.workers[t].pc.job, s.workers[t].pc.rest)))
  {
  }

  /** The longest idle thread leaves the queue with a directory and a signal. */
  function Handed(s: State, sub: Job): State
    requires s.idle != [] && s.idle[0] < |s.workers|
  {
    s.(idle := s.idle[1..], workers := s.workers[s.idle[0] := Worker(Woken, Gift(sub))])
  }

  predicate MayHand(s: State) {
    && s.claims != [] && |s.idle| + s.failed < |s.workers| && !Stopped(s.main)
    && s.idle != [] && s.idle[0] < |s.workers|
    && s.workers[s.idle[0]].pc.Asleep?
    && (s.queueLock.By? && s.queueLock.t < |s.workers| ==> s.workers[s.queueLock.t].pc.PublishUnlock?)
  }

  lemma IdleTail(s: State, u: nat)
    requires Queues(s) && s.idle != []
    ensures u in s.idle[1..] <==> u in s.idle && u != s.idle[0]
  {
    assert s.idle == [s.idle[0]] + s.idle[1..];
  }

  lemma HandRoles(s: State, sub: Job)
    requires Roles(s) && Queues(s) && MayHand(s) && Phases(s)
    ensures Roles(Handed(s, sub))
  {
    var s' := Handed(s, sub);
    assert ModeOf(s') == ModeOf(s);
    forall u | 0 <= u < |s'.workers| ensures RoleOk(ModeOf(s'), u, s'.workers[u], u in s'.idle) {
      IdleTail(s, u);
      assert RoleOk(ModeOf(s), u, s.workers[u], u in s.idle);
    }
  }

  lemma HandLocks(s: State, sub: Job)
    requires Locks(s) && MayHand(s)
    ensures Locks(Handed(s, sub)) && HolderOk(Handed(s, sub))
  {
  }

  lemma HandQueues(s: State, sub: Job)
    requires Queues(s) && MayHand(s)
    ensures Queues(Handed(s, sub))
  {
  }

  lemma HandMain(s: State, sub: Job)
    requires Locks(s) && MainOk(s) && MayHand(s)
    ensures MainOk(Handed(s, sub))
  {
  }

  lemma HandKeeps(s: State, sub: Job)
    requires Inv(s) && MayHand(s)
    ensures Inv(Handed(s, sub))
  {
    HandRoles(s, sub);
    HandLocks(s, sub);
    HandQueues(s, sub);
    HandMain(s, sub);
  }

  /** A queued thread that does not hold queue_mutex is waiting on its condition variable. */
  lemma QueuedAreAsleep(s: State, u: nat)
    requires Inv(s) && u in s.idle && !Stopped(s.main) && s.queueLock != By(u)
    ensures u < |s.workers| && s.workers[u].pc.Asleep?
  {
    assert RoleOk(ModeOf(s), u, s.workers[u], u in s.idle);
    assert LocksAt(s.searchLock, s.finishLock, s.queueLock, u, s.workers[u].pc);
  }

  function Published(s: State, t: nat): State
    requires t < |s.workers| && s.workers[t].pc.Publish?
  {
    Goto(s, t, PublishUnlock(s.workers[t].pc.job, s.workers[t].pc.rest))
  }

  lemma PublishedKeeps(s: State, t: nat)
    requires Inv(s) && Steps(s, t, false) && s.workers[t].pc.Publish?
    ensures Inv(Published(s, t))
  {
    PublishMoves(s, t);
    FairMoveKeeps(s, t, Published(s, t));
  }

  lemma StoreKeeps(s: State, t: nat)
    requires Inv(s) && Steps(s, t, false) && s.workers[t].pc.Publish? && !Quiet(s) && s.idle == []
    ensures Inv(WorkNext(s, t, false))
  {
    PublishedKeeps(s, t);
    DirsKeep(Published(s, t), s.dirs + [s.workers[t].pc.sub]);
  }

  lemma HandoffIsHanded(s: State, t: nat)
    requires Steps(s, t, false) && s.workers[t].pc.Publish? && s.idle != [] && s.idle[0] < |s.workers|
    requires s.workers[s.idle[0]].pc.Asleep? && |s.idle| + s.failed < |s.workers|
    ensures MayHand(Published(s, t))
    ensures WorkNext(s, t, false) == Handed(Published(s, t), s.workers[t].pc.sub)
  {
  }

  lemma PublishKeeps(s: State, t: nat)
    requires Inv(s) && Steps(s, t, false) && s.workers[t].pc.Publish?
    ensures Inv(WorkNext(s, t, false))
  {
    BusyMeansNotQuiet(s, t);
    if s.idle == [] {
      StoreKeeps(s, t);
    } else {
      QueuedAreAsleep(s, s.idle[0]);
      PublishedKeeps(s, t);
      HandoffIsHanded(s, t);
      HandKeeps(Published(s, t), s.workers[t].pc.sub);
    }
  }

  // ---- Becoming idle, failing, and the startup barrier ----

  lemma EnqueueRoles(s: State, t: nat)
    requires Roles(s) && Steps(s, t, false) && s.workers[t].pc.Enqueue?
    ensures Roles(WorkNext(s, t, false))
  {
    var s' := WorkNext(s, t, false);
    forall u | 0 <= u < |s'.workers| ensures RoleOk(ModeOf(s'), u, s'.workers[u], u in s'.idle) {
      assert RoleOk(ModeOf(s), u, s.workers[u], u in s.idle);
    }
  }

  lemma EnqueueQueues(s: State, t: nat)
    requires Locks(s) && Queues(s) && Steps(s, t, false) && s.workers[t].pc.Enqueue?
    ensures Queues(WorkNext(s, t, false)) && HolderOk(WorkNext(s, t, false)) && Locks(WorkNext(s, t, false))
  {
  }

  lemma EnqueueMain(s: State, t: nat)
    requires Locks(s) && Steps(s, t, false) && MainOk(s) && s.workers[t].pc.Enqueue?
    ensures MainOk(WorkNext(s, t, false)) && Phases(WorkNext(s, t, false))
  {
  }

  lemma EnqueueKeeps(s: State, t: nat)
    requires Inv(s) && Steps(s, t, false) && s.workers[t].pc.Enqueue?
    ensures Inv(WorkNext(s, t, false))
  {
    EnqueueRoles(s, t);
    EnqueueQueues(s, t);
    EnqueueMain(s, t);
  }

  lemma FailCountRoles(s: State, t: nat)
    requires Roles(s) && Steps(s, t, false) && s.workers[t].pc.FailCount?
    ensures Roles(WorkNext(s, t, false)) && Phases(WorkNext(s, t, false))
  {
    assert ModeOf(WorkNext(s, t, false)) == ModeOf(s);
  }

  lemma FailCountQueues(s: State, t: nat)
    requires Queues(s) && Steps(s, t, false) && s.workers[t].pc.FailCount?
    ensures Queues(WorkNext(s, t, false))
  {
  }

  lemma FailCountLocks(s: State, t: nat)
    requires Locks(s) && Steps(s, t, false) && s.workers[t].pc.FailCount?
    ensures HolderOk(WorkNext(s, t, false)) && Locks(WorkNext(s, t, false))
  {
  }

  lemma FailCountMain(s: State, t: nat)
    requires Locks(s) && Steps(s, t, false) && MainOk(s) && s.workers[t].pc.FailCount?
    ensures MainOk(WorkNext(s, t, false))
  {
  }

  lemma FailCountKeeps(s: State, t: nat)
    requires Inv(s) && Steps(s, t, false) && s.workers[t].pc.FailCount?
    ensures Inv(WorkNext(s, t, false))
  {
    FailCountRoles(s, t);
    FailCountQueues(s, t);
    FailCountLocks(s, t);
    FailCountMain(s, t);
  }

  /** When the last thread raises the ready flag, all the others wait. */
  predicate Gathered(s: State, t: nat) {
    && t < |s.workers| && s.workers[t] == Worker(RaiseReady, NoGift) && s.queueLock == By(t)
    && Phases(s) && !s.ready && !Stopped(s.main)
    && |s.idle| == |s.workers| && s.idle[0] < |s.workers| && s.idle[|s.idle| - 1] == t
    && (forall u :: 0 <= u < |s.workers| ==> u in s.idle)
    && (forall u :: 0 <= u < |s.workers| && u != t ==> s.workers[u] == Worker(Asleep, NoGift))
  }

  lemma AllGathered(s: State, t: nat)
    requires Inv(s) && t < |s.workers| && s.workers[t].pc.RaiseReady?
    ensures Gathered(s, t)
  {
    assert LocksAt(s.searchLock, s.finishLock, s.queueLock, t, s.workers[t].pc);
    Census(s);
    forall u | 0 <= u < |s.workers| ensures RoleOk(ModeOf(s), u, s.workers[u], u in s.idle) {
    }
    forall u | 0 <= u < |s.workers| && u != t ensures s.workers[u].pc.Asleep? {
      QueuedAreAsleep(s, u);
    }
  }

  /** With several threads the first is signalled and the last waits; a single thread goes on. */
  function Raised(s: State, t: nat): State
    requires s.idle != [] && s.idle[0] < |s.workers| && t < |s.workers|
  {
    if |s.workers| == 1 then
      s.(ready := true, idle := [], workers := [Worker(SleepTest, NoGift)])
    else
      s.(ready := true, idle := s.idle[1..], queueLock := Free,
         workers := s.workers[s.idle[0] := Worker(Woken, NoGift)][t := Worker(Asleep, NoGift)])
  }

  lemma RaiseIsRaised(s: State, t: nat)
    requires Gathered(s, t) && Queues(s)
    ensures WorkNext(s, t, false) == Raised(s, t)
  {
  }

  lemma RaiseRole(m: Mode, u: nat, pc: PC)
    requires RoleOk(m, u, Worker(pc, NoGift), true) && (pc.Asleep? || pc.RaiseReady?)
    requires !m.ready && !m.claimed && !m.stopped
    ensures RoleOk(m.(ready := true), u, Worker(Asleep, NoGift), true)
    ensures m.first == u ==> RoleOk(m.(ready := true), u, Worker(Woken, NoGift), false)
    ensures m.first == u ==> RoleOk(m.(ready := true), u, Worker(SleepTest, NoGift), false)
  {
  }

  lemma RaiseRoles(s: State, t: nat)
    requires Queues(s) && Roles(s) && Gathered(s, t)
    ensures Roles(Raised(s, t))
  {
    var s' := Raised(s, t);
    assert ModeOf(s') == ModeOf(s).(ready := true) && ModeOf(s).first == s.idle[0];
    forall u | 0 <= u < |s'.workers| ensures RoleOk(ModeOf(s'), u, s'.workers[u], u in s'.idle) {
      IdleTail(s, u);
      assert u in s.idle && RoleOk(ModeOf(s), u, s.workers[u], u in s.idle);
      RaiseRole(ModeOf(s), u, s.workers[u].pc);
    }
  }

  lemma RaiseQueues(s: State, t: nat)
    requires Queues(s) && Gathered(s, t)
    ensures Queues(Raised(s, t))
  {
  }

  lemma RaisePhases(s: State, t: nat)
    requires Queues(s) && Gathered(s, t)
    ensures Phases(Raised(s, t)) && HolderOk(Raised(s, t))
  {
    IdleTail(s, s.idle[0]);
  }

  lemma RaiseLock(search: Owner, finish: Owner, t: nat, u: nat, pc: PC)
    requires LocksAt(search, finish, By(t), u, pc) && (pc.Asleep? || pc.RaiseReady?)
    ensures LocksAt(search, finish, Free, u, Asleep) && LocksAt(search, finish, Free, u, Woken)
    ensures u == t ==> LocksAt(search, finish, By(t), u, SleepTest)
  {
  }

  lemma RaiseLocks(s: State, t: nat)
    requires Locks(s) && Gathered(s, t)
    ensures Locks(Raised(s, t))
  {
    var s' := Raised(s, t);
    forall u | 0 <= u < |s'.workers|
      ensures LocksAt(s'.searchLock, s'.finishLock, s'.queueLock, u, s'.workers[u].pc)
    {
      assert LocksAt(s.searchLock, s.finishLock, s.queueLock, u, s.workers[u].pc);
      RaiseLock(s.searchLock, s.finishLock, t, u, s.workers[u].pc);
    }
  }

  lemma RaiseMain(s: State, t: nat)
    requires Locks(s) && MainOk(s) && Gathered(s, t)
    ensures MainOk(Raised(s, t))
  {
  }

  lemma RaiseKeeps(s: State, t: nat)
    requires Inv(s) && Gathered(s, t)
    ensures Inv(Raised(s, t))
  {
    RaiseRoles(s, t);
    RaiseQueues(s, t);
    RaisePhases(s, t);
    RaiseLocks(s, t);
    RaiseMain(s, t);
  }

  lemma RaiseReadyKeeps(s: State, t: nat)
    requires Inv(s) && Steps(s, t, false) && s.workers[t].pc.RaiseReady?
    ensures Inv(WorkNext(s, t, false))
  {
    AllGathered(s, t);
    RaiseIsRaised(s, t);
    RaiseKeeps(s, t);
  }

  // ---- Main ----

  lemma MainLockSearchKeeps(s: State)
    requires Inv(s) && Enabled(s, Main) && Safe(s, Main) && s.main.MainLockSearch?
    ensures Inv(MainNext(s))
  {
  }

  lemma MainRaiseSearchKeeps(s: State)
    requires Inv(s) && Enabled(s, Main) && Safe(s, Main) && s.main.MainRaiseSearch?
    ensures Inv(MainNext(s))
  {
  }

  lemma BroadcastLocks(s: State)
    requires Locks(s) && HolderOk(s) && s.main.MainBroadcast?
    ensures Locks(MainNext(s)) && HolderOk(MainNext(s))
  {
    var s' := MainNext(s);
    forall t | 0 <= t < |s'.workers|
      ensures LocksAt(s'.searchLock, s'.finishLock, s'.queueLock, t, s'.workers[t].pc)
    {
      assert LocksAt(s.searchLock, s.finishLock, s.queueLock, t, s.workers[t].pc);
    }
  }

  lemma BroadcastRoles(s: State)
    requires Roles(s) && Queues(s) && s.main.MainBroadcast?
    ensures Roles(MainNext(s)) && Queues(MainNext(s))
  {
    var s' := MainNext(s);
    assert ModeOf(s') == ModeOf(s);
    forall t | 0 <= t < |s'.workers| ensures RoleOk(ModeOf(s'), t, s'.workers[t], t in s'.idle) {
      assert RoleOk(ModeOf(s), t, s.workers[t], t in s.idle);
    }
  }

  lemma MainBroadcastKeeps(s: State)
    requires Inv(s) && s.main.MainBroadcast?
    ensures Inv(MainNext(s))
  {
    BroadcastLocks(s);
    BroadcastRoles(s);
  }

  lemma MainUnlockSearchKeeps(s: State)
    requires Inv(s) && Enabled(s, Main) && Safe(s, Main) && s.main.MainUnlockSearch?
    ensures Inv(MainNext(s))
  {
  }

  lemma MainLockFinishKeeps(s: State)
    requires Inv(s) && Enabled(s, Main) && Safe(s, Main) && s.main.MainLockFinish?
    ensures Inv(MainNext(s))
  {
  }

  lemma MainReadDirsKeeps(s: State)
    requires Inv(s) && Enabled(s, Main) && Safe(s, Main) && s.main.MainReadDirs?
    ensures Inv(MainNext(s))
  {
  }

  lemma MainReadIdleKeeps(s: State)
    requires Inv(s) && Enabled(s, Main) && Safe(s, Main) && s.main.MainReadIdle?
    ensures Inv(MainNext(s))
  {
    Census(s);
  }

  lemma MainReadFailedKeeps(s: State)
    requires Inv(s) && Enabled(s, Main) && Safe(s, Main) && s.main.MainReadFailed?
    ensures Inv(MainNext(s))
  {
  }

  lemma MainGoesToSleep(s: State)
    requires Inv(s) && s.main.MainReadAllFailed? && s.failed != |s.workers|
    ensures Inv(s.(finishLock := Free, main := MainWaiting))
  {
    assert ModeOf(s.(finishLock := Free, main := MainWaiting)) == ModeOf(s);
  }

  lemma MainGivesUp(s: State)
    requires Inv(s) && s.main.MainReadAllFailed? && s.failed == |s.workers|
    ensures Inv(s.(main := MainStop))
  {
    Census(s);
    assert ModeOf(s.(main := MainStop)) == ModeOf(s);
  }

  lemma MainReadAllFailedKeeps(s: State)
    requires Inv(s) && Enabled(s, Main) && Safe(s, Main) && s.main.MainReadAllFailed?
    ensures Inv(MainNext(s))
  {
    if s.failed == |s.workers| {
      MainGivesUp(s);
    } else {
      MainGoesToSleep(s);
    }
  }

  lemma MainWokenKeeps(s: State)
    requires Inv(s) && Enabled(s, Main) && Safe(s, Main) && s.main.MainWoken?
    ensures Inv(MainNext(s))
  {
  }

  lemma MainStopKeeps(s: State)
    requires Inv(s) && Enabled(s, Main) && Safe(s, Main) && s.main.MainStop?
    ensures Inv(MainNext(s))
  {
    Census(s);
  }

  lemma MainLockQueueKeeps(s: State)
    requires Inv(s) && Enabled(s, Main) && Safe(s, Main) && s.main.MainLockQueue?
    ensures Inv(MainNext(s))
  {
  }

  lemma WakeMoves(s: State, i: nat)
    requires At(s, i) && s.main.MainSignalAll? && s.workers[i].pc.Asleep?
    ensures IsFairMove(s, i, Goto(s, i, Woken))
  {
  }

  lemma WakeKeeps(s: State, i: nat)
    requires Inv(s) && i < |s.workers| && s.main.MainSignalAll? && s.workers[i].pc.Asleep?
    ensures Inv(Goto(s, i, Woken))
  {
    InvAt(s, i);
    WakeMoves(s, i);
    FairMoveKeeps(s, i, Goto(s, i, Woken));
  }

  lemma NextSignalKeeps(s: State)
    requires Inv(s) && s.main.MainSignalAll? && s.main.next < |s.workers| && !s.workers[s.main.next].pc.Asleep?
    ensures Inv(s.(main := MainSignalAll(s.main.next + 1)))
  {
    assert ModeOf(s.(main := MainSignalAll(s.main.next + 1))) == ModeOf(s);
  }

  lemma LastSignalKeeps(s: State)
    requires Inv(s) && s.main.MainSignalAll? && s.main.next >= |s.workers|
    ensures Inv(s.(main := MainUnlockQueue))
  {
    assert ModeOf(s.(main := MainUnlockQueue)) == ModeOf(s);
  }

  lemma MainSignalAllKeeps(s: State)
    requires Inv(s) && s.main.MainSignalAll?
    ensures Inv(MainNext(s))
  {
    var s', i := MainNext(s), s.main.next;
    if i >= |s.workers| {
      assert s' == s.(main := MainUnlockQueue);
      LastSignalKeeps(s);
    } else if !s.workers[i].pc.Asleep? {
      assert s' == s.(main := MainSignalAll(i + 1));
      NextSignalKeeps(s);
    } else {
      var woken := Goto(s, i, Woken);
      assert s' == woken.(main := MainSignalAll(woken.main.next + 1));
      WakeKeeps(s, i);
      NextSignalKeeps(woken);
    }
  }

  lemma MainUnlockQueueKeeps(s: State)
    requires Inv(s) && Enabled(s, Main) && Safe(s, Main) && s.main.MainUnlockQueue?
    ensures Inv(MainNext(s))
  {
  }

  lemma MainUnlockFinishKeeps(s: State)
    requires Inv(s) && Enabled(s, Main) && Safe(s, Main) && s.main.MainUnlockFinish?
    ensures Inv(MainNext(s))
  {
  }

  lemma MainJoinKeeps(s: State)
    requires Inv(s) && Enabled(s, Main) && Safe(s, Main) && s.main.MainJoin?
    ensures Inv(MainNext(s))
  {
    assert ModeOf(MainNext(s)) == ModeOf(s);
  }

  lemma MainPrintKeeps(s: State)
    requires Inv(s) && Enabled(s, Main) && Safe(s, Main) && s.main.MainPrint?
    ensures Inv(MainNext(s))
  {
  }

  predicate MainOpens(m: MainPC) {
    m.MainLockSearch? || m.MainRaiseSearch? || m.MainBroadcast? || m.MainUnlockSearch? || m.MainLockFinish?
  }

  predicate MainWatches(m: MainPC) {
    m.MainReadDirs? || m.MainReadIdle? || m.MainReadFailed? || m.MainReadAllFailed? || m.MainWoken?
  }

  lemma MainOpensKeeps(s: State)
    requires Inv(s) && Enabled(s, Main) && Safe(s, Main)
    requires MainOpens(s.main)
    ensures Inv(MainNext(s))
  {
    match s.main
    case MainLockSearch => MainLockSearchKeeps(s);
    case MainRaiseSearch => MainRaiseSearchKeeps(s);
    case MainBroadcast => MainBroadcastKeeps(s);
    case MainUnlockSearch => MainUnlockSearchKeeps(s);
    case MainLockFinish => MainLockFinishKeeps(s);
  }

  lemma MainWatchesKeeps(s: State)
    requires Inv(s) && Enabled(s, Main) && Safe(s, Main)
    requires MainWatches(s.main)
    ensures Inv(MainNext(s))
  {
    match s.main
    case MainReadDirs => MainReadDirsKeeps(s);
    case MainReadIdle => MainReadIdleKeeps(s);
    case MainReadFailed(_) => MainReadFailedKeeps(s);
    case MainReadAllFailed => MainReadAllFailedKeeps(s);
    case MainWoken => MainWokenKeeps(s);
  }

  lemma MainFinishesKeeps(s: State)
    requires Inv(s) && Enabled(s, Main) && Safe(s, Main) && (s.main.MainStop? || Stopped(s.main))
    ensures Inv(MainNext(s))
  {
    match s.main
    case MainStop => MainStopKeeps(s);
    case MainLockQueue => MainLockQueueKeeps(s);
    case MainSignalAll(_) => MainSignalAllKeeps(s);
    case MainUnlockQueue => MainUnlockQueueKeeps(s);
    case MainUnlockFinish => MainUnlockFinishKeeps(s);
    case MainJoin(_) => MainJoinKeeps(s);
    case MainPrint => MainPrintKeeps(s);
  }

  lemma MainKeeps(s: State)
    requires Inv(s) && Enabled(s, Main) && Safe(s, Main)
    ensures Inv(MainNext(s))
  {
    if s.main.MainStop? || Stopped(s.main) {
      MainFinishesKeeps(s);
    } else if MainWatches(s.main) {
      MainWatchesKeeps(s);
    } else {
      MainOpensKeeps(s);
    }
  }

  lemma QueueStepKeeps(s: State, t: nat)
    requires Inv(s) && Steps(s, t, false)
    requires var pc := s.workers[t].pc; pc.Enqueue? || pc.RaiseReady? || pc.Claim? || pc.Publish? || pc.FailCount?
    ensures Inv(WorkNext(s, t, false))
  {
    match s.workers[t].pc
    case Enqueue => EnqueueKeeps(s, t);
    case RaiseReady => RaiseReadyKeeps(s, t);
    case Claim => ClaimKeeps(s, t);
    case Publish(_, _, _) => PublishKeeps(s, t);
    case FailCount(_, _) => FailCountKeeps(s, t);
  }

  lemma MovingKeeps(s: State, t: nat)
    requires Inv(s) && t < |s.workers| && var pc := s.workers[t].pc; pc.SignalFinish? || pc.FailSignal?
    ensures if s.workers[t].pc.SignalFinish? then Inv(IdleNext(s, t)) else Inv(FailNext(s, t))
  {
    var pc := s.workers[t].pc;
    SignalKeeps(s, t, if pc.SignalFinish? then UnlockFinish else FailUnlock(pc.job, pc.rest));
  }

  lemma WorkKeeps(s: State, t: nat, fault: bool)
    requires Inv(s) && Enabled(s, Work(t, fault)) && Safe(s, Work(t, fault))
    ensures Inv(WorkNext(s, t, fault))
  {
    var pc := s.workers[t].pc;
    if Simple(pc) {
      SimpleKeeps(s, t, fault);
    } else if pc.Scan? {
      ScanKeeps(s, t, fault, pc.job, pc.rest);
    } else if pc.SignalFinish? || pc.FailSignal? {
      MovingKeeps(s, t);
    } else {
      InvAt(s, t);
      QueueStepKeeps(s, t);
    }
  }

  /** What a step other than a turn of the `readdir` loop leaves alone. */
  predicate Leaves(s: State, pc: PC, s': State) {
    && (s'.term, s'.root, |s'.workers|, s'.found, s'.log) == (s.term, s.root, |s.workers|, s.found, s.log)
    && (!pc.Claim? ==> s'.claims == s.claims)
    && (!pc.RaiseReady? ==> s'.ready == s.ready)
    && (!pc.Enqueue? ==> s'.order == s.order)
    && (!pc.Enqueue? && !pc.Publish? && !pc.RaiseReady? ==> s'.idle == s.idle)
  }

  lemma IdleLeaves(s: State, t: nat)
    requires t < |s.workers| && Safe(s, Work(t, false))
    requires var pc := s.workers[t].pc;
      pc.SleepTest? || pc.LockFinish? || pc.Enqueue? || pc.SignalFinish? || pc.UnlockFinish? || pc.ReadyTest?
    ensures Leaves(s, s.workers[t].pc, IdleNext(s, t))
  {
  }

  lemma StartLeaves(s: State, t: nat)
    requires t < |s.workers|
    requires var pc := s.workers[t].pc; pc.StartLock? || pc.StartTest? || pc.StartUnlock? || pc.LockQueue?
    ensures Leaves(s, s.workers[t].pc, StartNext(s, t))
  {
  }

  lemma PublishLeaves(s: State, t: nat)
    requires t < |s.workers| && var pc := s.workers[t].pc; pc.PublishLock? || pc.Publish? || pc.PublishUnlock?
    requires s.workers[t].pc.Publish? && s.idle != [] ==> s.idle[0] < |s.workers|
    ensures Leaves(s, s.workers[t].pc, PublishNext(s, t))
  {
  }

  lemma FailLeaves(s: State, t: nat)
    requires t < |s.workers|
    requires var pc := s.workers[t].pc; pc.FailLock? || pc.FailCount? || pc.FailSignal? || pc.FailUnlock?
    ensures Leaves(s, s.workers[t].pc, FailNext(s, t))
  {
  }

  lemma WorkLeaves(s: State, t: nat, fault: bool)
    requires Enabled(s, Work(t, fault)) && Safe(s, Work(t, fault)) && !s.workers[t].pc.Scan?
    ensures Leaves(s, s.workers[t].pc, WorkNext(s, t, fault))
  {
    var pc := s.workers[t].pc;
    if pc.StartLock? || pc.StartTest? || pc.StartUnlock? || pc.LockQueue? {
      StartLeaves(s, t);
    } else if pc.SleepTest? || pc.LockFinish? || pc.Enqueue? || pc.SignalFinish? || pc.UnlockFinish? || pc.ReadyTest? {
      IdleLeaves(s, t);
    } else if pc.PublishLock? || pc.Publish? || pc.PublishUnlock? {
      PublishLeaves(s, t);
    } else if pc.FailLock? || pc.FailCount? || pc.FailSignal? || pc.FailUnlock? {
      FailLeaves(s, t);
    }
  }

  lemma MainLeaves(s: State)
    requires Enabled(s, Main) && Safe(s, Main)
    ensures (MainNext(s).term, MainNext(s).root, |MainNext(s).workers|, MainNext(s).found, MainNext(s).log)
         == (s.term, s.root, |s.workers|, s.found, s.log)
    ensures (MainNext(s).claims, MainNext(s).ready, MainNext(s).order, MainNext(s).idle)
         == (s.claims, s.ready, s.order, s.idle)
  {
  }

  /** The invariant is inductive, and what every step assumes is true when it is taken. */
  lemma StepKeeps(s: State, a: Action)
    requires Inv(s) && Enabled(s, a)
    ensures Safe(s, a) && Inv(Next(s, a))
  {
    InvSafe(s, a);
    match a
    case Main => MainKeeps(s);
    case Work(t, fault) => WorkKeeps(s, t, fault);
  }

  /** Every state on a run satisfies the invariant, and no action enabled there breaks an assumption. */
  lemma {:induction false} RunKeeps(s: State, acts: seq<Action>)
    requires Inv(s) && Run(s, acts)
    ensures Inv(End(s, acts))
    ensures forall a :: Enabled(End(s, acts), a) ==> Safe(End(s, acts), a)
    decreases |acts|
  {
    if acts == [] {
      forall a | Enabled(s, a) ensures Safe(s, a) {
        InvSafe(s, a);
      }
    } else {
      StepKeeps(s, acts[0]);
      RunKeeps(Next(s, acts[0]), acts[1..]);
    }
  }
}
