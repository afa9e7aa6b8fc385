/** The inductive invariant of the parallel search: lock ownership, the role every program point
    gives its thread, the two queues, the startup phases, and what main knows at each of its reads. */
module SearchInvariant {
  import opened SearchTree
  import opened SearchProtocol

  predicate HoldsSearch(pc: PC) { pc.StartTest? || pc.StartUnlock? }

  predicate HoldsQueue(pc: PC) {
    || pc.SleepTest? || pc.LockFinish? || pc.Enqueue? || Settling(pc)
    || pc.ExitTest? || pc.ExitUnlock? || pc.Claim? || pc.ClaimUnlock? || pc.Publish? || pc.PublishUnlock?
  }

  predicate HoldsFinish(pc: PC) {
    || pc.Enqueue? || pc.SignalFinish? || pc.UnlockFinish?
    || pc.FailCount? || pc.FailSignal? || pc.FailUnlock?
  }

  /** Between entering the idle queue and waiting, still holding queue_mutex. */
  predicate Settling(pc: PC) {
    pc.SignalFinish? || pc.UnlockFinish? || pc.ReadyTest? || pc.RaiseReady?
  }

  predicate MainHoldsSearch(m: MainPC) { m.MainRaiseSearch? || m.MainBroadcast? || m.MainUnlockSearch? }

  predicate MainHoldsFinish(m: MainPC) {
    || m.MainReadDirs? || m.MainReadIdle? || m.MainReadFailed? || m.MainReadAllFailed? || m.MainStop?
    || m.MainLockQueue? || MainHoldsQueue(m) || m.MainUnlockFinish?
  }

  predicate MainHoldsQueue(m: MainPC) { m.MainSignalAll? || m.MainUnlockQueue? }

  predicate BeforeSearch(m: MainPC) { m.MainLockSearch? || m.MainRaiseSearch? }

  predicate Stopped(m: MainPC) {
    || m.MainLockQueue? || MainHoldsQueue(m) || m.MainUnlockFinish? || m.MainJoin? || m.MainPrint? || m.MainPrinted?
  }

  predicate LocksAt(search: Owner, finish: Owner, queue: Owner, t: nat, pc: PC) {
    && (search == By(t) <==> HoldsSearch(pc))
    && (finish == By(t) <==> HoldsFinish(pc))
    && (queue == By(t) <==> HoldsQueue(pc))
  }

  /** Each mutex is held by exactly the thread whose program point says so. */
  predicate Locks(s: State) {
    && (forall t :: 0 <= t < |s.workers| ==> LocksAt(s.searchLock, s.finishLock, s.queueLock, t, s.workers[t].pc))
    && (s.searchLock == ByMain <==> MainHoldsSearch(s.main))
    && (s.finishLock == ByMain <==> MainHoldsFinish(s.main))
    && (s.queueLock == ByMain <==> MainHoldsQueue(s.main))
    && (s.searchLock.By? ==> s.searchLock.t < |s.workers|)
    && (s.finishLock.By? ==> s.finishLock.t < |s.workers|)
    && (s.queueLock.By? ==> s.queueLock.t < |s.workers|)
  }

  /** The part of the state that fixes which roles are possible. */
  datatype Mode = Mode(ready: bool, claimed: bool, stopped: bool, first: nat)

  function ModeOf(s: State): Mode {
    Mode(s.ready, s.claims != [], Stopped(s.main), if s.order == [] then 0 else s.order[0])
  }

  /** A thread that is not idle: uninitialised while the threads gather; then only the first thread,
      without a gift, until it has claimed the root; after that with or without a gift. */
  predicate Active(m: Mode, t: nat, g: Gift) {
    if !m.ready then g.Unset? else if !m.claimed then t == m.first && g.NoGift? else !g.Unset?
  }

  /** What a program point means for the idle queue and for `dir_to_handle`. */
  datatype Role = AtGate | Arriving | Testing | Announcing | Settled | Raising | Sleeping | Waking | Judging
                | Leaving | Claiming | Busy | Lost

  function RoleOf(pc: PC): Role {
    if pc.StartLock? || pc.StartTest? || pc.StartWait? || pc.StartUnlock? then AtGate
    else if pc.LockQueue? || pc.LockFinish? || pc.Enqueue? then Arriving
    else if pc.SleepTest? then Testing
    else if pc.SignalFinish? || pc.UnlockFinish? then Announcing
    else if pc.ReadyTest? then Settled
    else if pc.RaiseReady? then Raising
    else if pc.Asleep? then Sleeping
    else if pc.Woken? then Waking
    else if pc.ExitTest? then Judging
    else if pc.ExitUnlock? || pc.Done? then Leaving
    else if pc.Claim? then Claiming
    else if pc.Failed? then Lost
    else Busy
  }

  predicate RoleOk(m: Mode, t: nat, w: Worker, queued: bool) {
    var g := w.gift;
    match RoleOf(w.pc)
    case AtGate => !queued && g.Unset? && !m.ready && !m.stopped
    case Arriving => !queued && !m.stopped && (if m.ready then m.claimed && g.NoGift? else g.Unset?)
    case Testing => if m.stopped then queued && g.NoGift? else !queued && Active(m, t, g)
    case Announcing => queued && g.NoGift? && !m.stopped && (m.ready ==> m.claimed)
    case Settled => queued && g.NoGift? && (m.ready ==> m.claimed)
    case Raising => queued && g.NoGift? && !m.ready && !m.stopped
    case Sleeping => queued && g.NoGift?
    case Waking =>
      if m.stopped then queued && g.NoGift? else !queued && m.ready && Active(m, t, g) && (m.claimed ==> g.Gift?)
    case Judging => if m.stopped then queued && g.NoGift? else !queued && m.ready && Active(m, t, g)
    case Leaving => m.stopped && queued && g.NoGift?
    case Claiming => !m.stopped && !queued && m.ready && Active(m, t, g)
    case Busy => !queued && m.claimed && !m.stopped && !g.Unset?
    case Lost => !queued && m.claimed && !g.Unset?
  }

  predicate Roles(s: State) {
    forall t :: 0 <= t < |s.workers| ==> RoleOk(ModeOf(s), t, s.workers[t], t in s.idle)
  }

  /** What the holder of queue_mutex has just found out and cannot be invalidated under it. */
  predicate HolderOk(s: State) {
    s.queueLock.By? && s.queueLock.t < |s.workers| ==>
      var t := s.queueLock.t;
      var w := s.workers[t];
      && (w.pc.LockFinish? || w.pc.Enqueue? ==> (s.claims != [] ==> s.dirs == []))
      && (Settling(w.pc) ==> |s.idle| > 0 && s.idle[|s.idle| - 1] == t)
      && (w.pc.RaiseReady? ==> |s.idle| == |s.workers|)
      && ((w.pc.ExitTest? && !Stopped(s.main)) || w.pc.Claim? ==> w.gift.Gift? || s.dirs != [])
  }

  predicate Counted(pc: PC) { pc.FailSignal? || pc.FailUnlock? || pc.Failed? }

  predicate Queues(s: State) {
    && (forall i :: 0 <= i < |s.idle| ==> s.idle[i] < |s.workers|)
    && (forall i, j :: 0 <= i < j < |s.idle| ==> s.idle[i] != s.idle[j])
    && (forall t :: t in s.dead ==> t < |s.workers|)
    && (forall t :: 0 <= t < |s.workers| ==> (t in s.dead <==> Counted(s.workers[t].pc)))
    && s.failed == |s.dead|
    && (s.claims != [] && s.idle != [] ==> s.dirs == [])
  }

  /** Gathering until the last thread is idle, starting until the root is claimed, then searching. */
  predicate Phases(s: State) {
    && (!s.ready ==>
        && s.dirs == [s.root] && s.idle == s.order && s.claims == [] && s.dead == {}
        && (|s.idle| == |s.workers| ==>
            s.queueLock.By? && s.queueLock.t < |s.workers| && Settling(s.workers[s.queueLock.t].pc)))
    && (s.ready ==> |s.order| >= |s.workers|)
    && (s.ready && s.claims == [] ==>
        && s.dirs == [s.root] && s.dead == {} && |s.idle| + 1 == |s.workers|
        && s.order != [] && s.order[0] !in s.idle && s.order[0] < |s.workers|)
    && (s.claims != [] ==> s.ready && s.order != [] && s.claims[0] == (s.order[0], s.root))
  }

  /** All threads are in the idle queue or counted as failed. */
  predicate Quiet(s: State) { |s.idle| + s.failed == |s.workers| }

  /** A thread holding finish_mutex is about to signal main. */
  predicate SignalPending(s: State) {
    && s.finishLock.By? && s.finishLock.t < |s.workers|
    && (s.workers[s.finishLock.t].pc.SignalFinish? || s.workers[s.finishLock.t].pc.FailSignal?)
  }

  predicate MainOk(s: State) {
    && (s.searching <==> !BeforeSearch(s.main) && !Stopped(s.main))
    && (forall t :: 0 <= t < |s.workers| ==> StartOk(s.main, s.workers[t].pc))
    && match s.main
       case MainReadIdle => s.claims != [] && (Quiet(s) ==> s.dirs == [])
       case MainReadFailed(c) =>
         && s.claims != [] && |s.idle| <= c && c + s.failed <= |s.workers|
         && (c + s.failed == |s.workers| ==> |s.idle| == c && s.dirs == [])
       case MainReadAllFailed => s.claims != [] && Quiet(s) ==> s.failed == |s.workers|
       case MainWaiting => s.claims != [] && Quiet(s) ==> SignalPending(s)
       case MainStop => AllQuiet(s)
       case MainLockQueue => AllQuiet(s)
       case MainSignalAll(i) => AllQuiet(s) && i <= |s.workers| && forall t :: 0 <= t < i ==> !s.workers[t].pc.Asleep?
       case MainUnlockQueue | MainUnlockFinish => AllQuiet(s) && AllAwake(s)
       case MainJoin(i) =>
         AllQuiet(s) && AllAwake(s) && i <= |s.workers| && forall t :: 0 <= t < i ==> Exited(s.workers[t].pc)
       case MainPrint => AllQuiet(s) && AllExited(s)
       case MainPrinted(n) => AllQuiet(s) && AllExited(s) && n == s.found
       case _ => true
  }

  predicate AllQuiet(s: State) {
    s.claims != [] && Quiet(s) && (s.dirs == [] || s.failed == |s.workers|)
  }

  /** No worker waits on its condition variable or is about to. */
  predicate AllAwake(s: State) {
    forall t :: 0 <= t < |s.workers| ==> !s.workers[t].pc.Asleep? && !s.workers[t].pc.ReadyTest?
  }

  predicate AllExited(s: State) { forall t :: 0 <= t < |s.workers| ==> Exited(s.workers[t].pc) }

  /** Nobody leaves the start gate before main opens it, and nobody waits at it afterwards. */
  predicate StartOk(m: MainPC, pc: PC) {
    && (BeforeSearch(m) ==> pc.StartLock? || pc.StartTest? || pc.StartWait?)
    && (!BeforeSearch(m) && !m.MainBroadcast? ==> !pc.StartWait?)
  }

  ghost predicate Inv(s: State) {
    && |s.workers| > 0
    && Locks(s) && Roles(s) && HolderOk(s) && Queues(s) && Phases(s) && MainOk(s)
  }

  lemma InitInv(term: string, root: Job, n: nat)
    requires n > 0
    ensures Inv(Init(term, root, n))
  {
  }

  // ---- Counting idle and failed threads ----

  function Upto(n: nat): (r: set<nat>)
    ensures |r| == n && forall t: nat :: t in r <==> t < n
  {
    if n == 0 then {} else Upto(n - 1) + {n - 1}
  }

  lemma {:induction false} DistinctSize(q: seq<nat>)
    requires forall i, j :: 0 <= i < j < |q| ==> q[i] != q[j]
    ensures |set t: nat | t in q| == |q|
  {
    if q != [] {
      var rest, last := q[..|q| - 1], q[|q| - 1];
      DistinctSize(rest);
      assert q == rest + [last] && last !in rest;
      assert (set t: nat | t in q) == (set t: nat | t in rest) + {last};
    }
  }

  lemma SubsetSize(a: set<nat>, b: set<nat>)
    requires a <= b
    ensures |a| <= |b|
    ensures |a| == |b| ==> a == b
  {
    assert b == a + (b - a);
    assert |b| == |a| + |b - a|;
  }

  lemma DisjointFit(q: seq<nat>, dead: set<nat>, n: nat)
    requires forall i, j :: 0 <= i < j < |q| ==> q[i] != q[j]
    requires forall t :: t in q ==> t < n && t !in dead
    requires forall t :: t in dead ==> t < n
    ensures |q| + |dead| <= n
    ensures |q| + |dead| == n <==> forall t :: 0 <= t < n ==> t in q || t in dead
  {
    var idlers := set t: nat | t in q;
    DistinctSize(q);
    assert |idlers + dead| == |idlers| + |dead|;
    SubsetSize(idlers + dead, Upto(n));
    assert |q| + |dead| == n ==> forall t :: 0 <= t < n ==> t in idlers + dead;
    if forall t :: 0 <= t < n ==> t in q || t in dead {
      assert idlers + dead == Upto(n);
    }
  }

  /** Idle and failed threads never exceed N together, and reach N just when every thread is one of them. */
  lemma Census(s: State)
    requires Queues(s) && Roles(s)
    ensures |s.idle| + s.failed <= |s.workers|
    ensures Quiet(s) <==> forall t :: 0 <= t < |s.workers| ==> t in s.idle || t in s.dead
  {
    forall t | t in s.idle ensures t < |s.workers| && t !in s.dead {
      assert RoleOk(ModeOf(s), t, s.workers[t], t in s.idle);
    }
    DisjointFit(s.idle, s.dead, |s.workers|);
  }

  /** A thread that is neither idle nor failed keeps the others short of N. */
  lemma BusyMeansNotQuiet(s: State, t: nat)
    requires Queues(s) && Roles(s) && t < |s.workers| && t !in s.idle && t !in s.dead
    ensures |s.idle| + s.failed < |s.workers|
  {
    Census(s);
  }

  lemma InvSafe(s: State, a: Action)
    requires Inv(s) && Enabled(s, a)
    ensures Safe(s, a)
  {
    if a.Work? {
      assert RoleOk(ModeOf(s), a.t, s.workers[a.t], a.t in s.idle);
    }
  }
}
