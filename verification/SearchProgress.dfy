/** Nothing gets stuck and nothing goes on forever: some thread can always move until main has
    printed, main never sleeps through its exit condition, and a bound on the remaining steps
    shrinks with every step. */
module SearchProgress {
  import opened SearchTree
  import opened SearchProtocol
  import opened SearchInvariant
  import opened SearchPreservation
  import opened SearchLedger

  // ---- No deadlock ----

  /** A thread that holds a mutex and does not wait for another one can move. */
  lemma HolderMoves(s: State, t: nat)
    requires Inv(s) && t < |s.workers|
    requires var pc := s.workers[t].pc; HoldsSearch(pc) || HoldsFinish(pc) || (HoldsQueue(pc) && !pc.LockFinish?)
    ensures Enabled(s, Work(t, false))
  {
  }

  /** Who can move when finish_mutex is taken. */
  lemma FinishTaken(s: State)
    requires Inv(s) && s.finishLock != Free && !s.main.MainLockQueue?
    ensures exists a :: Enabled(s, a)
  {
    if s.finishLock == ByMain {
      assert Enabled(s, Main);
    } else {
      HolderMoves(s, s.finishLock.t);
    }
  }

  lemma SearchTaken(s: State)
    requires Inv(s) && s.searchLock != Free
    ensures exists a :: Enabled(s, a)
  {
    if s.searchLock == ByMain {
      assert Enabled(s, Main);
    } else {
      HolderMoves(s, s.searchLock.t);
    }
  }

  lemma QueueTaken(s: State)
    requires Inv(s) && s.queueLock != Free
    ensures exists a :: Enabled(s, a)
  {
    if s.queueLock == ByMain {
      assert Enabled(s, Main);
    } else {
      var t := s.queueLock.t;
      if !s.workers[t].pc.LockFinish? {
        HolderMoves(s, t);
      } else if s.finishLock == Free {
        assert Enabled(s, Work(t, false));
      } else {
        // Main cannot be waiting for queue_mutex: thread t is neither idle nor failed.
        assert RoleOk(ModeOf(s), t, s.workers[t], t in s.idle);
        FinishTaken(s);
      }
    }
  }

  /** A thread that has neither exited nor gone to sleep moves, or waits for a mutex whose holder moves. */
  lemma AwakeMoves(s: State, t: nat)
    requires Inv(s) && t < |s.workers| && !s.main.MainLockQueue?
    requires var pc := s.workers[t].pc; !Exited(pc) && !pc.Asleep? && !pc.StartWait?
    ensures exists a :: Enabled(s, a)
  {
    if !Enabled(s, Work(t, false)) {
      if s.workers[t].pc.StartLock? {
        SearchTaken(s);
      } else if s.workers[t].pc.LockFinish? || s.workers[t].pc.FailLock? {
        FinishTaken(s);
      } else {
        QueueTaken(s);
      }
    }
  }

  /** While main waits, some worker is awake. */
  lemma SomeoneAwake(s: State) returns (t: nat)
    requires Inv(s) && s.main.MainWaiting?
    ensures t < |s.workers|
    ensures var pc := s.workers[t].pc; !Exited(pc) && !pc.Asleep? && !pc.StartWait?
  {
    Census(s);
    if Quiet(s) {
      if s.claims != [] {
        t := s.finishLock.t;
      } else {
        t := s.queueLock.t;
      }
    } else {
      t :| 0 <= t < |s.workers| && t !in s.idle && t !in s.dead;
      assert RoleOk(ModeOf(s), t, s.workers[t], t in s.idle);
    }
  }

  /** In every state satisfying the invariant, until main has printed, some thread can move. */
  lemma NoDeadlock(s: State)
    requires Inv(s) && !s.main.MainPrinted?
    ensures exists a :: Enabled(s, a)
  {
    if !Enabled(s, Main) {
      match s.main
      case MainLockSearch => SearchTaken(s);
      case MainLockFinish => FinishTaken(s);
      case MainWoken => FinishTaken(s);
      case MainLockQueue => QueueTaken(s);
      case MainWaiting =>
        var t := SomeoneAwake(s);
        AwakeMoves(s, t);
      case MainJoin(i) => AwakeMoves(s, i);
    }
  }

  /** The loop condition of main, read at one moment. */
  predicate ExitCondition(s: State) {
    (s.dirs == [] && Quiet(s)) || s.failed == |s.workers|
  }

  /** Main never sleeps on finish_cv with its exit condition true and no signal on its way. */
  lemma NoLostWakeup(s: State)
    requires Inv(s) && s.main.MainWaiting? && ExitCondition(s)
    ensures exists t :: 0 <= t < |s.workers| && s.finishLock == By(t)
                     && (s.workers[t].pc.SignalFinish? || s.workers[t].pc.FailSignal?)
  {
    Census(s);
    assert s.claims != [];
    assert SignalPending(s);
  }

  // ---- Termination ----

  /** An upper bound on the steps that searching a directory takes. */
  function JobCost(job: Job): nat {
    10 + ListingCost(job.listing)
  }

  function ListingCost(es: seq<Node>): nat
    decreases es
  {
    if es == [] then 0 else EntryCost(es[0]) + ListingCost(es[1..])
  }

  function EntryCost(e: Node): nat
    decreases e
  {
    if e.kind.Folder? then 28 + ListingCost(e.kind.listing) else 1
  }

  function QueueCost(q: seq<Job>): nat {
    if q == [] then 0 else JobCost(q[0]) + QueueCost(q[1..])
  }

  function GiftCost(g: Gift): nat {
    if g.Gift? then JobCost(g.job) else 0
  }

  /** The steps a worker may still take on its own, with what its signals may set off. */
  function Rank(w: Worker): nat {
    match w.pc
    case StartLock => 17
    case StartTest => 16
    case StartWait => 15
    case StartUnlock => 15
    case LockQueue => 14 + GiftCost(w.gift)
    case Woken => 14 + GiftCost(w.gift)
    case SleepTest => 13 + GiftCost(w.gift)
    case LockFinish => 12 + GiftCost(w.gift)
    case Enqueue => 11 + GiftCost(w.gift)
    case SignalFinish => 10
    case UnlockFinish => 3
    case ReadyTest => 2
    case RaiseReady => 1
    case Asleep => GiftCost(w.gift)
    case ExitTest => 12 + GiftCost(w.gift)
    case ExitUnlock => 1
    case Done => 0
    case Claim => 11 + GiftCost(w.gift)
    case ClaimUnlock(job) => 10 + JobCost(job)
    case Open(job) => 9 + JobCost(job)
    case Scan(_, rest) => 15 + ListingCost(rest)
    case PublishLock(_, rest, sub) => 32 + ListingCost(rest) + JobCost(sub)
    case Publish(_, rest, sub) => 31 + ListingCost(rest) + JobCost(sub)
    case PublishUnlock(_, rest) => 16 + ListingCost(rest)
    case FailLock(_, _) => 13
    case FailCount(_, _) => 12
    case FailSignal(_, _) => 11
    case FailUnlock(_, _) => 1
    case Failed(_, _) => 0
  }

  function MainRank(m: MainPC, n: nat): int {
    match m
    case MainPrinted(_) => 0
    case MainPrint => 1
    case MainJoin(i) => 2 + n - i
    case MainUnlockFinish => n + 3
    case MainUnlockQueue => n + 4
    case MainSignalAll(i) => n + 5 + 15 * (n - i)
    case MainLockQueue => 16 * n + 6
    case MainStop => 16 * n + 7
    case MainWaiting => 16 * n + 8
    case MainReadAllFailed => 16 * n + 9
    case MainReadFailed(_) => 16 * n + 10
    case MainReadIdle => 16 * n + 11
    case MainReadDirs => 16 * n + 12
    case MainWoken => 16 * n + 13
    case MainLockFinish => 16 * n + 13
    case MainUnlockSearch => 16 * n + 14
    case MainBroadcast => 18 * n + 15
    case MainRaiseSearch => 18 * n + 16
    case MainLockSearch => 18 * n + 17
  }

  function SumRanks(ws: seq<Worker>): nat {
    if ws == [] then 0 else Rank(ws[0]) + SumRanks(ws[1..])
  }

  function Remaining(s: State): int {
    MainRank(s.main, |s.workers|) + SumRanks(s.workers) + QueueCost(s.dirs) + (if s.ready then 0 else 20)
  }

  lemma RemainingNonNegative(s: State)
    requires Inv(s)
    ensures Remaining(s) >= 0
  {
  }

  lemma {:induction false} RanksUpdate(ws: seq<Worker>, t: nat, w: Worker)
    requires t < |ws|
    ensures SumRanks(ws[t := w]) + Rank(ws[t]) == SumRanks(ws) + Rank(w)
  {
    if t == 0 {
      assert ws[t := w][1..] == ws[1..];
    } else {
      assert ws[t := w][1..] == ws[1..][t - 1 := w];
      RanksUpdate(ws[1..], t - 1, w);
    }
  }

  lemma {:induction false} RanksBroadcast(ws: seq<Worker>)
    ensures SumRanks(Broadcast(ws)) <= SumRanks(ws) + 2 * |ws|
  {
    if ws != [] {
      assert Broadcast(ws)[1..] == Broadcast(ws[1..]);
      RanksBroadcast(ws[1..]);
    }
  }

  lemma {:induction false} QueueCostAppend(q: seq<Job>, job: Job)
    ensures QueueCost(q + [job]) == QueueCost(q) + JobCost(job)
  {
    if q == [] {
      assert q + [job] == [job];
    } else {
      assert (q + [job])[1..] == q[1..] + [job];
      QueueCostAppend(q[1..], job);
    }
  }

  lemma SignalRanks(w: Worker, n: nat, i: nat)
    requires w.pc.Asleep?
    ensures Rank(w.(pc := Woken)) == Rank(w) + 14
    ensures MainRank(MainSignalAll(i + 1), n) == MainRank(MainSignalAll(i), n) - 15
  {
  }

  lemma MainSignalShrinks(s: State)
    requires s.main.MainSignalAll? && s.main.next <= |s.workers|
    ensures Remaining(MainNext(s)) < Remaining(s)
  {
    var i := s.main.next;
    if i < |s.workers| && s.workers[i].pc.Asleep? {
      RanksUpdate(s.workers, i, s.workers[i].(pc := Woken));
      SignalRanks(s.workers[i], |s.workers|, i);
    }
  }

  lemma MainRankDrops(s: State)
    requires Enabled(s, Main) && Safe(s, Main) && !s.main.MainBroadcast? && !s.main.MainSignalAll?
    requires s.main.MainJoin? ==> s.main.next <= |s.workers|
    ensures MainRank(MainNext(s).main, |s.workers|) < MainRank(s.main, |s.workers|)
    ensures (MainNext(s).workers, MainNext(s).dirs, MainNext(s).ready) == (s.workers, s.dirs, s.ready)
  {
  }

  lemma MainShrinks(s: State)
    requires Enabled(s, Main) && Safe(s, Main)
    requires s.main.MainJoin? || s.main.MainSignalAll? ==> s.main.next <= |s.workers|
    ensures Remaining(MainNext(s)) < Remaining(s)
  {
    if s.main.MainBroadcast? {
      RanksBroadcast(s.workers);
    } else if s.main.MainSignalAll? {
      MainSignalShrinks(s);
    } else {
      MainRankDrops(s);
    }
  }

  /** A step that changes only the workers. */
  lemma WorkersShrink(s: State, s': State)
    requires (s'.main, s'.dirs, s'.ready) == (s.main, s.dirs, s.ready) && |s'.workers| == |s.workers|
    requires SumRanks(s'.workers) < SumRanks(s.workers)
    ensures Remaining(s') < Remaining(s)
  {
  }

  /** A step that moves one thread and perhaps wakes main. */
  lemma MoveShrinks(s: State, t: nat, s': State)
    requires t < |s.workers| == |s'.workers| && s'.workers == s.workers[t := s'.workers[t]]
    requires s'.dirs == s.dirs && s'.ready == s.ready
    requires s'.main == s.main || (s'.main == SignalMain(s).main && Rank(s'.workers[t]) + 6 <= Rank(s.workers[t]))
    requires Rank(s'.workers[t]) < Rank(s.workers[t])
    ensures Remaining(s') < Remaining(s)
  {
    RanksUpdate(s.workers, t, s'.workers[t]);
  }

  /** What a step does to its thread's rank and to main. */
  predicate Drops(s: State, t: nat, s': State) {
    && t < |s.workers| == |s'.workers| && Rank(s'.workers[t]) < Rank(s.workers[t]) && s'.ready == s.ready
    && (s'.main == s.main || (s'.main == SignalMain(s).main && Rank(s'.workers[t]) + 6 <= Rank(s.workers[t])))
  }

  lemma StartDrops(s: State, t: nat)
    requires t < |s.workers| && !s.workers[t].gift.Gift?
    requires var pc := s.workers[t].pc; pc.StartLock? || pc.StartTest? || pc.StartUnlock? || pc.LockQueue?
    ensures Drops(s, t, StartNext(s, t))
  {
  }

  lemma IdleDrops(s: State, t: nat)
    requires t < |s.workers| && Safe(s, Work(t, false))
    requires var pc := s.workers[t].pc;
      pc.SleepTest? || pc.LockFinish? || pc.Enqueue? || pc.SignalFinish? || pc.UnlockFinish? || pc.ReadyTest?
    requires s.workers[t].gift.Gift? ==> s.workers[t].pc.SleepTest?
    ensures Drops(s, t, IdleNext(s, t))
  {
  }

  lemma LeaveDrops(s: State, t: nat)
    requires t < |s.workers| && var pc := s.workers[t].pc; pc.Woken? || pc.ExitTest? || pc.ExitUnlock?
    ensures Drops(s, t, LeaveNext(s, t))
  {
  }

  lemma PublishingDrops(s: State, t: nat)
    requires t < |s.workers| && Publishing(s.workers[t].pc)
    ensures Drops(s, t, PublishNext(s, t))
  {
  }

  lemma FailSignalDrops(s: State, t: nat)
    requires t < |s.workers| && s.workers[t].pc.FailSignal?
    ensures Drops(s, t, FailNext(s, t))
  {
    var w := s.workers[t];
    assert FailNext(s, t).workers[t] == w.(pc := FailUnlock(w.pc.job, w.pc.rest));
  }

  lemma FailDrops(s: State, t: nat)
    requires t < |s.workers| && Failing(s.workers[t].pc) && !s.workers[t].pc.FailSignal?
    ensures Drops(s, t, FailNext(s, t))
  {
  }

  /** Only a thread that is woken or at work has been handed a directory. */
  lemma IdleHasNoGift(s: State, t: nat)
    requires At(s, t)
    requires var pc := s.workers[t].pc;
      || pc.StartLock? || pc.StartTest? || pc.StartUnlock? || pc.LockQueue? || pc.LockFinish? || pc.Enqueue?
      || pc.SignalFinish? || pc.UnlockFinish? || pc.ReadyTest?
    ensures !s.workers[t].gift.Gift?
  {
  }

  lemma OtherDrops(s: State, t: nat, fault: bool)
    requires Steps(s, t, fault)
    requires var pc := s.workers[t].pc; !pc.Scan? && !pc.Publish? && !pc.RaiseReady? && !pc.Claim?
    ensures Drops(s, t, WorkNext(s, t, fault))
  {
    var pc := s.workers[t].pc;
    if pc.StartLock? || pc.StartTest? || pc.StartUnlock? || pc.LockQueue? {
      IdleHasNoGift(s, t);
      StartDrops(s, t);
    } else if pc.SleepTest? {
      IdleDrops(s, t);
    } else if pc.LockFinish? || pc.Enqueue? || pc.SignalFinish? || pc.UnlockFinish? || pc.ReadyTest? {
      IdleHasNoGift(s, t);
      IdleDrops(s, t);
    } else if pc.Woken? || pc.ExitTest? || pc.ExitUnlock? {
      LeaveDrops(s, t);
    } else if Publishing(pc) {
      PublishingDrops(s, t);
    } else if pc.FailSignal? {
      FailSignalDrops(s, t);
    } else if Failing(pc) {
      FailDrops(s, t);
    }
  }

  lemma OtherShrinks(s: State, t: nat, fault: bool)
    requires Steps(s, t, fault)
    requires var pc := s.workers[t].pc; !pc.Scan? && !pc.Publish? && !pc.RaiseReady? && !pc.Claim?
    ensures Remaining(WorkNext(s, t, fault)) < Remaining(s)
  {
    OtherDebt(s, t, fault);
    OtherDrops(s, t, fault);
    MoveShrinks(s, t, WorkNext(s, t, fault));
  }

  lemma ClaimShrinks(s: State, t: nat)
    requires MayClaim(s, t)
    ensures Remaining(ClaimNext(s, t)) < Remaining(s)
  {
    var job := if s.workers[t].gift.Gift? then s.workers[t].gift.job else s.dirs[0];
    RanksUpdate(s.workers, t, s.workers[t].(pc := ClaimUnlock(job)));
  }

  lemma ScanRankDrops(s: State, t: nat, fault: bool, job: Job, rest: seq<Node>)
    requires t < |s.workers| && s.workers[t].pc == Scan(job, rest) && (fault ==> rest != [])
    ensures var s' := ScanNext(s, t, fault, job, rest);
      && s'.workers == s.workers[t := s'.workers[t]] && (s'.main, s'.dirs, s'.ready) == (s.main, s.dirs, s.ready)
      && Rank(s'.workers[t]) < Rank(s.workers[t])
  {
    if rest != [] {
      assert ListingCost(rest) == EntryCost(rest[0]) + ListingCost(rest[1..]);
    }
  }

  lemma ScanShrinks(s: State, t: nat, fault: bool, job: Job, rest: seq<Node>)
    requires t < |s.workers| && s.workers[t].pc == Scan(job, rest) && (fault ==> rest != [])
    ensures Remaining(ScanNext(s, t, fault, job, rest)) < Remaining(s)
  {
    ScanRankDrops(s, t, fault, job, rest);
    MoveShrinks(s, t, ScanNext(s, t, fault, job, rest));
  }

  lemma StoreShrinks(s: State, t: nat)
    requires t < |s.workers| && s.workers[t].pc.Publish?
    ensures Remaining(Published(s, t).(dirs := s.dirs + [s.workers[t].pc.sub])) < Remaining(s)
  {
    RanksUpdate(s.workers, t, Published(s, t).workers[t]);
    QueueCostAppend(s.dirs, s.workers[t].pc.sub);
  }

  /** Two threads move; the second was asleep. */
  lemma {:induction false} RanksUpdateTwo(ws: seq<Worker>, t: nat, w: Worker, u: nat, v: Worker)
    requires t < |ws| && u < |ws| && t != u
    ensures SumRanks(ws[t := w][u := v]) + Rank(ws[t]) + Rank(ws[u]) == SumRanks(ws) + Rank(w) + Rank(v)
  {
    RanksUpdate(ws, t, w);
    RanksUpdate(ws[t := w], u, v);
  }

  lemma HandRanks(w: Worker)
    requires w.pc.Publish?
    ensures Rank(w.(pc := PublishUnlock(w.pc.job, w.pc.rest))) + Rank(Worker(Woken, Gift(w.pc.sub))) < Rank(w)
    ensures Rank(Worker(Asleep, NoGift)) == 0
  {
  }

  lemma HandShrinks(s: State, t: nat)
    requires t < |s.workers| && s.workers[t].pc.Publish? && s.idle != [] && s.idle[0] < |s.workers|
    requires s.workers[s.idle[0]] == Worker(Asleep, NoGift)
    ensures Remaining(Handed(Published(s, t), s.workers[t].pc.sub)) < Remaining(s)
  {
    var w, v := Published(s, t).workers[t], Worker(Woken, Gift(s.workers[t].pc.sub));
    RanksUpdateTwo(s.workers, t, w, s.idle[0], v);
    HandRanks(s.workers[t]);
    assert Handed(Published(s, t), s.workers[t].pc.sub).workers == s.workers[t := w][s.idle[0] := v];
    WorkersShrink(s, Handed(Published(s, t), s.workers[t].pc.sub));
  }

  lemma PublishShrinks(s: State, t: nat)
    requires Inv(s) && Steps(s, t, false) && s.workers[t].pc.Publish?
    ensures Remaining(WorkNext(s, t, false)) < Remaining(s)
  {
    if s.idle == [] {
      StoreShrinks(s, t);
    } else {
      QueuedAreAsleep(s, s.idle[0]);
      assert RoleOk(ModeOf(s), s.idle[0], s.workers[s.idle[0]], true);
      BusyMeansNotQuiet(s, t);
      HandoffIsHanded(s, t);
      HandShrinks(s, t);
    }
  }

  lemma RaiseShrinks(s: State, t: nat)
    requires Gathered(s, t) && Queues(s)
    ensures Remaining(Raised(s, t)) < Remaining(s)
  {
    if |s.workers| == 1 {
      assert Raised(s, t).workers == s.workers[t := Worker(SleepTest, NoGift)];
      RanksUpdate(s.workers, t, Worker(SleepTest, NoGift));
    } else {
      assert Raised(s, t).workers == s.workers[s.idle[0] := Worker(Woken, NoGift)][t := Worker(Asleep, NoGift)];
      assert s.idle[0] != t && Rank(s.workers[s.idle[0]]) == 0;
      RanksUpdateTwo(s.workers, s.idle[0], Worker(Woken, NoGift), t, Worker(Asleep, NoGift));
    }
  }

  lemma WorkShrinks(s: State, t: nat, fault: bool)
    requires Inv(s) && Steps(s, t, fault)
    ensures Remaining(WorkNext(s, t, fault)) < Remaining(s)
  {
    var pc := s.workers[t].pc;
    if pc.Scan? {
      ScanShrinks(s, t, fault, pc.job, pc.rest);
    } else if pc.Publish? {
      PublishShrinks(s, t);
    } else if pc.RaiseReady? {
      AllGathered(s, t);
      RaiseIsRaised(s, t);
      RaiseShrinks(s, t);
    } else if pc.Claim? {
      ClaimShrinks(s, t);
    } else {
      OtherShrinks(s, t, fault);
    }
  }

  lemma StepShrinks(s: State, a: Action)
    requires Inv(s) && Enabled(s, a) && Safe(s, a)
    ensures Remaining(Next(s, a)) < Remaining(s)
  {
    match a
    case Main => MainShrinks(s);
    case Work(t, fault) =>
      InvAt(s, t);
      WorkShrinks(s, t, fault);
  }

  /** No run is longer than the bound on its first state. */
  lemma {:induction false} RunsAreBounded(s: State, acts: seq<Action>)
    requires Inv(s) && Run(s, acts)
    ensures |acts| + Remaining(End(s, acts)) <= Remaining(s)
    decreases |acts|
  {
    if acts != [] {
      StepKeeps(s, acts[0]);
      StepShrinks(s, acts[0]);
      RunsAreBounded(Next(s, acts[0]), acts[1..]);
    }
  }
}
