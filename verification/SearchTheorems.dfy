/** What holds for every run of the parallel search from its initial state, whatever the number of
    threads, the directory tree and the interleaving. */
module SearchTheorems {
  import opened SearchTree
  import opened SearchProtocol
  import opened SearchInvariant
  import opened SearchPreservation
  import opened SearchLedger
  import opened SearchTrails
  import opened SearchPlaces
  import opened SearchOrder
  import opened SearchProgress

  /** `s` is where some run of `n` workers over `root` arrives. */
  ghost predicate Reaches(term: string, root: Job, n: nat, acts: seq<Action>, s: State) {
    n > 0 && Run(Init(term, root, n), acts) && s == End(Init(term, root, n), acts)
  }

  lemma ReachesInv(term: string, root: Job, n: nat, acts: seq<Action>, s: State)
    requires Reaches(term, root, n, acts, s)
    ensures Inv(s)
  {
    InitInv(term, root, n);
    RunKeeps(Init(term, root, n), acts);
  }

  // ---- Work conservation ----

  /** What never changes, and what the counter of found files means. */
  predicate Books(s: State, term: string, root: Job, n: nat) {
    s.term == term && s.root == root && |s.workers| == n && s.found == Weigh(HitWeight, s.log)
  }

  lemma ScanBooks(s: State, t: nat, fault: bool, job: Job, rest: seq<Node>)
    requires t < |s.workers| && Books(s, s.term, s.root, |s.workers|) && (fault ==> rest != [])
    ensures Books(ScanNext(s, t, fault, job, rest), s.term, s.root, |s.workers|)
  {
    var s' := ScanNext(s, t, fault, job, rest);
    if |s'.log| > |s.log| {
      WeighConcat(HitWeight, s.log, [s'.log[|s.log|]]);
    }
  }

  lemma StepBooks(s: State, a: Action)
    requires Enabled(s, a) && Safe(s, a) && Books(s, s.term, s.root, |s.workers|)
    ensures Books(Next(s, a), s.term, s.root, |s.workers|)
  {
    match a
    case Main => MainLeaves(s);
    case Work(t, fault) =>
      if s.workers[t].pc.Scan? {
        ScanBooks(s, t, fault, s.workers[t].pc.job, s.workers[t].pc.rest);
      } else {
        WorkLeaves(s, t, fault);
      }
  }

  lemma {:induction false} RunBooks(s: State, acts: seq<Action>)
    requires Run(s, acts) && Books(s, s.term, s.root, |s.workers|)
    ensures Books(End(s, acts), s.term, s.root, |s.workers|)
    decreases |acts|
  {
    if acts != [] {
      StepBooks(s, acts[0]);
      RunBooks(Next(s, acts[0]), acts[1..]);
    }
  }

  lemma {:induction false} RunTotal(f: Event -> nat, s: State, acts: seq<Action>)
    requires Inv(s) && Run(s, acts)
    ensures Total(f, End(s, acts)) == Total(f, s)
    decreases |acts|
  {
    if acts != [] {
      StepTotal(f, s, acts[0]);
      StepKeeps(s, acts[0]);
      RunTotal(f, Next(s, acts[0]), acts[1..]);
    }
  }

  lemma {:induction false} NoDebts(f: Event -> nat, term: string, ws: seq<Worker>)
    requires forall t :: 0 <= t < |ws| ==> DebtOf(ws[t]) == Nothing
    ensures SumDebts(f, term, ws) == 0
  {
    if ws != [] {
      NoDebts(f, term, ws[1..]);
    }
  }

  lemma InitTotal(f: Event -> nat, term: string, root: Job, n: nat)
    ensures Total(f, Init(term, root, n)) == Worth(f, term, root)
  {
    NoDebts(f, term, Init(term, root, n).workers);
    assert SumJobs(f, term, [root]) == Worth(f, term, root);
  }

  /** Work conservation, failures included: whatever events are weighed, the finished part, the queued
      directories and the threads' current or abandoned directories add up to the sequential search. */
  lemma WorkConservation(f: Event -> nat, term: string, root: Job, n: nat, acts: seq<Action>, s: State)
    requires Reaches(term, root, n, acts, s)
    ensures Weigh(f, s.log) + SumJobs(f, term, s.dirs) + SumDebts(f, term, s.workers) == Weigh(f, Search(term, root))
    ensures s.found == Weigh(HitWeight, s.log)
  {
    InitInv(term, root, n);
    InitTotal(f, term, root, n);
    RunTotal(f, Init(term, root, n), acts);
    RunBooks(Init(term, root, n), acts);
  }

  lemma JobNamesItself(term: string, job: Job)
    ensures Worth(Only(Scanned(job.path)), term, job) >= 1
  {
    WholeListing(Only(Scanned(job.path)), term, job);
  }

  lemma NamedIsOwed(term: string, d: Debt, path: string)
    ensures Named(d, path) <= Owed(Only(Scanned(path)), term, d)
  {
    match d
    case Whole(job) => JobNamesItself(term, job);
    case Both(_, _, sub) => JobNamesItself(term, sub);
    case _ =>
  }

  lemma {:induction false} ThreadsOwe(term: string, ws: seq<Worker>, path: string)
    ensures NamedByThreads(ws, path) <= SumDebts(Only(Scanned(path)), term, ws)
  {
    if ws != [] {
      NamedIsOwed(term, DebtOf(ws[0]), path);
      ThreadsOwe(term, ws[1..], path);
    }
  }

  lemma {:induction false} QueueOwes(term: string, q: seq<Job>, path: string)
    ensures NamedInQueue(q, path) <= SumJobs(Only(Scanned(path)), term, q)
  {
    if q != [] {
      JobNamesItself(term, q[0]);
      QueueOwes(term, q[1..], path);
    }
  }

  lemma AtMostOnePlace(s: State, root: Job, path: string)
    requires WellFormed(root.listing) && Total(Only(Scanned(path)), s) == Worth(Only(Scanned(path)), s.term, root)
    ensures Places(s, path) <= 1
  {
    var x := Scanned(path);
    WeighCounts(x, s.log);
    WeighCounts(x, Search(s.term, root));
    SearchJobNoRepeats(s.term, root);
    NoRepeatsCountsOnce(Search(s.term, root), x);
    ThreadsOwe(s.term, s.workers, path);
    QueueOwes(s.term, s.dirs, path);
  }

  /** In a file system with distinct names, the root and every directory whose entry has been read is in exactly one
      place: finished, queued, handed over, being scanned, or abandoned. Any other directory is in none. */
  lemma OnePlace(term: string, root: Job, n: nat, acts: seq<Action>, s: State, path: string)
    requires Reaches(term, root, n, acts, s) && WellFormed(root.listing)
    ensures Places(s, path) == if path == root.path || Discovered(Init(term, root, n), acts, path) then 1 else 0
  {
    InitInv(term, root, n);
    InitPlaces(term, root, n, path);
    RunPlaces(Init(term, root, n), acts, path);
    InitTotal(Only(Scanned(path)), term, root, n);
    RunTotal(Only(Scanned(path)), Init(term, root, n), acts);
    RunBooks(Init(term, root, n), acts);
    AtMostOnePlace(s, root, path);
  }

  /** A directory that had a place, or was taken up for scanning, at any earlier moment is in exactly one place now. */
  lemma NeverLost(term: string, root: Job, n: nat, acts: seq<Action>, mid: State, more: seq<Action>, path: string)
    requires Reaches(term, root, n, acts, mid) && Run(mid, more) && WellFormed(root.listing)
    requires Places(mid, path) >= 1 || exists c :: c in mid.claims && c.1.path == path
    ensures Places(End(mid, more), path) == 1
  {
    ReachesInv(term, root, n, acts, mid);
    InitInv(term, root, n);
    RunClaims(Init(term, root, n), acts);
    RunPlaces(mid, more, path);
    InitTotal(Only(Scanned(path)), term, root, n);
    RunTotal(Only(Scanned(path)), Init(term, root, n), acts);
    RunTotal(Only(Scanned(path)), mid, more);
    RunBooks(Init(term, root, n), acts);
    RunBooks(mid, more);
    AtMostOnePlace(End(mid, more), root, path);
  }

  // ---- The result ----

  lemma DoneMeansNothingOwed(s: State)
    requires Inv(s) && s.main.MainPrinted? && s.failed == 0
    ensures s.dirs == [] && forall t :: 0 <= t < |s.workers| ==> DebtOf(s.workers[t]) == Nothing
  {
    assert s.dead == {};
    forall t | 0 <= t < |s.workers| ensures DebtOf(s.workers[t]) == Nothing {
      assert Exited(s.workers[t].pc) && t !in s.dead;
      assert RoleOk(ModeOf(s), t, s.workers[t], t in s.idle);
    }
  }

  lemma AllWorkDone(f: Event -> nat, term: string, root: Job, n: nat, acts: seq<Action>, s: State)
    requires Reaches(term, root, n, acts, s) && s.main.MainPrinted? && s.failed == 0
    ensures Weigh(f, s.log) == Weigh(f, Search(term, root))
    ensures s.main.shown == Weigh(HitWeight, s.log)
  {
    ReachesInv(term, root, n, acts, s);
    DoneMeansNothingOwed(s);
    WorkConservation(f, term, root, n, acts, s);
    NoDebts(f, term, s.workers);
  }

  lemma HitsOfSearch(term: string, root: Job)
    ensures Weigh(HitWeight, Search(term, root)) == CountFiles(term, root.listing)
  {
    HitsAreCounted(term, root.path, root.listing);
    WeighConcat(HitWeight, SearchListing(term, root.path, root.listing), [Scanned(root.path)]);
  }

  /** Parallel search refines sequential search: when no worker failed, main prints the recursive count,
      and the scanned directories and printed paths are those of the sequential search, each as often;
      with distinct names, that is once each. */
  lemma ParallelRefinesSequential(term: string, root: Job, n: nat, acts: seq<Action>, s: State)
    requires Reaches(term, root, n, acts, s) && s.main.MainPrinted? && s.failed == 0
    ensures s.main.shown == CountFiles(term, root.listing)
    ensures multiset(s.log) == multiset(Search(term, root))
    ensures WellFormed(root.listing) ==> forall x :: multiset(s.log)[x] == if x in Search(term, root) then 1 else 0
  {
    AllWorkDone(HitWeight, term, root, n, acts, s);
    HitsOfSearch(term, root);
    forall x ensures multiset(s.log)[x] == multiset(Search(term, root))[x] {
      AllWorkDone(Only(x), term, root, n, acts, s);
      WeighCounts(x, s.log);
      WeighCounts(x, Search(term, root));
    }
    if WellFormed(root.listing) {
      SearchJobNoRepeats(term, root);
      forall x ensures multiset(s.log)[x] == if x in Search(term, root) then 1 else 0 {
        NoRepeatsCountsOnce(Search(term, root), x);
      }
    }
  }

  lemma ExitedOwes(m: Mode, t: nat, w: Worker, queued: bool)
    requires RoleOk(m, t, w, queued) && Exited(w.pc)
    ensures DebtOf(w) == Nothing || w.pc.Failed?
  {
  }

  /** The same without reference to a search: when no worker failed, the finished part of a completed run holds the
      root, the searchable directories and the matching files that trails lead to, and nothing else. */
  lemma ParallelFindsExactly(term: string, root: Job, n: nat, acts: seq<Action>, s: State, x: Event)
    requires Reaches(term, root, n, acts, s) && s.main.MainPrinted? && s.failed == 0
    ensures x in s.log <==> x == Scanned(root.path) || exists trail :: TrailTo(term, root.path, root.listing, trail, x)
  {
    ParallelRefinesSequential(term, root, n, acts, s);
    SearchFindsExactly(term, root, x);
    assert x in s.log <==> x in multiset(s.log);
    assert x in Search(term, root) <==> x in multiset(Search(term, root));
  }

  /** Threads fail exactly by a failing `opendir` or `stat`: such a thread is failing or has failed, no other is, and
      when main has printed these are the threads counted as failed. */
  lemma FailuresAreFaults(term: string, root: Job, n: nat, acts: seq<Action>, s: State)
    requires Reaches(term, root, n, acts, s)
    ensures |s.workers| == n
    ensures forall t: nat :: t < n ==> (HasFailed(s.workers[t].pc) <==> Work(t, true) in acts)
    ensures s.main.MainPrinted? ==> forall t: nat :: t in s.dead <==> t < n && Work(t, true) in acts
    ensures s.main.MainPrinted? ==> (s.failed == 0 <==> forall a :: a in acts ==> !(a.Work? && a.t < n && a.fault))
  {
    ReachesInv(term, root, n, acts, s);
    InitInv(term, root, n);
    RunBooks(Init(term, root, n), acts);
    forall t: nat | t < n
      ensures HasFailed(s.workers[t].pc) <==> Work(t, true) in acts
    {
      RunFails(Init(term, root, n), acts, t);
    }
    if s.main.MainPrinted? { DeadAreFaulted(s, acts); }
  }

  lemma DeadAreFaulted(s: State, acts: seq<Action>)
    requires Inv(s) && s.main.MainPrinted?
    requires forall t: nat :: t < |s.workers| ==> (HasFailed(s.workers[t].pc) <==> Work(t, true) in acts)
    ensures forall t: nat :: t in s.dead <==> t < |s.workers| && Work(t, true) in acts
    ensures s.failed == 0 <==> forall a :: a in acts ==> !(a.Work? && a.t < |s.workers| && a.fault)
  {
    forall t: nat
      ensures t in s.dead <==> t < |s.workers| && Work(t, true) in acts
    {
      if t < |s.workers| { assert Exited(s.workers[t].pc); }
    }
    if s.failed == 0 {
      assert s.dead == {};
      forall a | a in acts && a.Work? && a.t < |s.workers|
        ensures !a.fault
      {
        assert a.t !in s.dead && Work(a.t, true) !in acts;
        assert a == Work(a.t, a.fault);
      }
    } else {
      var t :| t in s.dead;
      assert Work(t, true) in acts;
    }
  }

  /** With failing workers main prints what was found, never too much: the missing files lie in the
      directories that failed threads abandoned, or that all-failed threads left in the queue. */
  lemma FailuresOnlyLose(term: string, root: Job, n: nat, acts: seq<Action>, s: State)
    requires Reaches(term, root, n, acts, s) && s.main.MainPrinted?
    ensures s.main.shown + SumJobs(HitWeight, term, s.dirs) + SumDebts(HitWeight, term, s.workers)
         == CountFiles(term, root.listing)
    ensures forall t :: 0 <= t < |s.workers| ==> (DebtOf(s.workers[t]) != Nothing ==> s.workers[t].pc.Failed?)
    ensures s.dirs != [] ==> s.failed == |s.workers|
  {
    ReachesInv(term, root, n, acts, s);
    WorkConservation(HitWeight, term, root, n, acts, s);
    HitsOfSearch(term, root);
    forall t | 0 <= t < |s.workers| ensures DebtOf(s.workers[t]) != Nothing ==> s.workers[t].pc.Failed? {
      assert Exited(s.workers[t].pc);
      assert RoleOk(ModeOf(s), t, s.workers[t], t in s.idle);
      ExitedOwes(ModeOf(s), t, s.workers[t], t in s.idle);
    }
  }

  // ---- Termination detection ----

  /** When main leaves its loop, no directory is being scanned or awaits a woken thread, and either the
      directory queue is empty or all threads have failed. */
  lemma TerminationDetectionIsSound(term: string, root: Job, n: nat, acts: seq<Action>, s: State)
    requires Reaches(term, root, n, acts, s) && (s.main.MainStop? || Stopped(s.main))
    ensures s.dirs == [] || s.failed == n
    ensures |s.workers| == n
    ensures forall t :: 0 <= t < n ==> DebtOf(s.workers[t]) == Nothing || (s.workers[t].pc.Failed? && t in s.dead)
  {
    ReachesInv(term, root, n, acts, s);
    RunBooks(Init(term, root, n), acts);
    Census(s);
    forall t | 0 <= t < n
      ensures DebtOf(s.workers[t]) == Nothing || (s.workers[t].pc.Failed? && t in s.dead)
    {
      assert t in s.idle || t in s.dead;
      QuietOwes(s, t);
    }
  }

  /** When main has seen everyone idle or failed, a thread that owes anything has failed. */
  lemma QuietOwes(s: State, t: nat)
    requires Inv(s) && (s.main.MainStop? || Stopped(s.main)) && t < |s.workers| && (t in s.idle || t in s.dead)
    ensures DebtOf(s.workers[t]) == Nothing || (s.workers[t].pc.Failed? && t in s.dead)
  {
    assert RoleOk(ModeOf(s), t, s.workers[t], t in s.idle);
    assert LocksAt(s.searchLock, s.finishLock, s.queueLock, t, s.workers[t].pc);
  }

  // ---- Scheduling and startup ----

  /** Once the root is claimed idle threads exclude queued directories; no thread is queued twice; queued
      threads have no directory; scanning and failed threads are not queued. */
  lemma SchedulerExclusion(term: string, root: Job, n: nat, acts: seq<Action>, s: State)
    requires Reaches(term, root, n, acts, s)
    ensures s.claims != [] && s.idle != [] ==> s.dirs == []
    ensures forall i, j :: 0 <= i < j < |s.idle| ==> s.idle[i] != s.idle[j]
    ensures forall t :: t in s.idle ==>
      t < |s.workers| && s.workers[t].gift == NoGift && DebtOf(s.workers[t]) == Nothing && t !in s.dead
    ensures |s.idle| + s.failed <= n
  {
    ReachesInv(term, root, n, acts, s);
    RunBooks(Init(term, root, n), acts);
    Census(s);
    forall t | t in s.idle
      ensures t < |s.workers| && s.workers[t].gift == NoGift && DebtOf(s.workers[t]) == Nothing && t !in s.dead
    {
      assert RoleOk(ModeOf(s), t, s.workers[t], t in s.idle);
    }
  }

  /** Nothing is claimed before the ready flag is up; the first claim is the root, by the first thread
      that entered the idle queue. */
  lemma FirstClaim(term: string, root: Job, n: nat, acts: seq<Action>, s: State)
    requires Reaches(term, root, n, acts, s)
    ensures !s.ready ==> s.claims == [] && s.dirs == [root] && s.log == []
    ensures s.claims != [] ==> s.order != [] && s.claims[0] == (s.order[0], root)
  {
    ReachesInv(term, root, n, acts, s);
    RunBooks(Init(term, root, n), acts);
    if !s.ready {
      WorkConservation(_ => 1, term, root, n, acts, s);
      assert SumJobs(_ => 1, term, [root]) == Worth(_ => 1, term, root);
    }
  }

  /** The directory queue serves in order: the directories claimed from it, followed by those still in it, are the root
      followed by the subdirectories that were published while nobody was idle. */
  lemma DirectoriesInOrder(term: string, root: Job, n: nat, acts: seq<Action>, s: State)
    requires Reaches(term, root, n, acts, s)
    ensures [root] + Stored(Init(term, root, n), acts) == Taken(Init(term, root, n), acts) + s.dirs
  {
    InitInv(term, root, n);
    RunInOrder(Init(term, root, n), acts);
  }

  /** The idle queue holds the latest threads to have become idle, in that order; and a subdirectory published while
      threads are idle is handed to the first of them, which has been idle longest. */
  lemma LongestIdleIsServed(term: string, root: Job, n: nat, acts: seq<Action>, s: State, t: nat)
    requires Reaches(term, root, n, acts, s)
    ensures IdleIsSuffix(s)
    ensures t < |s.workers| && s.workers[t].pc.Publish? && s.idle != [] ==>
      var u, job := s.order[|s.order| - |s.idle|], s.workers[t].pc.sub;
      && Enabled(s, Work(t, false)) && Safe(s, Work(t, false)) && u < |s.workers|
      && u == s.idle[0] && WorkNext(s, t, false) == Handed(Published(s, t), job)
  {
    ReachesInv(term, root, n, acts, s);
    RunKeepsSuffix(Init(term, root, n), acts);
    if t < |s.workers| && s.workers[t].pc.Publish? && s.idle != [] {
      SuffixShrinks(s.idle, s.order);
      FirstIdleIsServed(s, t);
    }
  }

  lemma FirstIdleIsServed(s: State, t: nat)
    requires Inv(s) && t < |s.workers| && s.workers[t].pc.Publish? && s.idle != []
    ensures Enabled(s, Work(t, false)) && Safe(s, Work(t, false)) && s.idle[0] < |s.workers|
    ensures WorkNext(s, t, false) == Handed(Published(s, t), s.workers[t].pc.sub)
  {
    InvAt(s, t);
    assert Steps(s, t, false);
    QueuedAreAsleep(s, s.idle[0]);
    BusyMeansNotQuiet(s, t);
    HandoffIsHanded(s, t);
  }

  /** The ready flag goes up exactly once: it stays up, and the step that raises it is taken by the last of
      all N threads to have entered the idle queue, each having entered it once. */
  lemma ReadyIsRaisedOnceByTheLast(term: string, root: Job, n: nat, acts: seq<Action>, s: State, a: Action)
    requires Reaches(term, root, n, acts, s) && Enabled(s, a)
    ensures Safe(s, a)
    ensures s.ready ==> Next(s, a).ready
    ensures !s.ready && Next(s, a).ready ==>
      && a.Work? && |s.order| == |s.workers| && s.order[|s.order| - 1] == a.t
      && (forall u :: 0 <= u < |s.workers| ==> u in s.order)
  {
    ReachesInv(term, root, n, acts, s);
    InvSafe(s, a);
    if a.Main? {
      MainLeaves(s);
    } else if s.workers[a.t].pc.RaiseReady? {
      AllGathered(s, a.t);
      RaiseIsRaised(s, a.t);
    } else if s.workers[a.t].pc.Scan? {
      ScanIsMove(s, a.t, a.fault, s.workers[a.t].pc.job, s.workers[a.t].pc.rest);
    } else {
      WorkLeaves(s, a.t, a.fault);
    }
  }

  // ---- Progress ----

  /** Main never sleeps on finish_cv with its exit condition true unless some worker that holds finish_mutex
      is just about to signal it. */
  lemma MainIsNeverForgotten(term: string, root: Job, n: nat, acts: seq<Action>, s: State)
    requires Reaches(term, root, n, acts, s) && s.main.MainWaiting? && ExitCondition(s)
    ensures exists t :: 0 <= t < |s.workers| && s.finishLock == By(t) && Enabled(s, Work(t, false))
                     && Safe(s, Work(t, false)) && WorkNext(s, t, false).main == MainWoken
  {
    ReachesInv(term, root, n, acts, s);
    NoLostWakeup(s);
    var t :| 0 <= t < |s.workers| && s.finishLock == By(t)
      && (s.workers[t].pc.SignalFinish? || s.workers[t].pc.FailSignal?);
    SignalWakes(s, t);
  }

  lemma SignalWakes(s: State, t: nat)
    requires Inv(s) && t < |s.workers| && s.main.MainWaiting?
    requires s.workers[t].pc.SignalFinish? || s.workers[t].pc.FailSignal?
    ensures Enabled(s, Work(t, false)) && Safe(s, Work(t, false)) && WorkNext(s, t, false).main == MainWoken
  {
  }

  /** Every run is shorter than a bound computed from the tree and the number of threads, and a run that
      cannot be continued has ended with main printing and every worker exited. */
  lemma EveryRunTerminates(term: string, root: Job, n: nat, acts: seq<Action>, s: State)
    requires Reaches(term, root, n, acts, s)
    ensures |acts| <= 35 * n + 37 + JobCost(root)
    ensures (forall a :: !Enabled(s, a)) ==> s.main.MainPrinted? && AllExited(s)
    ensures forall a :: Enabled(s, a) ==> Safe(s, a)
  {
    ReachesInv(term, root, n, acts, s);
    InitInv(term, root, n);
    RunKeeps(Init(term, root, n), acts);
    RunsAreBounded(Init(term, root, n), acts);
    RemainingNonNegative(s);
    InitialRanks(seq(n, _ => Worker(StartLock, Unset)));
    assert QueueCost([root]) == JobCost(root);
    if !s.main.MainPrinted? {
      NoDeadlock(s);
    }
  }

  lemma {:induction false} InitialRanks(ws: seq<Worker>)
    requires forall i :: 0 <= i < |ws| ==> ws[i] == Worker(StartLock, Unset)
    ensures SumRanks(ws) == 17 * |ws|
  {
    if ws != [] {
      InitialRanks(ws[1..]);
    }
  }

  /** From every reachable state the search can be completed. */
  lemma {:induction false} CanFinish(s: State) returns (acts: seq<Action>)
    requires Inv(s)
    ensures Run(s, acts) && End(s, acts).main.MainPrinted?
    decreases Remaining(s)
  {
    RemainingNonNegative(s);
    if s.main.MainPrinted? {
      acts := [];
    } else {
      NoDeadlock(s);
      var a :| Enabled(s, a);
      StepKeeps(s, a);
      StepShrinks(s, a);
      RemainingNonNegative(Next(s, a));
      var rest := CanFinish(Next(s, a));
      acts := [a] + rest;
      assert acts[1..] == rest;
    }
  }
}
