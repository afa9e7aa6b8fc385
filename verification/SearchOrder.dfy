/** In which order directories and idle threads are served, and which threads fail. */
module SearchOrder {
  import opened SearchTree
  import opened SearchProtocol
  import opened SearchInvariant
  import opened SearchPreservation
  import opened SearchLedger

  // ---- The directory queue is first in, first out ----

  /** The subdirectory that a step has to put into the queue: one that is published while nobody is idle. */
  function StoredBy(s: State, a: Action): seq<Job> {
    if a.Work? && a.t < |s.workers| && s.workers[a.t].pc.Publish? && s.idle == [] then [s.workers[a.t].pc.sub] else []
  }

  /** The directory that a step claims from the queue: any that is claimed by a thread to which none was handed. */
  function TakenBy(s: State, a: Action, s': State): seq<Job> {
    if a.Work? && a.t < |s.workers| && !s.workers[a.t].gift.Gift? && |s'.claims| > |s.claims|
    then [s'.claims[|s'.claims| - 1].1] else []
  }

  ghost function Stored(s: State, acts: seq<Action>): seq<Job>
    requires Run(s, acts)
    decreases |acts|
  {
    if acts == [] then [] else StoredBy(s, acts[0]) + Stored(Next(s, acts[0]), acts[1..])
  }

  ghost function Taken(s: State, acts: seq<Action>): seq<Job>
    requires Run(s, acts)
    decreases |acts|
  {
    if acts == [] then []
    else TakenBy(s, acts[0], Next(s, acts[0])) + Taken(Next(s, acts[0]), acts[1..])
  }

  predicate InOrder(s: State, a: Action, s': State) {
    s.dirs + StoredBy(s, a) == TakenBy(s, a, s') + s'.dirs
  }

  lemma MainInOrder(s: State)
    requires Enabled(s, Main) && Safe(s, Main)
    ensures InOrder(s, Main, MainNext(s))
  {
  }

  lemma ClaimInOrder(s: State, t: nat, fault: bool)
    requires MayClaim(s, t)
    ensures InOrder(s, Work(t, fault), ClaimNext(s, t))
  {
  }

  lemma PublishInOrder(s: State, t: nat, fault: bool)
    requires t < |s.workers| && s.workers[t].pc.Publish? && (s.idle != [] ==> s.idle[0] < |s.workers|)
    ensures InOrder(s, Work(t, fault), PublishNext(s, t))
  {
  }

  lemma RaiseInOrder(s: State, t: nat, fault: bool)
    requires t < |s.workers| && s.workers[t].pc.RaiseReady? && s.idle != [] && s.idle[0] < |s.workers|
    ensures InOrder(s, Work(t, fault), RaiseNext(s, t))
  {
  }

  lemma OtherInOrder(s: State, t: nat, fault: bool)
    requires Steps(s, t, fault)
    requires var pc := s.workers[t].pc; !pc.Scan? && !pc.Publish? && !pc.RaiseReady? && !pc.Claim?
    ensures InOrder(s, Work(t, fault), WorkNext(s, t, fault))
  {
    OtherDebt(s, t, fault);
    WorkLeaves(s, t, fault);
  }

  lemma StepInOrder(s: State, a: Action)
    requires Inv(s) && Enabled(s, a) && Safe(s, a)
    ensures InOrder(s, a, Next(s, a))
  {
    match a
    case Main => MainInOrder(s);
    case Work(t, fault) =>
      InvAt(s, t);
      var pc := s.workers[t].pc;
      if pc.Scan? {
        ScanIsMove(s, t, fault, pc.job, pc.rest);
      } else if pc.Publish? {
        PublishInOrder(s, t, fault);
      } else if pc.RaiseReady? {
        RaiseInOrder(s, t, fault);
      } else if pc.Claim? {
        ClaimInOrder(s, t, fault);
      } else {
        OtherInOrder(s, t, fault);
      }
  }

  lemma {:induction false} RunInOrder(s: State, acts: seq<Action>)
    requires Inv(s) && Run(s, acts)
    ensures s.dirs + Stored(s, acts) == Taken(s, acts) + End(s, acts).dirs
    decreases |acts|
  {
    if acts != [] {
      StepKeeps(s, acts[0]);
      StepInOrder(s, acts[0]);
      var next := Next(s, acts[0]);
      RunInOrder(next, acts[1..]);
      Chain(s.dirs, StoredBy(s, acts[0]), Stored(next, acts[1..]), TakenBy(s, acts[0], next), next.dirs,
            Taken(next, acts[1..]), End(next, acts[1..]).dirs);
    }
  }

  lemma Chain(a: seq<Job>, b: seq<Job>, c: seq<Job>, d: seq<Job>, e: seq<Job>, f: seq<Job>, g: seq<Job>)
    requires a + b == d + e && e + c == f + g
    ensures a + (b + c) == (d + f) + g
  {
    assert a + (b + c) == (a + b) + c == d + (e + c) == d + (f + g);
  }

  // ---- Idle threads are served longest idle first ----

  /** The idle threads are the latest to have entered the queue, in the order in which they entered. */
  predicate IdleIsSuffix(s: State) {
    IsSuffix(s.idle, s.order)
  }

  predicate IsSuffix(q: seq<nat>, all: seq<nat>) {
    |q| <= |all| && q == all[|all| - |q|..]
  }

  lemma SuffixGrows(q: seq<nat>, all: seq<nat>, t: nat)
    requires IsSuffix(q, all)
    ensures IsSuffix(q + [t], all + [t])
  {
  }

  lemma SuffixShrinks(q: seq<nat>, all: seq<nat>)
    requires IsSuffix(q, all) && q != []
    ensures IsSuffix(q[1..], all) && q[0] == all[|all| - |q|]
  {
  }

  /** What the three steps that change the idle queue do to it. */
  lemma EnqueueIdle(s: State, t: nat)
    requires t < |s.workers| && s.workers[t].pc.Enqueue?
    ensures var s' := IdleNext(s, t);
      (s'.idle, s'.order) == if t in s.idle then (s.idle, s.order) else (s.idle + [t], s.order + [t])
  {
  }

  lemma PublishIdle(s: State, t: nat)
    requires t < |s.workers| && s.workers[t].pc.Publish? && (s.idle != [] ==> s.idle[0] < |s.workers|)
    ensures (PublishNext(s, t).idle, PublishNext(s, t).order) == (if s.idle == [] then [] else s.idle[1..], s.order)
  {
  }

  lemma RaiseIdle(s: State, t: nat)
    requires t < |s.workers| && s.idle != [] && s.idle[0] < |s.workers|
    ensures (RaiseNext(s, t).idle, RaiseNext(s, t).order) == (s.idle[1..], s.order)
  {
  }

  lemma StepKeepsSuffix(s: State, a: Action)
    requires Enabled(s, a) && Safe(s, a) && IdleIsSuffix(s)
    ensures IdleIsSuffix(Next(s, a))
  {
    match a
    case Main => MainLeaves(s);
    case Work(t, fault) =>
      var pc := s.workers[t].pc;
      if pc.Scan? {
        ScanIsMove(s, t, fault, pc.job, pc.rest);
      } else if pc.Enqueue? {
        EnqueueIdle(s, t);
        SuffixGrows(s.idle, s.order, t);
      } else if pc.Publish? {
        PublishIdle(s, t);
        if s.idle != [] { SuffixShrinks(s.idle, s.order); }
      } else if pc.RaiseReady? {
        RaiseIdle(s, t);
        SuffixShrinks(s.idle, s.order);
      } else {
        WorkLeaves(s, t, fault);
      }
  }

  lemma {:induction false} RunKeepsSuffix(s: State, acts: seq<Action>)
    requires Run(s, acts) && IdleIsSuffix(s)
    ensures IdleIsSuffix(End(s, acts))
    decreases |acts|
  {
    if acts != [] {
      StepKeepsSuffix(s, acts[0]);
      RunKeepsSuffix(Next(s, acts[0]), acts[1..]);
    }
  }

  // ---- Threads fail exactly by a failing system call ----

  predicate HasFailed(pc: PC) { Failing(pc) || pc.Failed? }

  /** A step of `t` makes no other thread fail or recover. */
  predicate Nudged(s: State, t: nat, s': State) {
    && t < |s.workers| == |s'.workers|
    && forall u :: 0 <= u < |s.workers| && u != t ==> HasFailed(s'.workers[u].pc) == HasFailed(s.workers[u].pc)
  }

  predicate FailsIf(s: State, t: nat, s': State, fault: bool) {
    Nudged(s, t, s') && (HasFailed(s'.workers[t].pc) <==> HasFailed(s.workers[t].pc) || fault)
  }

  lemma StartFails(s: State, t: nat)
    requires t < |s.workers|
    requires var pc := s.workers[t].pc; pc.StartLock? || pc.StartTest? || pc.StartUnlock? || pc.LockQueue?
    ensures FailsIf(s, t, StartNext(s, t), false)
  {
  }

  lemma IdleFails(s: State, t: nat)
    requires t < |s.workers| && Safe(s, Work(t, false))
    requires var pc := s.workers[t].pc;
      pc.SleepTest? || pc.LockFinish? || pc.Enqueue? || pc.SignalFinish? || pc.UnlockFinish? || pc.ReadyTest?
    ensures FailsIf(s, t, IdleNext(s, t), false)
  {
  }

  lemma RaiseFails(s: State, t: nat)
    requires t < |s.workers| && s.workers[t].pc.RaiseReady? && s.idle != [] && s.idle[0] < |s.workers|
    ensures FailsIf(s, t, RaiseNext(s, t), false)
  {
  }

  lemma LeaveFails(s: State, t: nat)
    requires t < |s.workers| && var pc := s.workers[t].pc; pc.Woken? || pc.ExitTest? || pc.ExitUnlock?
    ensures FailsIf(s, t, LeaveNext(s, t), false)
  {
  }

  lemma ClaimFails(s: State, t: nat)
    requires MayClaim(s, t)
    ensures FailsIf(s, t, ClaimNext(s, t), false)
  {
  }

  lemma PublishFails(s: State, t: nat)
    requires t < |s.workers| && s.workers[t].pc.Publish?
    requires s.idle != [] ==> s.idle[0] < |s.workers| && s.idle[0] != t
    ensures FailsIf(s, t, PublishNext(s, t), false)
  {
    var s' := PublishNext(s, t);
    assert |s'.workers| == |s.workers| && s'.workers[t].pc.PublishUnlock?;
    forall u | 0 <= u < |s.workers| && u != t
      ensures HasFailed(s'.workers[u].pc) == HasFailed(s.workers[u].pc)
    {
      assert s'.workers[u].pc == s.workers[u].pc || (s.workers[u].pc.Asleep? && s'.workers[u].pc.Woken?);
    }
  }

  lemma PublishingFails(s: State, t: nat)
    requires t < |s.workers| && Publishing(s.workers[t].pc)
    ensures FailsIf(s, t, PublishNext(s, t), false)
  {
  }

  lemma FailFails(s: State, t: nat)
    requires t < |s.workers| && Failing(s.workers[t].pc)
    ensures FailsIf(s, t, FailNext(s, t), false)
  {
  }

  lemma ScanFails(s: State, t: nat, fault: bool, job: Job, rest: seq<Node>)
    requires t < |s.workers| && s.workers[t].pc == Scan(job, rest) && (fault ==> rest != [])
    ensures FailsIf(s, t, ScanNext(s, t, fault, job, rest), fault)
  {
  }

  lemma WorkFails(s: State, t: nat, fault: bool)
    requires Steps(s, t, fault)
    ensures FailsIf(s, t, WorkNext(s, t, fault), fault)
  {
    var pc := s.workers[t].pc;
    if pc.StartLock? || pc.StartTest? || pc.StartUnlock? || pc.LockQueue? {
      StartFails(s, t);
    } else if pc.SleepTest? || pc.LockFinish? || pc.Enqueue? || pc.SignalFinish? || pc.UnlockFinish? || pc.ReadyTest? {
      IdleFails(s, t);
    } else if pc.RaiseReady? {
      RaiseFails(s, t);
    } else if pc.Woken? || pc.ExitTest? || pc.ExitUnlock? {
      LeaveFails(s, t);
    } else if pc.Claim? {
      ClaimFails(s, t);
    } else if pc.Scan? {
      ScanFails(s, t, fault, pc.job, pc.rest);
    } else if pc.Publish? {
      PublishFails(s, t);
    } else if Publishing(pc) {
      PublishingFails(s, t);
    } else if Failing(pc) {
      FailFails(s, t);
    }
  }

  lemma MainFails(s: State, u: nat)
    requires Enabled(s, Main) && Safe(s, Main) && u < |s.workers|
    ensures |MainNext(s).workers| == |s.workers|
    ensures HasFailed(MainNext(s).workers[u].pc) == HasFailed(s.workers[u].pc)
  {
  }

  lemma StepFails(s: State, a: Action, u: nat)
    requires Inv(s) && Enabled(s, a) && Safe(s, a) && u < |s.workers|
    ensures |Next(s, a).workers| == |s.workers|
    ensures HasFailed(Next(s, a).workers[u].pc) <==> HasFailed(s.workers[u].pc) || a == Work(u, true)
  {
    match a
    case Main => MainFails(s, u);
    case Work(t, fault) =>
      InvAt(s, t);
      WorkFails(s, t, fault);
  }

  lemma {:induction false} RunFails(s: State, acts: seq<Action>, u: nat)
    requires Inv(s) && Run(s, acts) && u < |s.workers|
    ensures |End(s, acts).workers| == |s.workers|
    ensures HasFailed(End(s, acts).workers[u].pc) <==> HasFailed(s.workers[u].pc) || Work(u, true) in acts
    decreases |acts|
  {
    if acts != [] {
      StepKeeps(s, acts[0]);
      StepFails(s, acts[0], u);
      FirstOrLater(acts, Work(u, true));
      RunFails(Next(s, acts[0]), acts[1..], u);
    }
  }

  lemma FirstOrLater(acts: seq<Action>, a: Action)
    requires acts != []
    ensures a in acts <==> a == acts[0] || a in acts[1..]
  {
    assert acts == [acts[0]] + acts[1..];
  }

  /** A system call that may fail is pending exactly before opening a directory and at every entry but `.` and `..`. */
  lemma FaultsArePossible(s: State, t: nat)
    requires t < |s.workers|
    ensures Enabled(s, Work(t, true)) <==>
      match s.workers[t].pc
      case Open(_) => true
      case Scan(_, rest) => rest != [] && rest[0].name != "." && rest[0].name != ".."
      case _ => false
  {
  }
}
