/** Conservation of work: under any weighting of events, what has been done, what is queued, and what
    threads hold or have abandoned always add up to what the sequential search would do. */
module SearchLedger {
  import opened SearchTree
  import opened SearchProtocol
  import opened SearchInvariant
  import opened SearchPreservation

  // ---- Sums over threads and over queued directories ----

  /** What a thread still owes: the directory given to it, or the rest of the one it scans, with a
      subdirectory in hand while it publishes it. A failed thread keeps what it abandoned. */
  datatype Debt =
    | Nothing
    | Whole(job: Job)
    | Rest(job: Job, rest: seq<Node>)
    | Both(job: Job, rest: seq<Node>, sub: Job)

  function DebtOf(w: Worker): Debt {
    match w.pc
    case ClaimUnlock(job) => Whole(job)
    case Open(job) => Whole(job)
    case Scan(job, rest) => Rest(job, rest)
    case PublishLock(job, rest, sub) => Both(job, rest, sub)
    case Publish(job, rest, sub) => Both(job, rest, sub)
    case PublishUnlock(job, rest) => Rest(job, rest)
    case FailLock(job, rest) => Rest(job, rest)
    case FailCount(job, rest) => Rest(job, rest)
    case FailSignal(job, rest) => Rest(job, rest)
    case FailUnlock(job, rest) => Rest(job, rest)
    case Failed(job, rest) => Rest(job, rest)
    case _ => if w.gift.Gift? then Whole(w.gift.job) else Nothing
  }

  function SumDebts(f: Event -> nat, term: string, ws: seq<Worker>): nat {
    if ws == [] then 0 else Owed(f, term, DebtOf(ws[0])) + SumDebts(f, term, ws[1..])
  }

  function SumJobs(f: Event -> nat, term: string, q: seq<Job>): nat {
    if q == [] then 0 else Worth(f, term, q[0]) + SumJobs(f, term, q[1..])
  }

  /** What a complete search of `job` is worth. */
  function Worth(f: Event -> nat, term: string, job: Job): nat {
    Weigh(f, Search(term, job))
  }

  function RestWorth(f: Event -> nat, term: string, job: Job, rest: seq<Node>): nat {
    Weigh(f, SearchListing(term, job.path, rest)) + f(Scanned(job.path))
  }

  function Owed(f: Event -> nat, term: string, d: Debt): nat {
    match d
    case Nothing => 0
    case Whole(job) => Worth(f, term, job)
    case Rest(job, rest) => RestWorth(f, term, job, rest)
    case Both(job, rest, sub) => RestWorth(f, term, job, rest) + Worth(f, term, sub)
  }

  function Total(f: Event -> nat, s: State): nat {
    Weigh(f, s.log) + SumJobs(f, s.term, s.dirs) + SumDebts(f, s.term, s.workers)
  }

  lemma {:induction false} SumUpdate(f: Event -> nat, term: string, ws: seq<Worker>, t: nat, w: Worker)
    requires t < |ws|
    ensures SumDebts(f, term, ws[t := w]) + Owed(f, term, DebtOf(ws[t]))
         == SumDebts(f, term, ws) + Owed(f, term, DebtOf(w))
  {
    if t == 0 {
      assert ws[t := w][1..] == ws[1..];
    } else {
      assert ws[t := w][1..] == ws[1..][t - 1 := w];
      SumUpdate(f, term, ws[1..], t - 1, w);
    }
  }

  lemma {:induction false} SumJobsAppend(f: Event -> nat, term: string, q: seq<Job>, job: Job)
    ensures SumJobs(f, term, q + [job]) == SumJobs(f, term, q) + Worth(f, term, job)
  {
    if q == [] {
      assert q + [job] == [job];
    } else {
      assert (q + [job])[1..] == q[1..] + [job];
      SumJobsAppend(f, term, q[1..], job);
    }
  }

  lemma {:induction false} SumBroadcast(f: Event -> nat, term: string, ws: seq<Worker>)
    ensures SumDebts(f, term, Broadcast(ws)) == SumDebts(f, term, ws)
  {
    if ws != [] {
      assert Broadcast(ws)[1..] == Broadcast(ws[1..]);
      SumBroadcast(f, term, ws[1..]);
    }
  }

  lemma WholeListing(f: Event -> nat, term: string, job: Job)
    ensures Worth(f, term, job) == RestWorth(f, term, job, job.listing)
  {
    WeighConcat(f, SearchListing(term, job.path, job.listing), [Scanned(job.path)]);
  }

  // ---- Every step keeps the total ----

  lemma LastEntryTotal(f: Event -> nat, s: State, t: nat, job: Job)
    requires t < |s.workers| && s.workers[t].pc == Scan(job, [])
    ensures Total(f, ScanNext(s, t, false, job, [])) == Total(f, s)
  {
    SumUpdate(f, s.term, s.workers, t, Worker(LockQueue, NoGift));
    WeighConcat(f, s.log, [Scanned(job.path)]);
  }

  /** One entry: what it yields itself, and what remains after it. */
  lemma EntryWorth(f: Event -> nat, term: string, job: Job, rest: seq<Node>)
    requires rest != []
    ensures RestWorth(f, term, job, rest)
         == Weigh(f, SearchEntry(term, job.path, rest[0])) + RestWorth(f, term, job, rest[1..])
  {
    WeighConcat(f, SearchEntry(term, job.path, rest[0]), SearchListing(term, job.path, rest[1..]));
  }

  lemma HitTotal(f: Event -> nat, s: State, t: nat, job: Job, rest: seq<Node>)
    requires t < |s.workers| && s.workers[t].pc == Scan(job, rest) && rest != []
    requires SearchEntry(s.term, job.path, rest[0]) == [Hit(Join(job.path, rest[0].name))]
    ensures var hit := Hit(Join(job.path, rest[0].name));
      Total(f, Goto(s.(found := s.found + 1, log := s.log + [hit]), t, Scan(job, rest[1..]))) == Total(f, s)
  {
    EntryWorth(f, s.term, job, rest);
    SumUpdate(f, s.term, s.workers, t, s.workers[t].(pc := Scan(job, rest[1..])));
    WeighConcat(f, s.log, [Hit(Join(job.path, rest[0].name))]);
  }

  lemma FolderTotal(f: Event -> nat, s: State, t: nat, job: Job, rest: seq<Node>, sub: Job)
    requires t < |s.workers| && s.workers[t].pc == Scan(job, rest) && rest != []
    requires SearchEntry(s.term, job.path, rest[0]) == Search(s.term, sub)
    ensures Total(f, Goto(s, t, PublishLock(job, rest[1..], sub))) == Total(f, s)
  {
    EntryWorth(f, s.term, job, rest);
    SumUpdate(f, s.term, s.workers, t, s.workers[t].(pc := PublishLock(job, rest[1..], sub)));
  }

  lemma SkipTotal(f: Event -> nat, s: State, t: nat, job: Job, rest: seq<Node>)
    requires t < |s.workers| && s.workers[t].pc == Scan(job, rest) && rest != []
    requires SearchEntry(s.term, job.path, rest[0]) == []
    ensures Total(f, Goto(s, t, Scan(job, rest[1..]))) == Total(f, s)
  {
    EntryWorth(f, s.term, job, rest);
    SumUpdate(f, s.term, s.workers, t, s.workers[t].(pc := Scan(job, rest[1..])));
  }

  lemma ScanTotal(f: Event -> nat, s: State, t: nat, fault: bool, job: Job, rest: seq<Node>)
    requires t < |s.workers| && s.workers[t].pc == Scan(job, rest) && (fault ==> rest != [])
    ensures Total(f, ScanNext(s, t, fault, job, rest)) == Total(f, s)
  {
    if rest == [] {
      LastEntryTotal(f, s, t, job);
    } else if fault {
      SumUpdate(f, s.term, s.workers, t, s.workers[t].(pc := FailLock(job, rest)));
    } else if !IsDot(rest[0].name) && rest[0].kind.Folder? && rest[0].kind.searchable {
      FolderTotal(f, s, t, job, rest, Job(Join(job.path, rest[0].name), rest[0].kind.listing));
    } else if !IsDot(rest[0].name) && rest[0].kind.Plain? && Contains(rest[0].name, s.term) {
      HitTotal(f, s, t, job, rest);
    } else {
      SkipTotal(f, s, t, job, rest);
    }
  }

  lemma StoreTotal(f: Event -> nat, s: State, t: nat)
    requires t < |s.workers| && s.workers[t].pc.Publish?
    ensures Total(f, Published(s, t).(dirs := s.dirs + [s.workers[t].pc.sub])) == Total(f, s)
  {
    SumUpdate(f, s.term, s.workers, t, Published(s, t).workers[t]);
    SumJobsAppend(f, s.term, s.dirs, s.workers[t].pc.sub);
  }

  lemma HandDebts(f: Event -> nat, term: string, ws: seq<Worker>, t: nat, u: nat)
    requires t < |ws| && u < |ws| && ws[t].pc.Publish? && ws[u] == Worker(Asleep, NoGift)
    ensures var w := ws[t].(pc := PublishUnlock(ws[t].pc.job, ws[t].pc.rest));
      SumDebts(f, term, ws[t := w][u := Worker(Woken, Gift(ws[t].pc.sub))]) == SumDebts(f, term, ws)
  {
    var w := ws[t].(pc := PublishUnlock(ws[t].pc.job, ws[t].pc.rest));
    SumUpdate(f, term, ws, t, w);
    SumUpdate(f, term, ws[t := w], u, Worker(Woken, Gift(ws[t].pc.sub)));
  }

  lemma HandTotal(f: Event -> nat, s: State, t: nat)
    requires t < |s.workers| && s.workers[t].pc.Publish? && s.idle != [] && s.idle[0] < |s.workers|
    requires s.workers[s.idle[0]] == Worker(Asleep, NoGift)
    ensures Total(f, Handed(Published(s, t), s.workers[t].pc.sub)) == Total(f, s)
  {
    HandDebts(f, s.term, s.workers, t, s.idle[0]);
  }

  lemma PublishTotal(f: Event -> nat, s: State, t: nat)
    requires Inv(s) && Steps(s, t, false) && s.workers[t].pc.Publish?
    ensures Total(f, WorkNext(s, t, false)) == Total(f, s)
  {
    if s.idle == [] {
      StoreTotal(f, s, t);
    } else {
      QueuedAreAsleep(s, s.idle[0]);
      assert RoleOk(ModeOf(s), s.idle[0], s.workers[s.idle[0]], true);
      BusyMeansNotQuiet(s, t);
      HandoffIsHanded(s, t);
      HandTotal(f, s, t);
    }
  }

  lemma RaiseTotal(f: Event -> nat, s: State, t: nat)
    requires Gathered(s, t)
    ensures Total(f, Raised(s, t)) == Total(f, s)
  {
    var u := s.idle[0];
    if |s.workers| == 1 {
      assert Raised(s, t).workers == s.workers[t := Worker(SleepTest, NoGift)];
      SumUpdate(f, s.term, s.workers, t, Worker(SleepTest, NoGift));
    } else {
      SumUpdate(f, s.term, s.workers, u, Worker(Woken, NoGift));
      SumUpdate(f, s.term, s.workers[u := Worker(Woken, NoGift)], t, Worker(Asleep, NoGift));
    }
  }

  predicate MayClaim(s: State, t: nat) {
    && t < |s.workers| && s.workers[t].pc.Claim?
    && !s.workers[t].gift.Unset? && (s.workers[t].gift.NoGift? ==> s.dirs != [])
  }

  lemma ClaimTotal(f: Event -> nat, s: State, t: nat)
    requires MayClaim(s, t)
    ensures Total(f, ClaimNext(s, t)) == Total(f, s)
  {
    var job := if s.workers[t].gift.Gift? then s.workers[t].gift.job else s.dirs[0];
    SumUpdate(f, s.term, s.workers, t, s.workers[t].(pc := ClaimUnlock(job)));
  }

  /** The steps that leave the log and the directory queue alone. */
  predicate SameDebt(s: State, t: nat, s': State, d: Debt) {
    && t < |s.workers| == |s'.workers|
    && s'.workers == s.workers[t := s'.workers[t]]
    && (s'.log, s'.dirs, s'.term) == (s.log, s.dirs, s.term)
    && DebtOf(s'.workers[t]) == d
  }

  predicate Failing(pc: PC) { pc.FailLock? || pc.FailCount? || pc.FailSignal? || pc.FailUnlock? }

  predicate Opening(pc: PC) { pc.ClaimUnlock? || pc.Open? }

  predicate Publishing(pc: PC) { pc.PublishLock? || pc.PublishUnlock? }

  lemma FailingDebt(s: State, t: nat)
    requires t < |s.workers| && Failing(s.workers[t].pc)
    ensures SameDebt(s, t, FailNext(s, t), DebtOf(s.workers[t]))
  {
  }

  lemma OpeningDebt(s: State, t: nat, fault: bool)
    requires Enabled(s, Work(t, fault)) && Safe(s, Work(t, fault)) && Opening(s.workers[t].pc)
    ensures var pc := s.workers[t].pc;
      SameDebt(s, t, WorkNext(s, t, fault), if pc.Open? then Rest(pc.job, pc.job.listing) else Whole(pc.job))
  {
  }

  lemma PublishingDebt(s: State, t: nat)
    requires Enabled(s, Work(t, false)) && Safe(s, Work(t, false)) && Publishing(s.workers[t].pc)
    ensures SameDebt(s, t, WorkNext(s, t, false), DebtOf(s.workers[t]))
  {
  }

  lemma IdleDebt(s: State, t: nat, fault: bool)
    requires Enabled(s, Work(t, fault)) && Safe(s, Work(t, fault))
    requires s.workers[t].pc.Enqueue? ==> !s.workers[t].gift.Gift?
    requires var pc := s.workers[t].pc;
      && !Opening(pc) && !Publishing(pc) && !Failing(pc)
      && !pc.Scan? && !pc.Publish? && !pc.RaiseReady? && !pc.Claim?
    ensures SameDebt(s, t, WorkNext(s, t, fault), DebtOf(s.workers[t]))
  {
  }

  /** All other steps change at most the form of their thread's debt: opening a directory turns it into its listing. */
  lemma OtherDebt(s: State, t: nat, fault: bool)
    requires Steps(s, t, fault)
    requires var pc := s.workers[t].pc; !pc.Scan? && !pc.Publish? && !pc.RaiseReady? && !pc.Claim?
    ensures var pc := s.workers[t].pc;
      SameDebt(s, t, WorkNext(s, t, fault), if pc.Open? then Rest(pc.job, pc.job.listing) else DebtOf(s.workers[t]))
  {
    if Opening(s.workers[t].pc) {
      OpeningDebt(s, t, fault);
    } else if Publishing(s.workers[t].pc) {
      PublishingDebt(s, t);
    } else if Failing(s.workers[t].pc) {
      FailingDebt(s, t);
    } else {
      IdleDebt(s, t, fault);
    }
  }

  lemma OtherTotal(f: Event -> nat, s: State, t: nat, fault: bool)
    requires Steps(s, t, fault)
    requires var pc := s.workers[t].pc; !pc.Scan? && !pc.Publish? && !pc.RaiseReady? && !pc.Claim?
    ensures Total(f, WorkNext(s, t, fault)) == Total(f, s)
  {
    OtherDebt(s, t, fault);
    SumUpdate(f, s.term, s.workers, t, WorkNext(s, t, fault).workers[t]);
    if s.workers[t].pc.Open? {
      WholeListing(f, s.term, s.workers[t].pc.job);
    }
  }

  lemma SignalTotal(f: Event -> nat, s: State, i: nat)
    requires i < |s.workers|
    ensures SumDebts(f, s.term, Signal(s, i).workers) == SumDebts(f, s.term, s.workers)
  {
    SumUpdate(f, s.term, s.workers, i, s.workers[i].(pc := Woken));
  }

  lemma MainTotal(f: Event -> nat, s: State)
    requires Enabled(s, Main) && Safe(s, Main)
    ensures Total(f, MainNext(s)) == Total(f, s)
  {
    if s.main.MainBroadcast? {
      SumBroadcast(f, s.term, s.workers);
    } else if s.main.MainSignalAll? && s.main.next < |s.workers| {
      SignalTotal(f, s, s.main.next);
    }
  }

  lemma StepTotal(f: Event -> nat, s: State, a: Action)
    requires Inv(s) && Enabled(s, a) && Safe(s, a)
    ensures Total(f, Next(s, a)) == Total(f, s)
  {
    match a
    case Main => MainTotal(f, s);
    case Work(t, fault) =>
      InvAt(s, t);
      var pc := s.workers[t].pc;
      if pc.Scan? {
        ScanTotal(f, s, t, fault, pc.job, pc.rest);
      } else if pc.Publish? {
        PublishTotal(f, s, t);
      } else if pc.RaiseReady? {
        AllGathered(s, t);
        RaiseIsRaised(s, t);
        RaiseTotal(f, s, t);
      } else if pc.Claim? {
        ClaimTotal(f, s, t);
      } else {
        OtherTotal(f, s, t, fault);
      }
  }
}
