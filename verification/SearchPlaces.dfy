/** Where each directory is: finished, in the directory queue, handed to or scanned by a thread, or abandoned by one.
    A step adds a place for a directory just when it reads the directory's entry in its parent. */
module SearchPlaces {
  import opened SearchTree
  import opened SearchProtocol
  import opened SearchInvariant
  import opened SearchPreservation
  import opened SearchLedger

  function Same(job: Job, path: string): nat {
    if job.path == path then 1 else 0
  }

  function Named(d: Debt, path: string): nat {
    match d
    case Nothing => 0
    case Whole(job) => Same(job, path)
    case Rest(job, _) => Same(job, path)
    case Both(job, _, sub) => Same(job, path) + Same(sub, path)
  }

  function NamedByThreads(ws: seq<Worker>, path: string): nat {
    if ws == [] then 0 else Named(DebtOf(ws[0]), path) + NamedByThreads(ws[1..], path)
  }

  function NamedInQueue(q: seq<Job>, path: string): nat {
    if q == [] then 0 else Same(q[0], path) + NamedInQueue(q[1..], path)
  }

  /** The number of places in which the directory `path` is. */
  function Places(s: State, path: string): nat {
    multiset(s.log)[Scanned(path)] + NamedInQueue(s.dirs, path) + NamedByThreads(s.workers, path)
  }

  /** The step reads the entry of the searchable directory `path`. */
  predicate Finds(s: State, a: Action, path: string) {
    a.Work? && !a.fault && a.t < |s.workers| && FindsAt(s.workers[a.t].pc, path)
  }

  predicate FindsAt(pc: PC, path: string) {
    && pc.Scan? && pc.rest != [] && !IsDot(pc.rest[0].name)
    && pc.rest[0].kind.Folder? && pc.rest[0].kind.searchable && Join(pc.job.path, pc.rest[0].name) == path
  }

  // ---- Sums ----

  lemma {:induction false} NamedUpdate(ws: seq<Worker>, t: nat, w: Worker, path: string)
    requires t < |ws|
    ensures NamedByThreads(ws[t := w], path) + Named(DebtOf(ws[t]), path)
         == NamedByThreads(ws, path) + Named(DebtOf(w), path)
  {
    if t == 0 {
      assert ws[t := w][1..] == ws[1..];
    } else {
      assert ws[t := w][1..] == ws[1..][t - 1 := w];
      NamedUpdate(ws[1..], t - 1, w, path);
    }
  }

  lemma {:induction false} NamedAppend(q: seq<Job>, job: Job, path: string)
    ensures NamedInQueue(q + [job], path) == NamedInQueue(q, path) + Same(job, path)
  {
    if q == [] {
      assert q + [job] == [job];
    } else {
      assert (q + [job])[1..] == q[1..] + [job];
      NamedAppend(q[1..], job, path);
    }
  }

  lemma {:induction false} NamedBroadcast(ws: seq<Worker>, path: string)
    ensures NamedByThreads(Broadcast(ws), path) == NamedByThreads(ws, path)
  {
    if ws != [] {
      assert Broadcast(ws)[1..] == Broadcast(ws[1..]);
      NamedBroadcast(ws[1..], path);
    }
  }

  // ---- Every step ----

  lemma EndPlaces(s: State, t: nat, job: Job, path: string)
    requires t < |s.workers| && s.workers[t].pc == Scan(job, [])
    ensures Places(ScanNext(s, t, false, job, []), path) == Places(s, path)
  {
    NamedUpdate(s.workers, t, Worker(LockQueue, NoGift), path);
  }

  lemma MovePlaces(s: State, t: nat, pc: PC, path: string)
    requires t < |s.workers|
    ensures Places(Goto(s, t, pc), path) + Named(DebtOf(s.workers[t]), path)
         == Places(s, path) + Named(DebtOf(s.workers[t].(pc := pc)), path)
  {
    NamedUpdate(s.workers, t, s.workers[t].(pc := pc), path);
  }

  lemma HitPlaces(s: State, t: nat, job: Job, rest: seq<Node>, hit: string, path: string)
    requires t < |s.workers| && s.workers[t].pc == Scan(job, rest) && rest != []
    ensures Places(Goto(s.(found := s.found + 1, log := s.log + [Hit(hit)]), t, Scan(job, rest[1..])), path)
         == Places(s, path)
  {
    MovePlaces(s.(found := s.found + 1, log := s.log + [Hit(hit)]), t, Scan(job, rest[1..]), path);
  }

  lemma FolderPlaces(s: State, t: nat, job: Job, rest: seq<Node>, sub: Job, path: string)
    requires t < |s.workers| && s.workers[t].pc == Scan(job, rest) && rest != []
    ensures Places(Goto(s, t, PublishLock(job, rest[1..], sub)), path) == Places(s, path) + Same(sub, path)
  {
    MovePlaces(s, t, PublishLock(job, rest[1..], sub), path);
  }

  lemma SkipPlaces(s: State, t: nat, job: Job, rest: seq<Node>, path: string)
    requires t < |s.workers| && s.workers[t].pc == Scan(job, rest) && rest != []
    ensures Places(Goto(s, t, Scan(job, rest[1..])), path) == Places(s, path)
    ensures Places(Goto(s, t, FailLock(job, rest)), path) == Places(s, path)
  {
    MovePlaces(s, t, Scan(job, rest[1..]), path);
    MovePlaces(s, t, FailLock(job, rest), path);
  }

  lemma EntryPlaces(s: State, t: nat, job: Job, rest: seq<Node>, path: string)
    requires t < |s.workers| && s.workers[t].pc == Scan(job, rest) && rest != []
    ensures Places(ScanNext(s, t, false, job, rest), path)
         == Places(s, path) + if FindsAt(s.workers[t].pc, path) then 1 else 0
  {
    var e, sub := rest[0], Join(job.path, rest[0].name);
    SkipPlaces(s, t, job, rest, path);
    HitPlaces(s, t, job, rest, sub, path);
    if e.kind.Folder? { FolderPlaces(s, t, job, rest, Job(sub, e.kind.listing), path); }
  }

  lemma StorePlaces(s: State, t: nat, path: string)
    requires t < |s.workers| && s.workers[t].pc.Publish?
    ensures Places(Published(s, t).(dirs := s.dirs + [s.workers[t].pc.sub]), path) == Places(s, path)
  {
    NamedUpdate(s.workers, t, Published(s, t).workers[t], path);
    NamedAppend(s.dirs, s.workers[t].pc.sub, path);
  }

  lemma HandPlaces(s: State, t: nat, path: string)
    requires t < |s.workers| && s.workers[t].pc.Publish? && s.idle != [] && s.idle[0] < |s.workers|
    requires s.workers[s.idle[0]] == Worker(Asleep, NoGift)
    ensures Places(Handed(Published(s, t), s.workers[t].pc.sub), path) == Places(s, path)
  {
    var s1 := Published(s, t);
    NamedUpdate(s.workers, t, s1.workers[t], path);
    NamedUpdate(s1.workers, s.idle[0], Worker(Woken, Gift(s.workers[t].pc.sub)), path);
  }

  lemma PublishPlaces(s: State, t: nat, path: string)
    requires Inv(s) && Steps(s, t, false) && s.workers[t].pc.Publish?
    ensures Places(WorkNext(s, t, false), path) == Places(s, path)
  {
    if s.idle == [] {
      StorePlaces(s, t, path);
    } else {
      QueuedAreAsleep(s, s.idle[0]);
      assert RoleOk(ModeOf(s), s.idle[0], s.workers[s.idle[0]], true);
      BusyMeansNotQuiet(s, t);
      HandoffIsHanded(s, t);
      HandPlaces(s, t, path);
    }
  }

  lemma RaisePlaces(s: State, t: nat, path: string)
    requires Gathered(s, t)
    ensures Places(Raised(s, t), path) == Places(s, path)
  {
    var u := s.idle[0];
    if |s.workers| == 1 {
      assert Raised(s, t).workers == s.workers[t := Worker(SleepTest, NoGift)];
      NamedUpdate(s.workers, t, Worker(SleepTest, NoGift), path);
    } else {
      NamedUpdate(s.workers, u, Worker(Woken, NoGift), path);
      NamedUpdate(s.workers[u := Worker(Woken, NoGift)], t, Worker(Asleep, NoGift), path);
    }
  }

  lemma ClaimPlaces(s: State, t: nat, path: string)
    requires MayClaim(s, t)
    ensures Places(ClaimNext(s, t), path) == Places(s, path)
  {
    var job := if s.workers[t].gift.Gift? then s.workers[t].gift.job else s.dirs[0];
    NamedUpdate(s.workers, t, s.workers[t].(pc := ClaimUnlock(job)), path);
  }

  lemma OtherPlaces(s: State, t: nat, fault: bool, path: string)
    requires Steps(s, t, fault)
    requires var pc := s.workers[t].pc; !pc.Scan? && !pc.Publish? && !pc.RaiseReady? && !pc.Claim?
    ensures Places(WorkNext(s, t, fault), path) == Places(s, path)
  {
    OtherDebt(s, t, fault);
    NamedUpdate(s.workers, t, WorkNext(s, t, fault).workers[t], path);
  }

  lemma MainPlaces(s: State, path: string)
    requires Enabled(s, Main) && Safe(s, Main)
    ensures Places(MainNext(s), path) == Places(s, path)
  {
    if s.main.MainBroadcast? {
      NamedBroadcast(s.workers, path);
    } else if s.main.MainSignalAll? && s.main.next < |s.workers| {
      NamedUpdate(s.workers, s.main.next, s.workers[s.main.next].(pc := Woken), path);
    }
  }

  lemma WorkPlaces(s: State, t: nat, fault: bool, path: string)
    requires Inv(s) && Steps(s, t, fault) && !s.workers[t].pc.Scan?
    ensures Places(WorkNext(s, t, fault), path) == Places(s, path)
  {
    var pc := s.workers[t].pc;
    if pc.Publish? {
      PublishPlaces(s, t, path);
    } else if pc.RaiseReady? {
      AllGathered(s, t);
      RaiseIsRaised(s, t);
      RaisePlaces(s, t, path);
    } else if pc.Claim? {
      ClaimPlaces(s, t, path);
    } else {
      OtherPlaces(s, t, fault, path);
    }
  }

  lemma ScanPlaces(s: State, t: nat, fault: bool, job: Job, rest: seq<Node>, path: string)
    requires t < |s.workers| && s.workers[t].pc == Scan(job, rest) && (fault ==> rest != [])
    ensures Places(ScanNext(s, t, fault, job, rest), path)
         == Places(s, path) + if Finds(s, Work(t, fault), path) then 1 else 0
  {
    if rest == [] {
      EndPlaces(s, t, job, path);
    } else if fault {
      SkipPlaces(s, t, job, rest, path);
    } else {
      EntryPlaces(s, t, job, rest, path);
    }
  }

  /** A directory gets a place by the step that reads its entry, and by no step loses its place. */
  lemma StepPlaces(s: State, a: Action, path: string)
    requires Inv(s) && Enabled(s, a) && Safe(s, a)
    ensures Places(Next(s, a), path) == Places(s, path) + if Finds(s, a, path) then 1 else 0
  {
    match a
    case Main => MainPlaces(s, path);
    case Work(t, fault) =>
      InvAt(s, t);
      var pc := s.workers[t].pc;
      if pc.Scan? {
        ScanPlaces(s, t, fault, pc.job, pc.rest, path);
      } else {
        WorkPlaces(s, t, fault, path);
      }
  }

  // ---- Every run ----

  /** Some step of the run reads the entry of `path`. */
  ghost predicate Discovered(s: State, acts: seq<Action>, path: string)
    requires Run(s, acts)
    decreases |acts|
  {
    acts != [] && (Finds(s, acts[0], path) || Discovered(Next(s, acts[0]), acts[1..], path))
  }

  /** Along a run a directory keeps the places it has, and gains one exactly if the run discovers it. */
  lemma {:induction false} RunPlaces(s: State, acts: seq<Action>, path: string)
    requires Inv(s) && Run(s, acts)
    ensures Places(End(s, acts), path) >= Places(s, path)
    ensures Places(End(s, acts), path) > Places(s, path) <==> Discovered(s, acts, path)
    decreases |acts|
  {
    if acts != [] {
      StepPlaces(s, acts[0], path);
      StepKeeps(s, acts[0]);
      RunPlaces(Next(s, acts[0]), acts[1..], path);
    }
  }

  lemma {:induction false} NoNames(ws: seq<Worker>, path: string)
    requires forall t :: 0 <= t < |ws| ==> DebtOf(ws[t]) == Nothing
    ensures NamedByThreads(ws, path) == 0
  {
    if ws != [] { NoNames(ws[1..], path); }
  }

  lemma InitPlaces(term: string, root: Job, n: nat, path: string)
    ensures Places(Init(term, root, n), path) == Same(root, path)
  {
    NoNames(Init(term, root, n).workers, path);
    assert NamedInQueue([root], path) == Same(root, path);
  }

  // ---- What has been claimed has a place ----

  lemma {:induction false} ThreadNames(ws: seq<Worker>, t: nat, path: string)
    requires t < |ws|
    ensures Named(DebtOf(ws[t]), path) <= NamedByThreads(ws, path)
  {
    if t > 0 { ThreadNames(ws[1..], t - 1, path); }
  }

  ghost predicate ClaimsPlaced(s: State) {
    forall c :: c in s.claims ==> Places(s, c.1.path) >= 1
  }

  lemma ClaimNamed(s: State, t: nat, c: (nat, Job))
    requires MayClaim(s, t) && c in ClaimNext(s, t).claims && c !in s.claims
    ensures Places(ClaimNext(s, t), c.1.path) >= 1
  {
    var s' := ClaimNext(s, t);
    assert DebtOf(s'.workers[t]) == Whole(c.1);
    ThreadNames(s'.workers, t, c.1.path);
  }

  lemma StepClaims(s: State, a: Action)
    requires Inv(s) && Enabled(s, a) && Safe(s, a) && ClaimsPlaced(s)
    ensures ClaimsPlaced(Next(s, a))
  {
    forall c | c in Next(s, a).claims
      ensures Places(Next(s, a), c.1.path) >= 1
    {
      StepPlaces(s, a, c.1.path);
      if a.Main? {
        MainLeaves(s);
      } else if s.workers[a.t].pc.Scan? {
        ScanIsMove(s, a.t, a.fault, s.workers[a.t].pc.job, s.workers[a.t].pc.rest);
      } else if !s.workers[a.t].pc.Claim? {
        WorkLeaves(s, a.t, a.fault);
      } else if c !in s.claims {
        ClaimNamed(s, a.t, c);
      }
    }
  }

  lemma {:induction false} RunClaims(s: State, acts: seq<Action>)
    requires Inv(s) && Run(s, acts) && ClaimsPlaced(s)
    ensures ClaimsPlaced(End(s, acts))
    decreases |acts|
  {
    if acts != [] {
      StepClaims(s, acts[0]);
      StepKeeps(s, acts[0]);
      RunClaims(Next(s, acts[0]), acts[1..]);
    }
  }
}
