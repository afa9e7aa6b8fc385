/** The two doubly linked queues of hw4_os/pfind.c: idle threads and waiting directories. */
module LinkedQueues {
  import opened SearchTree
  import opened SearchProtocol

  class Entry<T> {
    var val: T
    var next: Entry?<T>
    var prev: Entry?<T>

    constructor (val: T)
      ensures this.val == val && next == null && prev == null
    {
      this.val, next, prev := val, null, null;
    }
  }

  /** The entry at position `i`, or NULL beyond either end. */
  ghost function Neighbour<T>(es: seq<Entry<T>>, i: int): Entry?<T> {
    if 0 <= i < |es| then es[i] else null
  }

  class Queue<T> {
    var head: Entry?<T>                               // the newest entry
    var tail: Entry?<T>                               // the oldest entry
    var count: nat
    ghost var entries: seq<Entry<T>>                  // oldest first

    /** `next` leads to the next older entry and `prev` to the next newer one. */
    ghost predicate Valid()
      reads this, entries
    {
      var n := |entries|;
      && count == n
      && (if n == 0 then head == null && tail == null else head == entries[n - 1] && tail == entries[0])
      && (forall i, j :: 0 <= i < j < n ==> entries[i] != entries[j])
      && (forall i :: 0 <= i < n ==> LinksAt(i))
    }

    ghost predicate LinksAt(i: nat)
      reads this, entries
    {
      i < |entries| ==> entries[i].next == Neighbour(entries, i - 1) && entries[i].prev == Neighbour(entries, i + 1)
    }

    ghost predicate Holds(vs: seq<T>)
      reads this, entries
    {
      Valid() && |vs| == |entries| && forall i :: 0 <= i < |vs| ==> entries[i].val == vs[i]
    }

    /** `dir_queue_init`, `thread_queue_init` */
    constructor ()
      ensures Valid() && entries == []
    {
      head, tail, count := null, null, 0;
      entries := [];
    }

    /** `is_dir_queue_empty`, `is_thread_queue_empty` */
    predicate IsEmpty()
      requires Valid()
      reads this, entries
      ensures IsEmpty() <==> entries == []
    {
      count == 0
    }

    /** The linking of `dir_enqueue` and `thread_enqueue`. An entry that has left the queue may come back. */
    method Enqueue(e: Entry<T>)
      requires Valid() && e !in entries
      modifies this, e`next, e`prev, entries`prev
      ensures Valid() && entries == old(entries) + [e] && e.val == old(e.val)
    {
      e.next := head;
      e.prev := null;
      if count == 0 {
        tail := e;
      } else {
        head.prev := e;
      }
      head := e;
      count := count + 1;
      ghost var was := entries;
      entries := entries + [e];
      forall i | 0 <= i < |was|
        ensures LinksAt(i)
      {
        assert old(LinksAt(i));
      }
    }

    /** `dir_dequeue`, `thread_dequeue` */
    method Dequeue() returns (e: Entry<T>)
      requires Valid() && entries != []
      modifies this, entries`next
      ensures Valid() && e == old(entries)[0] && entries == old(entries)[1..]
    {
      e := tail;
      assert LinksAt(0);
      if count == 1 {
        head, tail := null, null;
      } else {
        tail := tail.prev;
        tail.next := null;
      }
      count := count - 1;
      entries := entries[1..];
      forall i | 0 <= i < |entries|
        ensures LinksAt(i)
      {
        assert old(LinksAt(i + 1));
      }
    }
  }

  /** A thread's entry: its number and its `dir_to_handle`. */
  datatype Seat = Seat(thread: nat, gift: Gift)

  /** `thread_enqueue` also clears `dir_to_handle`. */
  method ThreadEnqueue(q: Queue<Seat>, e: Entry<Seat>)
    requires q.Valid() && e !in q.entries
    modifies q, e, q.entries`prev
    ensures q.Valid() && q.entries == old(q.entries) + [e] && e.val == Seat(old(e.val).thread, NoGift)
    ensures forall x :: x in old(q.entries) ==> x.val == old(x.val)
  {
    e.val := Seat(e.val.thread, NoGift);
    q.Enqueue(e);
  }

  /** `dir_enqueue` allocates the entry itself. */
  method DirEnqueue(q: Queue<Job>, job: Job) returns (e: Entry<Job>)
    requires q.Valid()
    modifies q, q.entries`prev
    ensures q.Valid() && fresh(e) && e.val == job && q.entries == old(q.entries) + [e]
  {
    e := new Entry(job);
    q.Enqueue(e);
  }

  /** `is_thread_in_queue` decides membership by walking from the newest to the oldest entry. */
  method IsThreadInQueue(q: Queue<Seat>, t: nat) returns (found: bool)
    requires q.Valid()
    ensures found <==> exists i :: 0 <= i < |q.entries| && q.entries[i].val.thread == t
  {
    var tmp := q.head;
    ghost var k := |q.entries|;
    while tmp != null
      invariant 0 <= k <= |q.entries|
      invariant tmp == Neighbour(q.entries, k - 1)
      invariant forall i :: k <= i < |q.entries| ==> q.entries[i].val.thread != t
      decreases k
    {
      if tmp.val.thread == t {
        return true;
      }
      assert q.LinksAt(k - 1);
      tmp := tmp.next;
      k := k - 1;
    }
    return false;
  }

  // ---- Runs ----

  /** An operation on a queue: put a value in, or take the oldest out if there is one. */
  datatype Op<T> = Put(val: T) | Take

  /** The values put in, those taken out, and those left, after a run from an empty queue. */
  function Puts<T>(ops: seq<Op<T>>): seq<T> {
    if ops == [] then []
    else
      var last := ops[|ops| - 1];
      Puts(ops[..|ops| - 1]) + if last.Put? then [last.val] else []
  }

  function LeftAfter<T>(before: seq<T>, op: Op<T>): seq<T> {
    if op.Put? then before + [op.val] else if before == [] then [] else before[1..]
  }

  function TakenBy<T>(before: seq<T>, op: Op<T>): seq<T> {
    if op.Take? && before != [] then [before[0]] else []
  }

  function Left<T>(ops: seq<Op<T>>): seq<T> {
    if ops == [] then [] else LeftAfter(Left(ops[..|ops| - 1]), ops[|ops| - 1])
  }

  function Takes<T>(ops: seq<Op<T>>): seq<T> {
    if ops == [] then [] else Takes(ops[..|ops| - 1]) + TakenBy(Left(ops[..|ops| - 1]), ops[|ops| - 1])
  }

  /** First in, first out: what came out, followed by what is left, is what went in, in order. */
  lemma {:induction false} FirstInFirstOut<T>(ops: seq<Op<T>>)
    ensures Takes(ops) + Left(ops) == Puts(ops)
  {
    if ops != [] {
      FirstInFirstOut(ops[..|ops| - 1]);
    }
  }

  /** Every value put in goes in, and an element comes out whenever there is one. */
  lemma QueueServes<T>(ops: seq<Op<T>>, val: T)
    ensures Puts(ops + [Put(val)]) == Puts(ops) + [val] && Left(ops + [Put(val)]) == Left(ops) + [val]
    ensures |Takes(ops + [Take])| == |Takes(ops)| + if Left(ops) == [] then 0 else 1
    ensures |Left(ops + [Take])| == |Left(ops)| - if Left(ops) == [] then 0 else 1
  {
    assert (ops + [Put(val)])[..|ops|] == ops && (ops + [Take])[..|ops|] == ops;
  }

  method RunTake(q: Queue<Job>, ghost vs: seq<Job>) returns (taken: seq<Job>)
    requires q.Holds(vs)
    modifies q, q.entries`next
    ensures q.Holds(LeftAfter(vs, Take)) && taken == TakenBy(vs, Take)
    ensures q.entries == if vs == [] then old(q.entries) else old(q.entries)[1..]
  {
    taken := [];
    if !q.IsEmpty() {
      var e := q.Dequeue();
      taken := [e.val];
    }
  }

  /** Every mix of operations on the directory queue refines the run over sequences. */
  method RunQueue(ops: seq<Op<Job>>) returns (q: Queue<Job>, taken: seq<Job>)
    ensures fresh(q) && fresh(q.entries) && q.Holds(Left(ops)) && taken == Takes(ops)
    decreases |ops|
  {
    if ops == [] {
      q := new Queue();
      taken := [];
    } else {
      var op, earlier := ops[|ops| - 1], ops[..|ops| - 1];
      q, taken := RunQueue(earlier);
      if op.Put? {
        var e := DirEnqueue(q, op.val);
      } else {
        var out := RunTake(q, Left(earlier));
        taken := taken + out;
      }
    }
  }

  // ---- Runs over the threads' own entries ----

  /** A thread becomes idle unless it is queued already, or the longest idle thread, if any, is taken out. */
  datatype ThreadOp = GoIdle(t: nat) | Wake

  function IdleAfter(idle: seq<nat>, op: ThreadOp): seq<nat> {
    match op
    case GoIdle(t) => if t in idle then idle else idle + [t]
    case Wake => if idle == [] then [] else idle[1..]
  }

  function WokenBy(idle: seq<nat>, op: ThreadOp): seq<nat> {
    if op.Wake? && idle != [] then [idle[0]] else []
  }

  function EnteredBy(idle: seq<nat>, op: ThreadOp): seq<nat> {
    if op.GoIdle? && op.t !in idle then [op.t] else []
  }

  /** After a run: who is idle, who was woken and who entered, each in order. */
  function Idle(ops: seq<ThreadOp>): seq<nat> {
    if ops == [] then [] else IdleAfter(Idle(ops[..|ops| - 1]), ops[|ops| - 1])
  }

  function Woken(ops: seq<ThreadOp>): seq<nat> {
    if ops == [] then [] else Woken(ops[..|ops| - 1]) + WokenBy(Idle(ops[..|ops| - 1]), ops[|ops| - 1])
  }

  function Entered(ops: seq<ThreadOp>): seq<nat> {
    if ops == [] then [] else Entered(ops[..|ops| - 1]) + EnteredBy(Idle(ops[..|ops| - 1]), ops[|ops| - 1])
  }

  /** Threads are woken in the order in which they became idle, and none is idle twice at a time. */
  lemma {:induction false} LongestIdleFirst(ops: seq<ThreadOp>)
    ensures Woken(ops) + Idle(ops) == Entered(ops)
    ensures forall i, j :: 0 <= i < j < |Idle(ops)| ==> Idle(ops)[i] != Idle(ops)[j]
  {
    if ops != [] { LongestIdleFirst(ops[..|ops| - 1]); }
  }

  /** A thread that goes idle is idle then, entering only if it was not; and some thread is woken whenever one is
      idle. */
  lemma ThreadsAreServed(ops: seq<ThreadOp>, t: nat)
    ensures t in Idle(ops + [GoIdle(t)])
    ensures |Entered(ops + [GoIdle(t)])| == |Entered(ops)| + if t in Idle(ops) then 0 else 1
    ensures |Woken(ops + [Wake])| == |Woken(ops)| + if Idle(ops) == [] then 0 else 1
    ensures |Idle(ops + [Wake])| == |Idle(ops)| - if Idle(ops) == [] then 0 else 1
  {
    assert (ops + [GoIdle(t)])[..|ops|] == ops && (ops + [Wake])[..|ops|] == ops;
  }

  /** `pool` holds one entry for each thread. */
  ghost predicate Pool(pool: seq<Entry<Seat>>)
    reads pool
  {
    forall t :: 0 <= t < |pool| ==> pool[t].val.thread == t
  }

  /** The queue consists of the entries of these threads. */
  ghost predicate Seated(q: Queue<Seat>, pool: seq<Entry<Seat>>, idle: seq<nat>)
    reads q
  {
    && |q.entries| == |idle|
    && forall i :: 0 <= i < |idle| ==> idle[i] < |pool| && q.entries[i] == pool[idle[i]]
  }

  /** An idle thread puts in its own entry, which may have been in the queue before (lines 386-389). */
  method EnterOnce(q: Queue<Seat>, pool: seq<Entry<Seat>>, t: nat, ghost idle: seq<nat>)
    requires q.Valid() && Pool(pool) && Seated(q, pool, idle) && t < |pool|
    modifies q, pool
    ensures q.Valid() && Pool(pool) && Seated(q, pool, IdleAfter(idle, GoIdle(t)))
  {
    var found := IsThreadInQueue(q, t);
    if !found {
      assert pool[t] !in q.entries && t !in idle;
      ThreadEnqueue(q, pool[t]);
    } else {
      assert t in idle;
    }
  }

  method TakeLongest(q: Queue<Seat>, pool: seq<Entry<Seat>>, ghost idle: seq<nat>) returns (woken: seq<nat>)
    requires q.Valid() && Pool(pool) && Seated(q, pool, idle)
    modifies q, pool
    ensures q.Valid() && Pool(pool) && Seated(q, pool, IdleAfter(idle, Wake)) && woken == WokenBy(idle, Wake)
  {
    woken := [];
    if !q.IsEmpty() {
      assert pool[idle[0]].val.thread == idle[0];
      var e := q.Dequeue();
      woken := [e.val.thread];
    }
  }

  /** Every mix of such operations on the same entries, over and over, refines the run over thread numbers. */
  method RunThreads(pool: seq<Entry<Seat>>, ops: seq<ThreadOp>) returns (q: Queue<Seat>, woken: seq<nat>)
    requires Pool(pool) && forall i :: 0 <= i < |ops| && ops[i].GoIdle? ==> ops[i].t < |pool|
    modifies pool
    ensures fresh(q) && q.Valid() && Pool(pool) && Seated(q, pool, Idle(ops)) && woken == Woken(ops)
  {
    q := new Queue();
    woken := [];
    for i := 0 to |ops|
      invariant fresh(q) && q.Valid() && Pool(pool)
      invariant Seated(q, pool, Idle(ops[..i])) && woken == Woken(ops[..i])
    {
      assert ops[..i + 1][..i] == ops[..i];
      if ops[i].GoIdle? {
        EnterOnce(q, pool, ops[i].t, Idle(ops[..i]));
      } else {
        var out := TakeLongest(q, pool, Idle(ops[..i]));
        woken := woken + out;
      }
    }
    assert ops[..|ops|] == ops;
  }
}
