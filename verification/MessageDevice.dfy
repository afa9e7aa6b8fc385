/** The message slot driver at work: its global slot array, kernel memory, and the files open on it. */
module MessageDevice {
  import opened MessageSlot

  class Driver {
    var heap: Heap
    var slots: seq<nat>
    var files: map<nat, File>
    ghost var shape: Shape
    ghost var store: Store
    ghost var issued: multiset<nat>              // every address ever returned by an allocation
    ghost var freed: multiset<nat>               // every address ever given to kfree

    /** Each allocation is either live or has been freed once. */
    ghost predicate Balanced()
      reads this
    {
      freed + multiset(heap.Keys) == issued
    }

    ghost predicate Sound()
      reads this
    {
      Balanced() && Good(heap, slots, shape) && Stores(heap, slots, shape, store)
    }

    ghost predicate Valid()
      reads this
    {
      Sound() && forall fd :: fd in files ==> files[fd].minor < MAX_MINORS && slots[files[fd].minor] != 0
    }

    ghost function Abstract(): Device
      reads this
    {
      Device(store, files)
    }

    constructor ()
      ensures Valid() && Abstract() == NEW_DEVICE && heap == map[] && issued == multiset{}
    {
      heap, files := map[], map[];
      slots := seq(MAX_MINORS, i => 0);
      shape := Shape(seq(MAX_MINORS, i => []), map[], map[]);
      store, issued, freed := map[], multiset{}, multiset{};
    }

    // ---- Kernel memory ----

    /** Any address that is not in use may come back, also one that was freed before. */
    method Kmalloc(block: Block) returns (p: nat)
      requires Balanced()
      modifies this`heap, this`issued
      ensures Balanced() && issued == old(issued) + multiset{p}
      ensures p != 0 && p !in old(heap) && heap == old(heap)[p := block]
    {
      FreshAddress(heap);
      p :| p != 0 && p !in heap;
      heap := heap[p := block];
      issued := issued + multiset{p};
      assert heap.Keys == old(heap).Keys + {p};
    }

    method Kfree(p: nat)
      requires Balanced() && p in heap
      modifies this`heap, this`freed
      ensures Balanced() && freed == old(freed) + multiset{p}
      ensures heap == old(heap) - {p}
    {
      heap := heap - {p};
      freed := freed + multiset{p};
      assert old(heap).Keys == heap.Keys + {p};
    }

    /** Resizing keeps the common part of the contents, in place or at a new address. */
    method Krealloc(p: nat, n: nat) returns (q: nat)
      requires Balanced() && p in heap && heap[p].BufferBlock? && 0 !in heap
      modifies this`heap, this`issued, this`freed
      ensures Balanced() && q != 0 && (q == p || q !in old(heap))
      ensures q in heap && heap[q].BufferBlock? && |heap[q].bytes| == n
      ensures heap == (old(heap) - {p})[q := heap[q]]
      ensures q == p ==> issued == old(issued) && freed == old(freed)
      ensures q != p ==> issued == old(issued) + multiset{q} && freed == old(freed) + multiset{p}
    {
      var kept := heap[p].bytes;
      var junk: seq<Byte> := *;
      var bytes := kept[..if n <= |kept| then n else |kept|];
      if |kept| < n { bytes := kept + seq(n - |kept|, i => if 0 <= i < |junk| then junk[i] else 0); }
      if * {
        q := p;
        heap := heap[p := BufferBlock(bytes)];
        assert heap.Keys == old(heap).Keys;
      } else {
        q := Kmalloc(BufferBlock(bytes));
        Kfree(p);
      }
    }

    /** A store into a live block. */
    method Poke(p: nat, block: Block)
      requires Balanced() && p in heap
      modifies this`heap
      ensures Balanced() && heap == old(heap)[p := block]
    {
      heap := heap[p := block];
      assert heap.Keys == old(heap).Keys;
    }

    /** Copies into the front of a buffer. */
    method CopyFromUser(b: nat, data: seq<Byte>)
      requires Balanced() && b in heap && heap[b].BufferBlock? && |data| <= |heap[b].bytes|
      modifies this`heap
      ensures Balanced() && heap == old(heap)[b := BufferBlock(data + old(heap[b].bytes)[|data|..])]
      ensures |data| == |old(heap[b].bytes)| ==> heap == old(heap)[b := BufferBlock(data)]
    {
      Poke(b, BufferBlock(data + heap[b].bytes[|data|..]));
      assert |data| == |old(heap[b].bytes)| ==> data + old(heap[b].bytes)[|data|..] == data;
    }

    // ---- Channel lists ----

    /** Finds the channel exactly when it has been written to before. */
    method FindChannel(m: nat, id: nat) returns (c: nat)
      requires Sound() && m < MAX_MINORS && slots[m] != 0
      ensures c == 0 <==> (m, id) !in shape.index
      ensures c != 0 ==> c == Node(heap, slots, shape, (m, id))
      ensures c != 0 ==> ChannelOk(heap, shape, m, shape.index[(m, id)])
    {
      ghost var list := shape.lists[m];
      ghost var i := |list| - 1;
      assert SlotOk(heap, slots, shape, m);
      NodesAreNotNull(heap, slots, shape, m);
      c := heap[slots[m]].head;
      while c != 0
        invariant -1 <= i < |list| && c == Link(list, i)
        invariant (m, id) in shape.index ==> shape.index[(m, id)] <= i
        decreases i
      {
        assert ChannelOk(heap, shape, m, i);
        if heap[c].id == id { return; }
        if (m, id) in shape.index { assert KeyOk(heap, shape, (m, id)); }
        c := heap[c].next;
        i := i - 1;
      }
    }

    /** Puts an inactive channel, its buffer not yet allocated and its length not yet set, at the head of the list. */
    method AddChannel(m: nat, id: nat) returns (c: nat)
      requires Balanced() && m < |slots| && slots[m] in heap && heap[slots[m]].SlotBlock?
      modifies this`heap, this`issued
      ensures Balanced() && c != 0 && c !in old(heap) && c in heap
      ensures heap[c].ChannelBlock? && heap[c] == ChannelBlock(0, heap[c].len, id, false, old(heap[slots[m]].head))
      ensures heap == old(heap)[c := heap[c]][slots[m] := SlotBlock(c)]
    {
      var junk: nat := *;
      c := Kmalloc(ChannelBlock(0, junk, id, false, heap[slots[m]].head));
      Poke(slots[m], SlotBlock(c));
    }

    // ---- Device operations ----

    method InitSlot(m: nat)
      requires Sound() && m < MAX_MINORS && slots[m] == 0
      modifies this`heap, this`issued, this`slots, this`shape
      ensures Sound() && |slots| == |old(slots)| && slots[m] != 0 && slots == old(slots)[m := slots[m]]
    {
      var p := Kmalloc(SlotBlock(0));
      OpenKeeps(old(heap), slots, shape, store, m, p);
      slots, shape := slots[m := p], shape.(use := shape.use[p := ForSlot(m)]);
    }

    method Open(fd: nat, minor: nat) returns (r: Outcome)
      requires Valid() && fd !in files && minor < MAX_MINORS
      modifies this
      ensures Valid() && r == Answer(old(Abstract()), MessageSlot.Open(fd, minor))
      ensures Abstract() == After(old(Abstract()), MessageSlot.Open(fd, minor))
    {
      if slots[minor] == 0 { InitSlot(minor); }
      files := files[fd := File(minor, 0)];
      r := Done;
    }

    method Release(fd: nat) returns (r: Outcome)
      requires Valid() && fd in files
      modifies this`files
      ensures Valid() && r == Answer(old(Abstract()), MessageSlot.Release(fd))
      ensures Abstract() == After(old(Abstract()), MessageSlot.Release(fd))
    {
      files := files - {fd};
      r := Done;
    }

    method Ioctl(fd: nat, command: nat, param: nat) returns (r: Outcome)
      requires Valid() && fd in files
      modifies this`files
      ensures Valid() && r == Answer(old(Abstract()), MessageSlot.Ioctl(fd, command, param))
      ensures Abstract() == After(old(Abstract()), MessageSlot.Ioctl(fd, command, param))
    {
      if command != MSG_SLOT_CHANNEL { return Failed(EINVAL); }
      if param == 0 { return Failed(EINVAL); }
      files := files[fd := files[fd].(channel := param)];
      r := Done;
    }

    method Read(fd: nat, length: nat) returns (r: Outcome)
      requires Valid() && fd in files
      ensures r == Answer(Abstract(), MessageSlot.Read(fd, length))
    {
      if files[fd].channel == 0 { return Failed(EINVAL); }
      var c := FindChannel(files[fd].minor, files[fd].channel);
      if c == 0 || !heap[c].active { return Failed(EWOULDBLOCK); }
      assert store[files[fd].Key()] == Message(heap, slots, shape, files[fd].Key());
      if length < heap[c].len { return Failed(ENOSPC); }
      r := Got(heap[heap[c].buffer].bytes[..heap[c].len]);
    }

    /** Copies a message into a channel's buffer of that size and records its length. */
    method StoreMessage(c: nat, data: seq<Byte>)
      requires Balanced() && c in heap && heap[c].ChannelBlock?
      requires heap[c].buffer in heap && heap[heap[c].buffer].BufferBlock? && |heap[heap[c].buffer].bytes| == |data|
      modifies this`heap
      ensures Balanced()
      ensures heap == old(heap)[c := old(heap[c]).(len := |data|)][old(heap[c].buffer) := BufferBlock(data)]
    {
      CopyFromUser(heap[c].buffer, data);
      Poke(c, heap[c].(len := |data|));
    }

    /** Resizes the buffer of an active channel and copies a message into it. */
    method Refill(c: nat, data: seq<Byte>) returns (ghost b: nat)
      requires Balanced() && 0 !in heap && c in heap && heap[c].ChannelBlock?
      requires heap[c].buffer in heap && heap[heap[c].buffer].BufferBlock?
      modifies this`heap, this`issued, this`freed
      ensures Balanced() && b != 0 && (b == old(heap[c].buffer) || b !in old(heap))
      ensures heap == Rewritten(old(heap), c, old(heap[c].buffer), b, data)
    {
      var q := Krealloc(heap[c].buffer, |data|);
      b := q;
      ghost var resized := heap[q];
      Poke(c, heap[c].(buffer := q));
      StoreMessage(c, data);
      RefillIsRewritten(old(heap), c, q, resized, data);
    }

    /** Allocates the buffer of an inactive channel and copies a message into it. */
    method Fill(c: nat, data: seq<Byte>) returns (ghost b: nat)
      requires Balanced() && c in heap && heap[c].ChannelBlock?
      modifies this`heap, this`issued
      ensures Balanced() && b != 0 && b !in old(heap)
      ensures heap == old(heap)[c := old(heap[c]).(buffer := b, len := |data|, active := true)][b := BufferBlock(data)]
    {
      var junk: Byte := *;
      var q := Kmalloc(BufferBlock(seq(|data|, i => junk)));
      b := q;
      Poke(c, heap[c].(buffer := q));
      Poke(c, heap[c].(active := true));
      StoreMessage(c, data);
    }

    /** The second half of a write, given what the search for the channel found. */
    method Place(found: nat, m: nat, id: nat, data: seq<Byte>) returns (ghost c: nat, ghost b: nat)
      requires Balanced() && 0 !in heap && m < |slots| && slots[m] in heap && heap[slots[m]].SlotBlock?
      requires found != 0 ==> found in heap && heap[found].ChannelBlock? && heap[found].active
      requires found != 0 ==> heap[found].buffer in heap && heap[heap[found].buffer].BufferBlock?
      modifies this`heap, this`issued, this`freed
      ensures Balanced() && b != 0
      ensures found != 0 ==> c == found && (b == old(heap[c].buffer) || b !in old(heap))
      ensures found != 0 ==> heap == Rewritten(old(heap), c, old(heap[c].buffer), b, data)
      ensures found == 0 ==> c != 0 && c !in old(heap) && b !in old(heap) && b != c
      ensures found == 0 ==> heap == Extended(old(heap), slots[m], c, b, id, data)
    {
      var curr := found;
      if curr == 0 {
        var fresh_node := AddChannel(m, id);
        curr := heap[slots[m]].head;
      }
      c := curr;
      if heap[curr].active {
        b := Refill(curr, data);
      } else {
        b := Fill(curr, data);
      }
    }

    /** Stores a message under (m, id), whether or not the channel exists. */
    method Deposit(m: nat, id: nat, data: seq<Byte>)
      requires Sound() && m < MAX_MINORS && slots[m] != 0 && id != 0
      requires 1 <= |data| <= MAX_BUF_LEN
      modifies this`heap, this`issued, this`freed, this`shape, this`store
      ensures Sound() && store == old(store)[(m, id) := data]
    {
      assert SlotOk(heap, slots, shape, m);
      var found := FindChannel(m, id);
      ghost var c, b := Place(found, m, id, data);
      if found != 0 {
        RewriteKeeps(old(heap), slots, shape, store, (m, id), b, data);
        shape := Reused(shape, (m, id), old(heap)[c].buffer, b);
      } else {
        ExtendKeeps(old(heap), slots, shape, store, m, c, b, id, data);
        shape := Longer(shape, m, c, b, id);
      }
      store := store[(m, id) := data];
    }

    method Write(fd: nat, data: seq<Byte>) returns (r: Outcome)
      requires Valid() && fd in files
      modifies this
      ensures Valid() && r == Answer(old(Abstract()), MessageSlot.Write(fd, data))
      ensures Abstract() == After(old(Abstract()), MessageSlot.Write(fd, data))
    {
      if files[fd].channel == 0 { return Failed(EINVAL); }
      if |data| == 0 || |data| > MAX_BUF_LEN { return Failed(EMSGSIZE); }
      Deposit(files[fd].minor, files[fd].channel, data);
      r := Wrote(|data|);
    }

    /** Any run of calls, over any files, gives the answers of the map. */
    method RunCalls(ops: seq<Op>) returns (answers: seq<Outcome>)
      requires Valid() && Abstract() == NEW_DEVICE
      modifies this
      ensures Valid() && Abstract() == AfterAll(ops)
      ensures |answers| == |ops|
      ensures forall t :: 0 <= t < |ops| ==> answers[t] == Answer(AfterAll(ops[..t]), ops[t])
    {
      answers := [];
      for t := 0 to |ops|
        invariant Valid() && Abstract() == AfterAll(ops[..t])
        invariant |answers| == t
        invariant forall u :: 0 <= u < t ==> answers[u] == Answer(AfterAll(ops[..u]), ops[u])
      {
        assert ops[..t + 1][..t] == ops[..t];
        var r := Call(ops[t]);
        answers := answers + [r];
      }
      assert ops[..|ops|] == ops;
    }

    method Call(op: Op) returns (r: Outcome)
      requires Valid()
      modifies this
      ensures Valid() && r == Answer(old(Abstract()), op) && Abstract() == After(old(Abstract()), op)
    {
      match op
      case Open(fd, minor) =>
        if fd in files { return Failed(EBADF); }
        if minor >= MAX_MINORS { return Failed(ENXIO); }
        r := Open(fd, minor);
      case Release(fd) =>
        if fd !in files { return Failed(EBADF); }
        r := Release(fd);
      case Ioctl(fd, command, param) =>
        if fd !in files { return Failed(EBADF); }
        r := Ioctl(fd, command, param);
      case Read(fd, length) =>
        if fd !in files { return Failed(EBADF); }
        r := Read(fd, length);
      case Write(fd, data) =>
        if fd !in files { return Failed(EBADF); }
        r := Write(fd, data);
    }

    // ---- Cleanup ----

    /** Frees the first node of a list, and before it its buffer; the link is read while the node is live. */
    method FreeNode(head: nat) returns (next: nat)
      requires Balanced() && head in heap && heap[head].ChannelBlock?
      requires heap[head].active ==> heap[head].buffer in heap && heap[head].buffer != head
      modifies this`heap, this`freed
      ensures Balanced() && next == old(heap[head].next)
      ensures old(heap[head].active) ==> heap == old(heap) - {old(heap[head].buffer)} - {head}
      ensures !old(heap[head].active) ==> heap == old(heap) - {head}
    {
      next := heap[head].next;
      if heap[head].active { Kfree(heap[head].buffer); }
      Kfree(head);
    }

    /** Frees one list, from its head to its end. */
    method FreeChannelList(start: nat, ghost whole: Heap, ghost m: nat)
      requires Balanced() && Good(whole, slots, shape) && m < MAX_MINORS
      requires heap == Left(whole, shape, m, Top(shape, m)) && start == Link(shape.lists[m], Top(shape, m))
      modifies this`heap, this`freed
      ensures Balanced() && heap == Left(whole, shape, m, -1)
    {
      var head := start;
      ghost var list := shape.lists[m];
      ghost var i := |list| - 1;
      NodesAreNotNull(whole, slots, shape, m);
      while head != 0
        invariant -1 <= i < |list| && head == Link(list, i)
        invariant Balanced() && heap == Left(whole, shape, m, i)
        decreases i
      {
        FreeNodeStep(whole, slots, shape, m, i);
        head := FreeNode(head);
        i := i - 1;
      }
    }

    method FreeSlot(m: nat, ghost whole: Heap)
      requires Balanced() && Good(whole, slots, shape) && m < MAX_MINORS
      requires heap == Left(whole, shape, m, Top(shape, m))
      modifies this`heap, this`freed
      ensures Balanced() && heap == Left(whole, shape, m + 1, Top(shape, m + 1))
    {
      FreeSlotStep(whole, slots, shape, m);
      if slots[m] != 0 {
        FreeChannelList(heap[slots[m]].head, whole, m);
        Kfree(slots[m]);
      }
    }

    /** Unloading the module frees every allocation it ever made, each exactly once. */
    method Cleanup()
      requires Valid()
      modifies this`heap, this`freed
      ensures heap == map[] && freed == issued
    {
      ghost var whole := heap;
      NothingFreedYet(heap, slots, shape);
      for i := 0 to MAX_MINORS
        invariant Balanced() && Good(whole, slots, shape)
        invariant heap == Left(whole, shape, i, Top(shape, i))
      {
        FreeSlot(i, whole);
      }
      AllFreed(whole, slots, shape);
    }
  }
}
