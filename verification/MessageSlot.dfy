/** The message slot driver of hw3_os/message_slot.c. Kernel memory is an explicit map from addresses to
    blocks, so that every dereference and every `kfree` needs a live address. */
module MessageSlot {

  const MAX_MINORS := 256
  const MAX_BUF_LEN := 128
  const MSG_SLOT_CHANNEL := 0x4008_F000               // _IOW(240, 0, unsigned long)

  type Byte = bv8

  datatype Block =
    | SlotBlock(head: nat)
    | ChannelBlock(buffer: nat, len: nat, id: nat, active: bool, next: nat)
    | BufferBlock(bytes: seq<Byte>)

  type Heap = map<nat, Block>

  datatype Errno = EINVAL | EMSGSIZE | EWOULDBLOCK | ENOSPC | EBADF | ENXIO
  datatype Outcome = Done | Wrote(n: nat) | Got(bytes: seq<Byte>) | Failed(e: Errno)

  /** An open file: the minor of its inode, and `private_data`, where zero stands for NULL. */
  datatype File = File(minor: nat, channel: nat) {
    function Key(): (nat, nat) { (minor, channel) }
  }

  type Store = map<(nat, nat), seq<Byte>>

  // ---- What the driver promises: a map from (minor, channel) to the latest message ----

  datatype Op =
    | Open(fd: nat, minor: nat)
    | Release(fd: nat)
    | Ioctl(fd: nat, command: nat, param: nat)
    | Read(fd: nat, length: nat)
    | Write(fd: nat, data: seq<Byte>)

  datatype Device = Device(store: Store, files: map<nat, File>)

  const NEW_DEVICE := Device(map[], map[])

  /** The answer to one call. A closed descriptor, one that is already open, or a minor outside the device's range
      is refused by the kernel before the driver is reached. */
  function Answer(d: Device, op: Op): Outcome {
    match op
    case Open(fd, minor) => if fd in d.files then Failed(EBADF) else if minor >= MAX_MINORS then Failed(ENXIO) else Done
    case Release(fd) => if fd in d.files then Done else Failed(EBADF)
    case Ioctl(fd, command, param) =>
      if fd !in d.files then Failed(EBADF)
      else if command != MSG_SLOT_CHANNEL || param == 0 then Failed(EINVAL)
      else Done
    case Read(fd, length) => if fd in d.files then ReadAnswer(d.store, d.files[fd], length) else Failed(EBADF)
    case Write(fd, data) => if fd in d.files then WriteAnswer(d.files[fd], data) else Failed(EBADF)
  }

  function ReadAnswer(store: Store, file: File, length: nat): Outcome {
    if file.channel == 0 then Failed(EINVAL)
    else if file.Key() !in store then Failed(EWOULDBLOCK)
    else if length < |store[file.Key()]| then Failed(ENOSPC)
    else Got(store[file.Key()])
  }

  function WriteAnswer(file: File, data: seq<Byte>): Outcome {
    if file.channel == 0 then Failed(EINVAL)
    else if |data| == 0 || |data| > MAX_BUF_LEN then Failed(EMSGSIZE)
    else Wrote(|data|)
  }

  function After(d: Device, op: Op): Device {
    if Answer(d, op).Failed? then d
    else
      match op
      case Open(fd, minor) => d.(files := d.files[fd := File(minor, 0)])
      case Release(fd) => d.(files := d.files - {fd})
      case Ioctl(fd, _, param) => d.(files := d.files[fd := d.files[fd].(channel := param)])
      case Read(_, _) => d
      case Write(fd, data) => d.(store := d.store[d.files[fd].Key() := data])
  }

  function AfterAll(ops: seq<Op>): Device {
    if ops == [] then NEW_DEVICE else After(AfterAll(ops[..|ops| - 1]), ops[|ops| - 1])
  }

  // ---- Reads see the latest write, over whole runs ----

  /** Call `t` of the run goes through. */
  ghost predicate Succeeds(ops: seq<Op>, t: nat)
    requires t < |ops|
  {
    !Answer(AfterAll(ops[..t]), ops[t]).Failed?
  }

  /** Call `t` of the run is a successful write of `data` to a (minor, channel). */
  ghost predicate WritesTo(ops: seq<Op>, t: nat, key: (nat, nat), data: seq<Byte>)
    requires t < |ops|
  {
    && ops[t].Write? && ops[t].data == data && Succeeds(ops, t)
    && var files := AfterAll(ops[..t]).files;
      && ops[t].fd in files && files[ops[t].fd].minor == key.0 && files[ops[t].fd].channel == key.1
  }

  lemma {:induction false} StoreHoldsTheLatestWrite(ops: seq<Op>, t: nat, key: (nat, nat), data: seq<Byte>)
    requires t < |ops| && WritesTo(ops, t, key, data)
    requires forall u, other :: t < u < |ops| ==> !WritesTo(ops, u, key, other)
    ensures key in AfterAll(ops).store && AfterAll(ops).store[key] == data
    decreases |ops|
  {
    var last := |ops| - 1;
    if t < last {
      var before := ops[..last];
      assert before[..t] == ops[..t];
      forall u, other | t < u < last
        ensures !WritesTo(before, u, key, other)
      {
        assert before[..u] == ops[..u];
        assert !WritesTo(ops, u, key, other);
      }
      StoreHoldsTheLatestWrite(before, t, key, data);
      if ops[last].Write? { assert !WritesTo(ops, last, key, ops[last].data); }
    }
  }

  lemma {:induction false} StoreIsEmptyBeforeAnyWrite(ops: seq<Op>, key: (nat, nat))
    requires forall u, other :: 0 <= u < |ops| ==> !WritesTo(ops, u, key, other)
    ensures key !in AfterAll(ops).store
    decreases |ops|
  {
    if ops != [] {
      var last := |ops| - 1;
      var before := ops[..last];
      forall u, other | 0 <= u < last
        ensures !WritesTo(before, u, key, other)
      {
        assert before[..u] == ops[..u];
        assert !WritesTo(ops, u, key, other);
      }
      StoreIsEmptyBeforeAnyWrite(before, key);
      if ops[last].Write? { assert !WritesTo(ops, last, key, ops[last].data); }
    }
  }

  /** After any run, a read through any open file with a channel and a large enough buffer returns exactly the bytes of
      the latest successful write to its (minor, channel), whichever files made it and whatever happened elsewhere
      since. */
  lemma ReadReturnsTheLatestWrite(ops: seq<Op>, t: nat, fd: nat, length: nat, data: seq<Byte>)
    requires fd in AfterAll(ops).files && AfterAll(ops).files[fd].channel != 0
    requires var file := AfterAll(ops).files[fd];
      && t < |ops| && WritesTo(ops, t, (file.minor, file.channel), data)
      && forall u, other :: t < u < |ops| ==> !WritesTo(ops, u, (file.minor, file.channel), other)
    ensures Answer(AfterAll(ops), Read(fd, length)) == if length < |data| then Failed(ENOSPC) else Got(data)
    ensures AfterAll(ops + [Read(fd, length)]) == AfterAll(ops)
  {
    var file := AfterAll(ops).files[fd];
    StoreHoldsTheLatestWrite(ops, t, (file.minor, file.channel), data);
    assert (ops + [Read(fd, length)])[..|ops|] == ops;
  }

  lemma ReadBeforeAnyWrite(ops: seq<Op>, fd: nat, length: nat)
    requires fd in AfterAll(ops).files && AfterAll(ops).files[fd].channel != 0
    requires var file := AfterAll(ops).files[fd];
      forall u, other :: 0 <= u < |ops| ==> !WritesTo(ops, u, (file.minor, file.channel), other)
    ensures Answer(AfterAll(ops), Read(fd, length)) == Failed(EWOULDBLOCK)
  {
    var file := AfterAll(ops).files[fd];
    StoreIsEmptyBeforeAnyWrite(ops, (file.minor, file.channel));
  }

  /** A message of 1 to 128 bytes is accepted through every open file with a channel, and no other message through any
      file; and what was accepted is what a read gives next. */
  lemma WritesThatSucceed(ops: seq<Op>, fd: nat, data: seq<Byte>, length: nat)
    ensures var d, write := AfterAll(ops), Write(fd, data);
      && (fd !in d.files ==> Answer(d, write) == Failed(EBADF))
      && (fd in d.files && d.files[fd].channel == 0 ==> Answer(d, write) == Failed(EINVAL))
      && (fd in d.files && d.files[fd].channel != 0 ==>
          Answer(d, write) == if 1 <= |data| <= 128 then Wrote(|data|) else Failed(EMSGSIZE))
    ensures var d, write := AfterAll(ops), Write(fd, data);
      Answer(d, write) == Wrote(|data|) ==>
        Answer(AfterAll(ops + [write]), Read(fd, length)) == if length < |data| then Failed(ENOSPC) else Got(data)
  {
    var d, write := AfterAll(ops), Write(fd, data);
    assert (ops + [write])[..|ops|] == ops;
    if Answer(d, write) == Wrote(|data|) {
      var more := ops + [write];
      assert AfterAll(more).files == d.files;
      assert WritesTo(more, |ops|, (d.files[fd].minor, d.files[fd].channel), data);
      ReadReturnsTheLatestWrite(more, |ops|, fd, length, data);
    }
  }

  /** A read through a closed file, or through one without a channel, is refused. */
  lemma ReadsThatFail(ops: seq<Op>, fd: nat, length: nat)
    ensures fd !in AfterAll(ops).files ==> Answer(AfterAll(ops), Read(fd, length)) == Failed(EBADF)
    ensures fd in AfterAll(ops).files && AfterAll(ops).files[fd].channel == 0 ==>
      Answer(AfterAll(ops), Read(fd, length)) == Failed(EINVAL)
  {
  }

  // ---- Files, from the calls alone ----

  /** A descriptor is open after a run exactly if some successful open of it was followed by no release. */
  lemma {:induction false} OpenFilesWereOpened(ops: seq<Op>, fd: nat)
    ensures fd in AfterAll(ops).files <==> exists t :: OpenSince(ops, t, fd)
    decreases |ops|
  {
    if ops != [] {
      var n := |ops| - 1;
      OpenFilesWereOpened(ops[..n], fd);
      if t :| OpenSince(ops[..n], t, fd) { OpenSinceLater(ops, t, fd); }
      if t: nat :| t < n && OpenSince(ops, t, fd) { OpenSinceLater(ops, t, fd); }
      if ops[n].Open? && ops[n].fd == fd && Succeeds(ops, n) { assert OpenSince(ops, n, fd); }
    }
  }

  /** Call `t` opens the descriptor, and no later call of the run releases it. */
  ghost predicate OpenSince(ops: seq<Op>, t: nat, fd: nat) {
    && t < |ops| && ops[t].Open? && ops[t].fd == fd && Succeeds(ops, t)
    && forall u :: t < u < |ops| ==> ops[u] != Release(fd)
  }

  lemma OpenSinceLater(ops: seq<Op>, t: nat, fd: nat)
    requires ops != [] && t < |ops| - 1
    ensures OpenSince(ops, t, fd) <==> OpenSince(ops[..|ops| - 1], t, fd) && ops[|ops| - 1] != Release(fd)
  {
    var n := |ops| - 1;
    assert ops[..n][..t] == ops[..t] && ops[..n][t] == ops[t];
    assert forall u :: t < u < n ==> ops[..n][u] == ops[u];
  }

  /** An open descriptor has the minor it was last opened with. */
  lemma {:induction false} MinorIsFromOpen(ops: seq<Op>, t: nat, fd: nat)
    requires OpenSince(ops, t, fd)
    ensures fd in AfterAll(ops).files && AfterAll(ops).files[fd].minor == ops[t].minor && ops[t].minor < 256
    decreases |ops|
  {
    var n := |ops| - 1;
    if t < n {
      OpenSinceLater(ops, t, fd);
      MinorIsFromOpen(ops[..n], t, fd);
    }
  }

  /** Call `u` gives the descriptor a channel. */
  ghost predicate SetsChannel(ops: seq<Op>, u: nat, fd: nat)
    requires u < |ops|
  {
    ops[u].Ioctl? && ops[u].fd == fd && Succeeds(ops, u)
  }

  /** An open descriptor has the channel of the latest successful ioctl on it since it was opened... */
  lemma {:induction false} ChannelIsFromIoctl(ops: seq<Op>, t: nat, u: nat, fd: nat)
    requires OpenSince(ops, t, fd) && t < u < |ops| && SetsChannel(ops, u, fd)
    requires forall v :: u < v < |ops| ==> !SetsChannel(ops, v, fd)
    ensures fd in AfterAll(ops).files && AfterAll(ops).files[fd].channel == ops[u].param
    decreases |ops|
  {
    var n := |ops| - 1;
    OpenSinceLater(ops, t, fd);
    MinorIsFromOpen(ops[..n], t, fd);
    if u < n {
      assert ops[..n][..u] == ops[..u];
      forall v | u < v < n
        ensures !SetsChannel(ops[..n], v, fd)
      {
        assert ops[..n][..v] == ops[..v];
        assert !SetsChannel(ops, v, fd);
      }
      ChannelIsFromIoctl(ops[..n], t, u, fd);
      assert !SetsChannel(ops, n, fd);
    }
  }

  /** ... or none, if there was none. */
  lemma {:induction false} NoChannelWithoutIoctl(ops: seq<Op>, t: nat, fd: nat)
    requires OpenSince(ops, t, fd)
    requires forall v :: t < v < |ops| ==> !SetsChannel(ops, v, fd)
    ensures fd in AfterAll(ops).files && AfterAll(ops).files[fd].channel == 0
    decreases |ops|
  {
    var n := |ops| - 1;
    if t < n {
      OpenSinceLater(ops, t, fd);
      MinorIsFromOpen(ops[..n], t, fd);
      forall v | t < v < n
        ensures !SetsChannel(ops[..n], v, fd)
      {
        assert ops[..n][..v] == ops[..v];
        assert !SetsChannel(ops, v, fd);
      }
      NoChannelWithoutIoctl(ops[..n], t, fd);
      assert !SetsChannel(ops, n, fd);
    }
  }

  /** Which opens, releases and ioctls succeed. The command is `_IOW(240, 0, unsigned long)`: direction, size of the
      argument, major number and ordinal. */
  lemma CallsThatSucceed(ops: seq<Op>, fd: nat, minor: nat, command: nat, param: nat)
    ensures fd in AfterAll(ops).files ==> Answer(AfterAll(ops), Open(fd, minor)) == Failed(EBADF)
    ensures fd !in AfterAll(ops).files ==>
      Answer(AfterAll(ops), Open(fd, minor)) == if minor < 256 then Done else Failed(ENXIO)
    ensures Answer(AfterAll(ops), Release(fd)) == if fd in AfterAll(ops).files then Done else Failed(EBADF)
    ensures fd !in AfterAll(ops).files ==> Answer(AfterAll(ops), Ioctl(fd, command, param)) == Failed(EBADF)
    ensures fd in AfterAll(ops).files ==>
      var known := command == 0x4000_0000 + 8 * 0x1_0000 + 240 * 0x100;
      Answer(AfterAll(ops), Ioctl(fd, command, param)) == if known && param != 0 then Done else Failed(EINVAL)
  {
  }

  /** No run stores an empty or an overlong message, or one under channel zero. */
  lemma {:induction false} StoredMessagesFit(ops: seq<Op>, key: (nat, nat))
    requires key in AfterAll(ops).store
    ensures 1 <= |AfterAll(ops).store[key]| <= MAX_BUF_LEN && key.1 != 0
    decreases |ops|
  {
    var before := ops[..|ops| - 1];
    if key in AfterAll(before).store { StoredMessagesFit(before, key); }
  }

  // ---- The shape of kernel memory ----

  /** What an allocated block is for: the slot of a minor, the `i`-th channel added to it, or that channel's message. */
  datatype Use = ForSlot(m: nat) | ForChannel(m: nat, i: nat) | ForBuffer(m: nat, i: nat)

  /** Channel lists oldest first, so that the list head is the last element. */
  datatype Shape = Shape(lists: seq<seq<nat>>, use: map<nat, Use>, index: map<(nat, nat), nat>)

  /** The address of element `i` of a list, or NULL before its first element. */
  function Link(list: seq<nat>, i: int): nat {
    if 0 <= i < |list| then list[i] else 0
  }

  ghost predicate ChannelOk(heap: Heap, shape: Shape, m: nat, i: nat)
    requires m < |shape.lists| && i < |shape.lists[m]|
  {
    var list := shape.lists[m];
    var p := list[i];
    && p in heap && p in shape.use && shape.use[p] == ForChannel(m, i)
    && heap[p].ChannelBlock? && heap[p].active && heap[p].id != 0 && heap[p].next == Link(list, i - 1)
    && (m, heap[p].id) in shape.index && shape.index[(m, heap[p].id)] == i
    && var b := heap[p].buffer;
      && b in heap && b in shape.use && shape.use[b] == ForBuffer(m, i)
      && heap[b].BufferBlock? && |heap[b].bytes| == heap[p].len && 1 <= heap[p].len <= MAX_BUF_LEN
  }

  ghost predicate SlotOk(heap: Heap, slots: seq<nat>, shape: Shape, m: nat)
    requires m < |slots| && m < |shape.lists|
  {
    if slots[m] == 0 then shape.lists[m] == []
    else
      var p := slots[m];
      && p in heap && p in shape.use && shape.use[p] == ForSlot(m)
      && heap[p] == SlotBlock(Link(shape.lists[m], |shape.lists[m]| - 1))
  }

  /** Every live block has exactly one use, and its user knows it. */
  ghost predicate UseOk(heap: Heap, slots: seq<nat>, shape: Shape, p: nat)
    requires |slots| == |shape.lists| && p in shape.use
  {
    match shape.use[p]
    case ForSlot(m) => m < |slots| && slots[m] == p
    case ForChannel(m, i) => m < |slots| && i < |shape.lists[m]| && shape.lists[m][i] == p
    case ForBuffer(m, i) =>
      && m < |slots| && i < |shape.lists[m]|
      && var c := shape.lists[m][i]; c in heap && heap[c].ChannelBlock? && heap[c].buffer == p
  }

  /** Kernel memory holds the slots, their channel lists and their messages, and nothing else. */
  ghost predicate Good(heap: Heap, slots: seq<nat>, shape: Shape) {
    && |slots| == MAX_MINORS == |shape.lists|
    && 0 !in heap && shape.use.Keys == heap.Keys
    && (forall m :: 0 <= m < MAX_MINORS ==> SlotOk(heap, slots, shape, m))
    && (forall m, i :: 0 <= m < MAX_MINORS && 0 <= i < |shape.lists[m]| ==> ChannelOk(heap, shape, m, i))
    && (forall p :: p in shape.use ==> UseOk(heap, slots, shape, p))
    && (forall k :: k in shape.index ==> KeyOk(heap, shape, k))
  }

  ghost predicate KeyOk(heap: Heap, shape: Shape, k: (nat, nat))
    requires |shape.lists| == MAX_MINORS && k in shape.index
  {
    && k.0 < MAX_MINORS && shape.index[k] < |shape.lists[k.0]|
    && var c := shape.lists[k.0][shape.index[k]]; c in heap && heap[c].ChannelBlock? && heap[c].id == k.1
  }

  /** The node of a known channel. */
  ghost function Node(heap: Heap, slots: seq<nat>, shape: Shape, k: (nat, nat)): nat
    requires Good(heap, slots, shape) && k in shape.index
  {
    assert KeyOk(heap, shape, k);
    shape.lists[k.0][shape.index[k]]
  }

  /** The channel's stored message. */
  ghost function Message(heap: Heap, slots: seq<nat>, shape: Shape, k: (nat, nat)): seq<Byte>
    requires Good(heap, slots, shape) && k in shape.index
  {
    assert KeyOk(heap, shape, k);
    assert ChannelOk(heap, shape, k.0, shape.index[k]);
    heap[heap[Node(heap, slots, shape, k)].buffer].bytes
  }

  ghost predicate Stores(heap: Heap, slots: seq<nat>, shape: Shape, store: Store)
    requires Good(heap, slots, shape)
  {
    && store.Keys == shape.index.Keys
    && (forall k :: k in store ==> store[k] == Message(heap, slots, shape, k))
  }

  // ---- What each change of kernel memory keeps ----

  /** Two channels of one slot never share an id, and no message is empty or longer than the limit. */
  lemma IdsAreDistinct(heap: Heap, slots: seq<nat>, shape: Shape, m: nat, i: nat, j: nat)
    requires Good(heap, slots, shape)
    requires m < MAX_MINORS && i < |shape.lists[m]| && j < |shape.lists[m]| && i != j
    ensures shape.lists[m][i] in heap && shape.lists[m][j] in heap
    ensures heap[shape.lists[m][i]].ChannelBlock? && heap[shape.lists[m][j]].ChannelBlock?
    ensures heap[shape.lists[m][i]].id != heap[shape.lists[m][j]].id
  {
    assert ChannelOk(heap, shape, m, i) && ChannelOk(heap, shape, m, j);
  }

  lemma FreshAddress(heap: Heap)
    ensures exists p: nat :: p != 0 && p !in heap
  {
    var top := Above(heap.Keys);
    assert top !in heap;
  }

  ghost function Above(s: set<nat>): (top: nat)
    ensures top > 0 && forall p :: p in s ==> p < top
  {
    if s == {} then 1
    else
      var q :| q in s;
      var rest := Above(s - {q});
      assert forall p :: p in s ==> p == q || p in s - {q};
      if q < rest then rest else q + 1
  }

  lemma OpenKeeps(heap: Heap, slots: seq<nat>, shape: Shape, store: Store, m: nat, p: nat)
    requires Good(heap, slots, shape) && Stores(heap, slots, shape, store)
    requires m < MAX_MINORS && slots[m] == 0 && p != 0 && p !in heap
    ensures Good(heap[p := SlotBlock(0)], slots[m := p], shape.(use := shape.use[p := ForSlot(m)]))
    ensures Stores(heap[p := SlotBlock(0)], slots[m := p], shape.(use := shape.use[p := ForSlot(m)]), store)
  {
    var heap', slots', shape' := heap[p := SlotBlock(0)], slots[m := p], shape.(use := shape.use[p := ForSlot(m)]);
    assert SlotOk(heap, slots, shape, m);
    forall n | 0 <= n < MAX_MINORS
      ensures SlotOk(heap', slots', shape', n)
    {
      assert SlotOk(heap, slots, shape, n);
    }
    forall n, i | 0 <= n < MAX_MINORS && 0 <= i < |shape.lists[n]|
      ensures ChannelOk(heap', shape', n, i)
    {
      assert ChannelOk(heap, shape, n, i);
    }
    forall q | q in shape'.use
      ensures UseOk(heap', slots', shape', q)
    {
      if q != p { assert UseOk(heap, slots, shape, q); }
    }
    forall k | k in shape.index
      ensures KeyOk(heap', shape', k)
    {
      assert KeyOk(heap, shape, k);
    }
    forall k | k in store
      ensures store[k] == Message(heap', slots', shape', k)
    {
      assert ChannelOk(heap, shape, k.0, shape.index[k]);
    }
  }

  /** Memory after channel `c` got buffer `b`, holding `data`, in place of buffer `was`. */
  ghost function Rewritten(heap: Heap, c: nat, was: nat, b: nat, data: seq<Byte>): Heap
    requires c in heap && heap[c].ChannelBlock?
  {
    (heap - {was})[c := heap[c].(buffer := b, len := |data|)][b := BufferBlock(data)]
  }

  lemma RefillIsRewritten(heap: Heap, c: nat, q: nat, resized: Block, data: seq<Byte>)
    requires c in heap && heap[c].ChannelBlock? && q != c && heap[c].buffer != c
    ensures var moved := heap[c].(buffer := q);
      (heap - {heap[c].buffer})[q := resized][c := moved][c := moved.(len := |data|)][q := BufferBlock(data)]
        == Rewritten(heap, c, heap[c].buffer, q, data)
  {
  }

  ghost function Reused(shape: Shape, k: (nat, nat), was: nat, b: nat): Shape
    requires k in shape.index
  {
    shape.(use := (shape.use - {was})[b := ForBuffer(k.0, shape.index[k])])
  }

  /** Buffer `b` may take the place of the one that channel `c` has. */
  predicate CanRewrite(heap: Heap, c: nat, b: nat) {
    c in heap && heap[c].ChannelBlock? && (b == heap[c].buffer || (b != 0 && b !in heap))
  }

  lemma RewriteKeepsGood(heap: Heap, slots: seq<nat>, shape: Shape, k: (nat, nat), b: nat, data: seq<Byte>)
    requires Good(heap, slots, shape) && k in shape.index
    requires 1 <= |data| <= MAX_BUF_LEN
    requires CanRewrite(heap, Node(heap, slots, shape, k), b)
    ensures var c := Node(heap, slots, shape, k);
      Good(Rewritten(heap, c, heap[c].buffer, b, data), slots, Reused(shape, k, heap[c].buffer, b))
  {
    var c := Node(heap, slots, shape, k);
    assert KeyOk(heap, shape, k);
    assert ChannelOk(heap, shape, k.0, shape.index[k]);
    var was := heap[c].buffer;
    var heap', shape' := Rewritten(heap, c, was, b, data), Reused(shape, k, was, b);
    forall m | 0 <= m < MAX_MINORS
      ensures SlotOk(heap', slots, shape', m)
    {
      assert SlotOk(heap, slots, shape, m);
    }
    forall m, i | 0 <= m < MAX_MINORS && 0 <= i < |shape.lists[m]|
      ensures ChannelOk(heap', shape', m, i)
    {
      assert ChannelOk(heap, shape, m, i);
    }
    forall q | q in shape'.use
      ensures UseOk(heap', slots, shape', q)
    {
      if q != b { assert UseOk(heap, slots, shape, q); }
    }
    forall j | j in shape.index
      ensures KeyOk(heap', shape', j)
    {
      assert KeyOk(heap, shape, j);
      assert ChannelOk(heap, shape, j.0, shape.index[j]);
    }
  }

  lemma RewriteKeepsStores(heap: Heap, slots: seq<nat>, shape: Shape, store: Store, k: (nat, nat), b: nat,
                           data: seq<Byte>)
    requires Good(heap, slots, shape) && k in shape.index && Stores(heap, slots, shape, store)
    requires 1 <= |data| <= MAX_BUF_LEN
    requires CanRewrite(heap, Node(heap, slots, shape, k), b)
    requires var c := Node(heap, slots, shape, k);
      Good(Rewritten(heap, c, heap[c].buffer, b, data), slots, Reused(shape, k, heap[c].buffer, b))
    ensures var c := Node(heap, slots, shape, k);
      Stores(Rewritten(heap, c, heap[c].buffer, b, data), slots, Reused(shape, k, heap[c].buffer, b), store[k := data])
  {
    var c := Node(heap, slots, shape, k);
    assert KeyOk(heap, shape, k);
    assert ChannelOk(heap, shape, k.0, shape.index[k]);
    var was := heap[c].buffer;
    var heap', shape' := Rewritten(heap, c, was, b, data), Reused(shape, k, was, b);
    forall j | j in store[k := data]
      ensures store[k := data][j] == Message(heap', slots, shape', j)
    {
      assert KeyOk(heap, shape, j);
      assert ChannelOk(heap, shape, j.0, shape.index[j]);
    }
  }

  lemma RewriteKeeps(heap: Heap, slots: seq<nat>, shape: Shape, store: Store, k: (nat, nat), b: nat, data: seq<Byte>)
    requires Good(heap, slots, shape) && k in shape.index && Stores(heap, slots, shape, store)
    requires 1 <= |data| <= MAX_BUF_LEN
    requires CanRewrite(heap, Node(heap, slots, shape, k), b)
    ensures var c := Node(heap, slots, shape, k);
      && var heap', shape' := Rewritten(heap, c, heap[c].buffer, b, data), Reused(shape, k, heap[c].buffer, b);
      && Good(heap', slots, shape') && Stores(heap', slots, shape', store[k := data])
  {
    RewriteKeepsGood(heap, slots, shape, k, b, data);
    RewriteKeepsStores(heap, slots, shape, store, k, b, data);
  }

  /** Memory after a channel `c` with message `data` in `b` was put at the head of a slot's list. */
  ghost function Extended(heap: Heap, slot: nat, c: nat, b: nat, id: nat, data: seq<Byte>): Heap
    requires slot in heap && heap[slot].SlotBlock?
  {
    heap[c := ChannelBlock(b, |data|, id, true, heap[slot].head)][slot := SlotBlock(c)][b := BufferBlock(data)]
  }

  ghost function Longer(shape: Shape, m: nat, c: nat, b: nat, id: nat): Shape
    requires m < |shape.lists|
  {
    var i := |shape.lists[m]|;
    Shape(shape.lists[m := shape.lists[m] + [c]],
          shape.use[c := ForChannel(m, i)][b := ForBuffer(m, i)],
          shape.index[(m, id) := i])
  }

  ghost predicate CanExtend(heap: Heap, slots: seq<nat>, shape: Shape, m: nat, c: nat, b: nat, id: nat) {
    && Good(heap, slots, shape)
    && m < MAX_MINORS && slots[m] != 0 && id != 0 && (m, id) !in shape.index
    && c != 0 && c !in heap && b != 0 && b !in heap && b != c
    && slots[m] in heap && heap[slots[m]].SlotBlock?
  }

  lemma ExtendKeepsLists(heap: Heap, slots: seq<nat>, shape: Shape, m: nat, c: nat, b: nat, id: nat, data: seq<Byte>)
    requires CanExtend(heap, slots, shape, m, c, b, id) && 1 <= |data| <= MAX_BUF_LEN
    ensures var heap', shape' := Extended(heap, slots[m], c, b, id, data), Longer(shape, m, c, b, id);
      && (forall n :: 0 <= n < MAX_MINORS ==> SlotOk(heap', slots, shape', n))
      && (forall n, i :: 0 <= n < MAX_MINORS && 0 <= i < |shape'.lists[n]| ==> ChannelOk(heap', shape', n, i))
  {
    var heap', shape' := Extended(heap, slots[m], c, b, id, data), Longer(shape, m, c, b, id);
    assert SlotOk(heap, slots, shape, m);
    forall n | 0 <= n < MAX_MINORS
      ensures SlotOk(heap', slots, shape', n)
    {
      assert SlotOk(heap, slots, shape, n);
    }
    forall n, i | 0 <= n < MAX_MINORS && 0 <= i < |shape'.lists[n]|
      ensures ChannelOk(heap', shape', n, i)
    {
      if i < |shape.lists[n]| { assert ChannelOk(heap, shape, n, i); }
    }
  }

  lemma ExtendKeepsGood(heap: Heap, slots: seq<nat>, shape: Shape, m: nat, c: nat, b: nat, id: nat, data: seq<Byte>)
    requires CanExtend(heap, slots, shape, m, c, b, id) && 1 <= |data| <= MAX_BUF_LEN
    ensures Good(Extended(heap, slots[m], c, b, id, data), slots, Longer(shape, m, c, b, id))
  {
    var heap', shape' := Extended(heap, slots[m], c, b, id, data), Longer(shape, m, c, b, id);
    ExtendKeepsLists(heap, slots, shape, m, c, b, id, data);
    forall q | q in shape'.use
      ensures UseOk(heap', slots, shape', q)
    {
      if q != b && q != c { assert UseOk(heap, slots, shape, q); }
    }
    forall k | k in shape'.index
      ensures KeyOk(heap', shape', k)
    {
      if k != (m, id) {
        assert KeyOk(heap, shape, k);
      }
    }
  }

  lemma ExtendKeepsStores(heap: Heap, slots: seq<nat>, shape: Shape, store: Store,
                          m: nat, c: nat, b: nat, id: nat, data: seq<Byte>)
    requires CanExtend(heap, slots, shape, m, c, b, id) && 1 <= |data| <= MAX_BUF_LEN
    requires Stores(heap, slots, shape, store)
    requires Good(Extended(heap, slots[m], c, b, id, data), slots, Longer(shape, m, c, b, id))
    ensures Stores(Extended(heap, slots[m], c, b, id, data), slots, Longer(shape, m, c, b, id), store[(m, id) := data])
  {
    var heap', shape' := Extended(heap, slots[m], c, b, id, data), Longer(shape, m, c, b, id);
    var store' := store[(m, id) := data];
    forall k | k in store'
      ensures store'[k] == Message(heap', slots, shape', k)
    {
      if k != (m, id) { OldMessageStays(heap, slots, shape, m, c, b, id, data, k); }
    }
  }

  lemma OldMessageStays(heap: Heap, slots: seq<nat>, shape: Shape, m: nat, c: nat, b: nat, id: nat, data: seq<Byte>,
                        k: (nat, nat))
    requires CanExtend(heap, slots, shape, m, c, b, id)
    requires Good(Extended(heap, slots[m], c, b, id, data), slots, Longer(shape, m, c, b, id))
    requires k in shape.index && k != (m, id)
    ensures Message(Extended(heap, slots[m], c, b, id, data), slots, Longer(shape, m, c, b, id), k)
         == Message(heap, slots, shape, k)
  {
    assert KeyOk(heap, shape, k);
    assert ChannelOk(heap, shape, k.0, shape.index[k]);
  }

  lemma ExtendKeeps(heap: Heap, slots: seq<nat>, shape: Shape, store: Store,
                    m: nat, c: nat, b: nat, id: nat, data: seq<Byte>)
    requires CanExtend(heap, slots, shape, m, c, b, id) && 1 <= |data| <= MAX_BUF_LEN
    requires Stores(heap, slots, shape, store)
    ensures var heap', shape' := Extended(heap, slots[m], c, b, id, data), Longer(shape, m, c, b, id);
      && Good(heap', slots, shape') && Stores(heap', slots, shape', store[(m, id) := data])
  {
    ExtendKeepsGood(heap, slots, shape, m, c, b, id, data);
    ExtendKeepsStores(heap, slots, shape, store, m, c, b, id, data);
  }

  // ---- Freeing everything, slot by slot and each list from its head ----

  /** Whether a block is still live when slots below `m`, and channels of `m` after the `i`-th, have been freed. */
  predicate Remains(use: Use, m: nat, i: int) {
    match use
    case ForSlot(n) => m <= n
    case ForChannel(n, j) => m < n || (m == n && j <= i)
    case ForBuffer(n, j) => m < n || (m == n && j <= i)
  }

  ghost function Left(heap: Heap, shape: Shape, m: nat, i: int): Heap {
    map p | p in heap && p in shape.use && Remains(shape.use[p], m, i) :: heap[p]
  }

  /** The index of the head of a slot's list. */
  function Top(shape: Shape, m: nat): int {
    if m < |shape.lists| then |shape.lists[m]| - 1 else -1
  }

  lemma NothingFreedYet(heap: Heap, slots: seq<nat>, shape: Shape)
    requires Good(heap, slots, shape)
    ensures Left(heap, shape, 0, Top(shape, 0)) == heap
  {
    forall p | p in heap
      ensures Remains(shape.use[p], 0, Top(shape, 0))
    {
      assert UseOk(heap, slots, shape, p);
    }
  }

  lemma AllFreed(heap: Heap, slots: seq<nat>, shape: Shape)
    requires Good(heap, slots, shape)
    ensures Left(heap, shape, MAX_MINORS, -1) == map[]
  {
    forall p | p in heap
      ensures !Remains(shape.use[p], MAX_MINORS, -1)
    {
      assert UseOk(heap, slots, shape, p);
    }
  }

  /** The node and its buffer are still live, and freeing both leaves the shorter list. */
  lemma FreeNodeStep(heap: Heap, slots: seq<nat>, shape: Shape, m: nat, i: nat)
    requires Good(heap, slots, shape) && m < MAX_MINORS && i < |shape.lists[m]|
    ensures var c, left := shape.lists[m][i], Left(heap, shape, m, i);
      && c in left && left[c].ChannelBlock? && left[c].active && left[c].next == Link(shape.lists[m], i - 1)
      && left[c].buffer in left && left[c].buffer != c
      && left - {left[c].buffer} - {c} == Left(heap, shape, m, i - 1)
  {
    assert ChannelOk(heap, shape, m, i);
    forall p | p in heap
      ensures (Remains(shape.use[p], m, i) && !Remains(shape.use[p], m, i - 1))
        <==> (p == shape.lists[m][i] || p == heap[shape.lists[m][i]].buffer)
    {
      assert UseOk(heap, slots, shape, p);
    }
  }

  lemma NodesAreNotNull(heap: Heap, slots: seq<nat>, shape: Shape, m: nat)
    requires Good(heap, slots, shape) && m < MAX_MINORS
    ensures forall j :: 0 <= j < |shape.lists[m]| ==> shape.lists[m][j] != 0
  {
    forall j | 0 <= j < |shape.lists[m]|
      ensures shape.lists[m][j] != 0
    {
      assert ChannelOk(heap, shape, m, j);
    }
  }

  lemma FreeSlotStep(heap: Heap, slots: seq<nat>, shape: Shape, m: nat)
    requires Good(heap, slots, shape) && m < MAX_MINORS
    ensures slots[m] != 0 ==> slots[m] in Left(heap, shape, m, -1) && slots[m] in Left(heap, shape, m, Top(shape, m))
    ensures slots[m] != 0 ==>
      Left(heap, shape, m, Top(shape, m))[slots[m]] == SlotBlock(Link(shape.lists[m], Top(shape, m)))
    ensures Left(heap, shape, m, -1) - {slots[m]} == Left(heap, shape, m + 1, Top(shape, m + 1))
    ensures slots[m] == 0 ==> Left(heap, shape, m, Top(shape, m)) == Left(heap, shape, m + 1, Top(shape, m + 1))
  {
    assert SlotOk(heap, slots, shape, m);
    forall p | p in heap
      ensures Remains(shape.use[p], m, -1) && p != slots[m] <==> Remains(shape.use[p], m + 1, Top(shape, m + 1))
    {
      assert UseOk(heap, slots, shape, p);
    }
    assert 0 !in Left(heap, shape, m, -1);
  }
}
