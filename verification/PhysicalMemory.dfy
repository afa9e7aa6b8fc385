/** The frames of hw1_os/os.c and the page-table operations of hw1_os/pt.c that work in them. */
module PhysicalMemory {
  import opened Words
  import opened PageTable

  /** `errx` ends the process when the frames run out. */
  datatype Allocated = OutOfMemory | Frame(ppn: nat)

  /** A walk ends at a node, finds no mapping, or ends the process. */
  datatype Walk = NoMapping | Died | Node(node: array<Word>)

  function PhysicalAddr(ppn: Word, offset: Word): Word {
    Or(ShiftLeft12(ppn), offset)
  }

  ghost function Rows(pages: seq<array<Word>>): (rows: seq<seq<Word>>)
    reads pages
    ensures |rows| == |pages| && forall f :: 0 <= f < |pages| ==> rows[f] == pages[f][..]
  {
    if pages == [] then [] else Rows(pages[..|pages| - 1]) + [pages[|pages| - 1][..]]
  }

  /** `SET_FRAME_N` on a cleared entry or one that holds only the valid bit */
  method SetFrame(entry: Word, frame: Word) returns (r: Word)
    requires entry <= 1
    ensures r == frame % PPN_SPAN * 4096 + entry
    ensures frame < PPN_SPAN ==> r == frame * 4096 + entry
    ensures entry == 0 ==> r % 2 == 0
  {
    OrIntoZero(ShiftLeft12(frame));
    OrLowBit(ShiftLeft12(frame));
    r := Or(entry, ShiftLeft12(frame));
  }

  /** `SET_VALID` on an entry without the valid bit */
  method SetValid(entry: Word) returns (r: Word)
    requires entry % 2 == 0
    ensures r == entry + 1
  {
    OrLowBit(entry);
    r := Or(entry, 1);
  }

  /** Into a zero entry the two macros store just the frame number and the valid bit. */
  method PointEntry(node: array<Word>, i: nat, frame: Word)
    requires i < node.Length && node[i] == 0 && frame < PPN_SPAN
    modifies node
    ensures node[i] == frame * 4096 + 1
    ensures forall k :: 0 <= k < node.Length && k != i ==> node[k] == old(node[k])
  {
    var e := SetFrame(node[i], frame);
    node[i] := e;
    e := SetValid(node[i]);
    node[i] := e;
  }

  /** Clearing the entry and, for a mapping, setting the valid bit and the frame number (lines 66-70). */
  method StoreLeaf(node: array<Word>, j: nat, ppn: Word)
    requires j < node.Length
    modifies node
    ensures node[j] == if ppn == NO_MAPPING then 0 else ppn % PPN_SPAN * 4096 + 1
    ensures forall k :: 0 <= k < node.Length && k != j ==> node[k] == old(node[k])
  {
    node[j] := 0;
    if ppn != NO_MAPPING {
      var e := SetValid(node[j]);
      node[j] := e;
      e := SetFrame(node[j], ppn);
      node[j] := e;
    }
  }

  lemma WriteBesideNew(mem: seq<seq<Word>>, row: seq<Word>, f: nat, i: nat, w: Word)
    requires f < |mem|
    ensures (mem + [row])[f := Poked((mem + [row])[f], i, w)] == mem[f := Poked(mem[f], i, w)] + [row]
  {
  }

  predicate Distinct(pages: seq<array<Word>>) {
    forall f, g :: 0 <= f < g < |pages| ==> pages[f] != pages[g]
  }

  class Memory {
    var nalloc: nat
    var pages: seq<array<Word>>                       // the entries of `pages` handed out so far
    ghost var trie: Trie                              // where each frame sits
    ghost var table: map<Place, nat>                  // the mapping

    ghost function Contents(): seq<seq<Word>>
      reads `pages, pages
    {
      Rows(pages)
    }

    ghost predicate Valid()
      reads this, pages
    {
      nalloc == |pages| <= NPAGES && Distinct(pages) && Fits(Contents(), trie, table)
    }

    /** Frames handed out before stay where they are, and later ones are new. */
    twostate predicate KeepsPages()
      reads this
    {
      && |old(pages)| <= |pages|
      && forall k :: 0 <= k < |pages| ==> if k < |old(pages)| then pages[k] == old(pages)[k] else fresh(pages[k])
    }

    ghost predicate IsRoot(pt: nat)
      reads this
    {
      Place(pt, []) in trie.at
    }

    constructor ()
      ensures Valid() && nalloc == 0 && pages == [] && trie.at == table == map[]
    {
      nalloc, pages := 0, [];
      trie, table := Trie([], map[]), map[];
    }

    /** `alloc_page_frame`: frame numbers are handed out in order and frames start out all zero. */
    method AllocPageFrame(ghost place: Place) returns (r: Allocated)
      requires nalloc == |pages| <= NPAGES && Distinct(pages)
      modifies this
      ensures Distinct(pages)
      ensures r.OutOfMemory? <==> old(nalloc) == NPAGES
      ensures r.OutOfMemory? ==>
        && nalloc == old(nalloc) && pages == old(pages) && trie == old(trie) && table == old(table)
        && Contents() == old(Contents())
      ensures r.Frame? ==>
        && r.ppn == old(nalloc) && nalloc == old(nalloc) + 1 == |pages|
        && Contents() == old(Contents()) + [Zeros()] && trie == Grown(old(trie), place) && table == old(table)
      ensures KeepsPages()
    {
      if nalloc == NPAGES {
        return OutOfMemory;
      }
      var ppn := nalloc;
      nalloc := nalloc + 1;
      var va := new Word[ENTRIES](_ => 0);
      pages := pages + [va];
      trie := Grown(trie, place);
      assert va[..] == Zeros();
      assert Contents() == old(Contents()) + [Zeros()];
      return Frame(ppn);
    }

    /** `phys_to_virt` of an aligned address; NULL for a frame that was never handed out. */
    function PhysToVirt(addr: Word): (va: array?<Word>)
      requires addr % 4096 == 0
      reads this
    {
      var ppn := addr / 4096;
      if ppn < NPAGES && ppn < |pages| then pages[ppn] else null
    }

    /** `phys_to_virt(PHYSICAL_ADDR(frame, 0))` */
    method Follow(frame: Word) returns (node: array<Word>)
      requires |pages| <= NPAGES && frame < |pages|
      ensures node == pages[frame]
    {
      var addr := PhysicalAddr(frame, 0);
      assert addr == frame * 4096;
      node := PhysToVirt(addr);
    }

    /** A frame allocated outside `page_walk` is the root of an empty tree. */
    method NewTable() returns (r: Allocated)
      requires Valid()
      modifies this
      ensures Valid() && table == old(table)
      ensures r.OutOfMemory? <==> old(nalloc) == NPAGES
      ensures r.OutOfMemory? ==> pages == old(pages) && trie == old(trie)
      ensures r.Frame? ==> r.ppn == old(nalloc) && trie == Grown(old(trie), Place(r.ppn, []))
      ensures KeepsPages()
    {
      FitsNewRoot(Contents(), trie, table);
      r := AllocPageFrame(Place(nalloc, []));
    }

    method Link(curr: array<Word>, ghost f: nat, i: nat, frame: Word)
      requires Distinct(pages) && f < |pages| && curr == pages[f] && i < curr.Length && curr[i] == 0 && frame < PPN_SPAN
      modifies curr
      ensures Contents() == old(Contents())[f := Poked(old(Contents())[f], i, frame * 4096 + 1)]
    {
      PointEntry(curr, i, frame);
      assert curr[..] == Poked(old(curr[..]), i, frame * 4096 + 1);
    }

    /** Allocates a frame and stores its number and the valid bit in an entry that was zero (lines 43-44). */
    method AllocInto(curr: array<Word>, ghost f: nat, i: nat, ghost place: Place) returns (died: bool)
      requires nalloc == |pages| <= NPAGES && Distinct(pages)
      requires f < nalloc && curr == pages[f] && i < curr.Length && curr[i] == 0
      modifies this, curr
      ensures nalloc == |pages| <= NPAGES && Distinct(pages) && table == old(table) && KeepsPages()
      ensures died <==> old(nalloc) == NPAGES
      ensures died ==> trie == old(trie) && Contents() == old(Contents())
      ensures !died ==> trie == Grown(old(trie), place)
      ensures !died ==>
        Contents() == old(Contents())[f := Poked(old(Contents())[f], i, old(nalloc) * 4096 + 1)] + [Zeros()]
    {
      ghost var mem := Contents();
      var frame := AllocPageFrame(place);
      died := frame.OutOfMemory?;
      if !died {
        WriteBesideNew(mem, Zeros(), f, i, frame.ppn * 4096 + 1);
        Link(curr, f, i, frame.ppn);
      }
    }

    /** Node `f` gets a child along the empty entry `i`. */
    method AddChild(curr: array<Word>, ghost f: nat, i: nat) returns (died: bool)
      requires Valid() && f < nalloc && curr == pages[f] && |trie.pos[f].path| < 4 && i < ENTRIES
      requires Under(trie.pos[f], i) !in trie.at
      modifies this, curr
      ensures Valid() && table == old(table)
      ensures died <==> old(nalloc) == NPAGES
      ensures died ==> trie == old(trie)
      ensures !died ==> trie == Grown(old(trie), Under(old(trie).pos[f], i))
      ensures KeepsPages()
    {
      assert curr[..] == Contents()[f];
      FitsNewChild(Contents(), trie, table, f, i, nalloc * 4096 + 1);
      died := AllocInto(curr, f, i, Under(trie.pos[f], i));
    }

    /** One iteration of the loop in `page_walk`, from node `f` along index `i`. */
    method WalkStep(curr: array<Word>, ghost f: nat, i: nat, allocate: bool) returns (r: Walk, ghost g: nat)
      requires Valid() && f < nalloc && curr == pages[f] && |trie.pos[f].path| < 4 && i < ENTRIES
      modifies this, curr
      ensures Valid() && table == old(table)
      ensures KeepsPages()
      ensures !allocate ==> trie == old(trie)
      ensures r.NoMapping? <==> !allocate && Under(old(trie).pos[f], i) !in old(trie).at
      ensures r.Died? <==> allocate && Under(old(trie).pos[f], i) !in old(trie).at && old(nalloc) == NPAGES
      ensures r.Node? ==> trie.at.Keys == old(trie).at.Keys + {Under(old(trie).pos[f], i)}
      ensures !r.Node? ==> trie == old(trie)
      ensures r.Node? ==> g < nalloc && r.node == pages[g] && trie.pos[g] == Under(old(trie).pos[f], i)
    {
      EntryNamesChild(Contents(), trie, table, f, i);
      assert curr[i] == Contents()[f][i];
      if curr[i] % 2 == 0 {
        if !allocate {
          return NoMapping, 0;
        }
        var died := AddChild(curr, f, i);
        if died {
          return Died, 0;
        }
      }
      EntryNamesChild(Contents(), trie, table, f, i);
      assert curr[i] == Contents()[f][i];
      var node := Follow(curr[i] / 4096);
      return Node(node), curr[i] / 4096;
    }

    /** The walk to `q` has reached the node at depth `d`, having added the nodes missing on its way to `keys`. */
    ghost predicate Reached(node: array<Word>, f: nat, q: Place, d: nat, keys: set<Place>)
      reads this
    {
      && d <= |q.path|
      && f < |pages| && node == pages[f] && f < |trie.pos| && trie.pos[f] == Above(q, d)
      && trie.at.Keys == keys + Taken(q, d)
    }

    /** Why a walk to `q` stopped early. */
    ghost predicate Stopped(r: Walk, q: Place, allocate: bool, keys: set<Place>)
      requires |q.path| == 5
      reads this
    {
      && (r.NoMapping? ==> !allocate && Above(q, 4) !in trie.at)
      && (r.Died? ==> allocate && |keys + Taken(q, 4)| > NPAGES)
    }

    method WalkLevel(curr: array<Word>, vpn: Word, i: nat, allocate: bool,
                     ghost f: nat, ghost q: Place, ghost d: nat, ghost keys: set<Place>)
      returns (r: Walk, ghost g: nat)
      requires Valid() && |q.path| == 5 && i == d + 1 <= 4 && q.path[d] == Index(vpn, i) && Reached(curr, f, q, d, keys)
      modifies this, curr
      ensures Valid() && table == old(table) && (!allocate ==> trie == old(trie))
      ensures KeepsPages()
      ensures if r.Node? then Reached(r.node, g, q, i, keys) else Stopped(r, q, allocate, keys)
    {
      WalkDown(q, d, i);
      TakenStep(keys, q, d, i);
      ghost var before := trie;
      r, g := WalkStep(curr, f, Index(vpn, i), allocate);
      if r.Died? {
        assert |before.at.Keys| == NPAGES;
        TooManyNodes(keys, q, d, i);
      }
      AncestorsExist(nalloc, trie.pos, trie.at, Above(q, 4), i);
    }

    /** `page_walk`: every iteration keeps the memory sound. An allocating walk adds exactly the missing nodes
        on its way, and ends the process just when there are not enough frames for them. */
    method PageWalk(base: array<Word>, vpn: Word, allocate: bool, ghost q: Place) returns (r: Walk, ghost leaf: nat)
      requires Valid() && IsRoot(q.root) && q.root < |pages| && base == pages[q.root] && |q.path| == 5
      requires forall i :: 1 <= i <= 5 ==> q.path[i - 1] == Index(vpn, i)
      modifies this, pages
      ensures Valid() && table == old(table) && (!allocate ==> trie == old(trie))
      ensures KeepsPages()
      ensures r.Node? ==> Reached(r.node, leaf, q, 4, old(trie).at.Keys)
      ensures !r.Node? ==> Stopped(r, q, allocate, old(trie).at.Keys)
    {
      ghost var keys := trie.at.Keys;
      assert Above(q, 0) == Place(q.root, []) && PlaceOk(trie.pos, trie.at, Place(q.root, []));
      r, leaf := Node(base), q.root;
      var i := 1;
      ghost var depth := 0;
      while i < 5 && r.Node?
        invariant 1 <= i <= 5 && i == depth + 1 && Valid() && table == old(table) && (!allocate ==> trie == old(trie))
        invariant |old(pages)| <= |pages|
        invariant forall k :: 0 <= k < |pages| ==>
          if k < |old(pages)| then pages[k] == old(pages)[k] else fresh(pages[k])
        invariant if r.Node? then Reached(r.node, leaf, q, depth, keys) else Stopped(r, q, allocate, keys)
      {
        ghost var was := pages;
        r, leaf := WalkLevel(r.node, vpn, i, allocate, leaf, q, depth, keys);
        forall k | 0 <= k < |pages|
          ensures if k < |old(pages)| then pages[k] == old(pages)[k] else fresh(pages[k])
        {
          assert k < |was| ==> pages[k] == was[k];
        }
        depth := i;
        i := i + 1;
      }
    }

    /** The root node of a table. */
    method BaseNode(pt: nat) returns (base: array<Word>)
      requires Valid() && IsRoot(pt)
      ensures pt < |pages| && base == pages[pt]
    {
      assert PlaceOk(trie.pos, trie.at, Place(pt, []));
      base := Follow(pt);
    }

    method WriteLeaf(node: array<Word>, ghost f: nat, pt: nat, vpn: Word, ppn: Word)
      requires Valid() && f < |pages| && node == pages[f] && trie.pos[f] == Above(Place(pt, Slices(vpn)), 4)
      modifies `table, node
      ensures Valid() && table == Updated(old(table), pt, vpn, ppn)
    {
      ghost var mem := Contents();
      ghost var w := if ppn == NO_MAPPING then 0 else ppn % PPN_SPAN * 4096 + 1;
      FitsUpdate(mem, trie, table, f, Index(vpn, 5), pt, vpn, ppn, w);
      assert node[..] == mem[f] && node.Length == ENTRIES;
      StoreLeaf(node, Index(vpn, 5), ppn);
      assert node[..] == Poked(mem[f], Index(vpn, 5), w);
      assert Contents() == mem[f := Poked(mem[f], Index(vpn, 5), w)];
      table := Updated(table, pt, vpn, ppn);
    }

    /** The walk that update and query begin with. */
    method Locate(pt: nat, vpn: Word, allocate: bool) returns (r: Walk, ghost leaf: nat)
      requires Valid() && IsRoot(pt)
      modifies this, pages
      ensures Valid() && table == old(table) && (!allocate ==> trie == old(trie))
      ensures r.Died? <==> allocate && |old(trie).at.Keys + Taken(Place(pt, Slices(vpn)), 4)| > NPAGES
      ensures r.NoMapping? ==> !allocate && Above(Place(pt, Slices(vpn)), 4) !in trie.at
      ensures r.Node? ==> leaf < |pages| && r.node == pages[leaf] && trie.pos[leaf] == Above(Place(pt, Slices(vpn)), 4)
      ensures r.Node? && allocate ==> trie.at.Keys == old(trie).at.Keys + Taken(Place(pt, Slices(vpn)), 4)
      ensures KeepsPages()
    {
      var base := BaseNode(pt);
      r, leaf := PageWalk(base, vpn, allocate, Place(pt, Slices(vpn)));
      FitsCount(Contents(), trie, table);
    }

    /** The body of `page_table_update`. */
    method UpdateMapping(pt: nat, vpn: Word, ppn: Word) returns (died: bool)
      requires Valid() && IsRoot(pt)
      modifies this, pages
      ensures died <==> ppn != NO_MAPPING && |old(trie).at.Keys + Taken(Place(pt, Slices(vpn)), 4)| > NPAGES
      ensures Valid() && (!died ==> table == Updated(old(table), pt, vpn, ppn))
      ensures ppn == NO_MAPPING ==> trie == old(trie)
      ensures ppn != NO_MAPPING && !died ==> trie.at.Keys == old(trie).at.Keys + Taken(Place(pt, Slices(vpn)), 4)
      ensures KeepsPages()
    {
      var walk, leaf := Locate(pt, vpn, ppn != NO_MAPPING);
      if walk.NoMapping? {
        UnreachedIsUnmapped(trie.at, table, pt, vpn);
      } else if walk.Node? {
        WriteLeaf(walk.node, leaf, pt, vpn, ppn);
      }
      died := walk.Died?;
    }

    /** `page_table_update`: the mapping changes as `Updated` says. A mapping update ends the process just when
        the frames do not suffice for the missing nodes, and takes at most four; it takes none just when it unmaps or
        the node for its 36-bit prefix exists. */
    method PageTableUpdate(pt: nat, vpn: Word, ppn: Word) returns (died: bool)
      requires Valid() && IsRoot(pt)
      modifies this, pages
      ensures died <==> ppn != NO_MAPPING && |old(trie).at.Keys + Taken(Place(pt, Slices(vpn)), 4)| > NPAGES
      ensures Valid() && (!died ==> table == Updated(old(table), pt, vpn, ppn))
      ensures ppn == NO_MAPPING ==> trie == old(trie)
      ensures ppn != NO_MAPPING && !died ==> trie.at.Keys == old(trie).at.Keys + Taken(Place(pt, Slices(vpn)), 4)
      ensures !died ==> old(nalloc) <= nalloc <= old(nalloc) + 4
      ensures !died ==>
        (nalloc == old(nalloc) <==> ppn == NO_MAPPING || Above(Place(pt, Slices(vpn)), 4) in old(trie).at)
      ensures KeepsPages()
    {
      FramesPerUpdate(nalloc, trie.pos, trie.at, Place(pt, Slices(vpn)));
      died := UpdateMapping(pt, vpn, ppn);
      FramesAreNodes();
    }

    /** `page_table_query`: answers from the mapping and changes nothing. */
    method PageTableQuery(pt: nat, vpn: Word) returns (r: Word)
      requires Valid() && IsRoot(pt)
      modifies this, pages
      ensures r == Lookup(table, pt, vpn)
      ensures Valid() && trie == old(trie) && table == old(table) && Contents() == old(Contents())
      ensures KeepsPages()
    {
      ghost var mem := Contents();
      var walk, leaf := Locate(pt, vpn, false);
      FitsUnique(mem, Contents(), trie, table);
      if walk.Node? {
        r := ReadLeaf(walk.node, leaf, pt, vpn);
      } else {
        UnreachedIsUnmapped(trie.at, table, pt, vpn);
        r := NO_MAPPING;
      }
    }

    method ReadLeaf(node: array<Word>, ghost f: nat, pt: nat, vpn: Word) returns (r: Word)
      requires Valid() && f < |pages| && node == pages[f] && trie.pos[f] == Above(Place(pt, Slices(vpn)), 4)
      ensures r == Lookup(table, pt, vpn)
    {
      ghost var q := Place(pt, Slices(vpn));
      assert q.path[..4] + [q.path[4]] == q.path;
      EntryHoldsMapping(Contents(), trie, table, f, Index(vpn, 5));
      var entry := node[Index(vpn, 5)];
      assert entry == Contents()[f][Index(vpn, 5)];
      if entry % 2 == 0 {
        return NO_MAPPING;
      }
      return entry / 4096;
    }

    /** The number of the next frame names no table yet. */
    lemma NextRootIsNew()
      requires Valid()
      ensures RootsBelow(trie.at.Keys, nalloc) && |trie.at.Keys + {Place(nalloc, [])}| == nalloc + 1
    {
      ForestRootsBelow(nalloc, trie.pos, trie.at);
      assert Place(nalloc, []) !in trie.at.Keys;
    }

    /** Every frame handed out is a node of some tree. */
    lemma FramesAreNodes()
      requires Valid()
      ensures nalloc == |trie.at.Keys|
    {
      FitsCount(Contents(), trie, table);
    }
  }
}
