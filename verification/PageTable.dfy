/** The five-level page table of hw1_os/pt.c over the simulated physical memory of hw1_os/os.c. */
module PageTable {
  import opened Words

  const NPAGES := 1024 * 1024
  const ENTRIES := 512                                // PT_ENTRIES_NUM
  const NO_MAPPING: Word := WORD_SPAN - 1             // ~0ULL
  const VPN_SPAN := 0x2000_0000_0000                  // 45 bits
  const PPN_SPAN := 0x10_0000_0000_0000               // 52 bits

  // ---- Index slices ----

  /** `VPN_I(vpn, i)` for levels 1 to 5 */
  function Index(vpn: Word, i: nat): (r: nat)
    requires 1 <= i <= 5
    ensures r < ENTRIES
  {
    match i
    case 1 => (vpn / 0x10_0000_0000) % 512
    case 2 => (vpn / 0x800_0000) % 512
    case 3 => (vpn / 0x4_0000) % 512
    case 4 => (vpn / 512) % 512
    case _ => vpn % 512
  }

  function Slices(vpn: Word): (r: seq<nat>)
    ensures |r| == 5
  {
    [Index(vpn, 1), Index(vpn, 2), Index(vpn, 3), Index(vpn, 4), Index(vpn, 5)]
  }

  /** The slices are the base-512 digits of the low 45 bits. */
  lemma SlicesAreDigits(vpn: Word)
    ensures var s := Slices(vpn);
      vpn % VPN_SPAN == s[0] * 0x10_0000_0000 + s[1] * 0x800_0000 + s[2] * 0x4_0000 + s[3] * 512 + s[4]
  {
    var q1 := vpn / 512;
    var q2, q3 := q1 / 512, vpn / 0x800_0000;
    assert q2 == vpn / 0x4_0000;
    assert q3 == q2 / 512;
    var q4 := q3 / 512;
    assert q4 == vpn / 0x10_0000_0000;
    var q5 := q4 / 512;
    assert q5 == vpn / VPN_SPAN;
  }

  /** Two page numbers share all slices just when they agree on their low 45 bits. */
  lemma SlicesInjective(v: Word, w: Word)
    ensures Slices(v) == Slices(w) <==> v % VPN_SPAN == w % VPN_SPAN
  {
    SlicesAreDigits(v);
    SlicesAreDigits(w);
    if v % VPN_SPAN == w % VPN_SPAN {
      DigitsUnique(v, w);
    }
  }

  lemma LastDigit(a: nat, b: nat, c: nat, d: nat)
    requires b < 512 && d < 512 && a * 512 + b == c * 512 + d
    ensures a == c && b == d
  {
  }

  lemma DigitsUnique(v: Word, w: Word)
    requires v % VPN_SPAN == w % VPN_SPAN
    ensures Slices(v) == Slices(w)
  {
    SlicesAreDigits(v);
    SlicesAreDigits(w);
    var s, t := Slices(v), Slices(w);
    LastDigit(((s[0] * 512 + s[1]) * 512 + s[2]) * 512 + s[3], s[4],
              ((t[0] * 512 + t[1]) * 512 + t[2]) * 512 + t[3], t[4]);
    LastDigit((s[0] * 512 + s[1]) * 512 + s[2], s[3], (t[0] * 512 + t[1]) * 512 + t[2], t[3]);
    LastDigit(s[0] * 512 + s[1], s[2], t[0] * 512 + t[1], t[2]);
    LastDigit(s[0], s[1], t[0], t[1]);
  }

  // ---- Where frames sit ----

  /** The node reached from root frame `root` by the index slices `path`. */
  datatype Place = Place(root: nat, path: seq<nat>)

  function Under(p: Place, i: nat): Place {
    Place(p.root, p.path + [i])
  }

  function Above(p: Place, k: nat): Place
    requires k <= |p.path|
  {
    Place(p.root, p.path[..k])
  }

  /** Level `i` of a walk to `q` goes from the node at depth `i - 1` to the node at depth `i`. */
  lemma WalkDown(q: Place, d: nat, i: nat)
    requires i == d + 1 <= 4 < |q.path|
    ensures Under(Above(q, d), q.path[d]) == Above(q, i) == Above(Above(q, 4), i)
  {
    assert q.path[..d] + [q.path[d]] == q.path[..i];
  }

  /** Every allocated frame has exactly one place, at depth at most four; a root sits at the empty path of
      its own tree, and every other frame below a frame of the same tree. */
  ghost predicate Forest(n: nat, pos: seq<Place>, at: map<Place, nat>) {
    && |pos| == n && |at| == n
    && (forall f :: 0 <= f < n ==> pos[f] in at && at[pos[f]] == f && |pos[f].path| <= 4)
    && (forall p {:trigger PlaceOk(pos, at, p)} :: p in at ==> PlaceOk(pos, at, p))
  }

  ghost predicate PlaceOk(pos: seq<Place>, at: map<Place, nat>, p: Place) {
    && p in at && at[p] < |pos| && pos[at[p]] == p
    && (forall k :: 0 <= k <= |p.path| ==> Above(p, k) in at)
    && (p.path == [] ==> at[p] == p.root)
  }

  /** Above every node there are nodes up to its root. */
  lemma AncestorsExist(n: nat, pos: seq<Place>, at: map<Place, nat>, p: Place, k: nat)
    requires Forest(n, pos, at) && k <= |p.path|
    ensures p in at ==> Above(p, k) in at
  {
    if p in at { assert PlaceOk(pos, at, p); }
  }

  lemma ForestGrows(n: nat, pos: seq<Place>, at: map<Place, nat>, q: Place)
    requires Forest(n, pos, at) && q !in at && |q.path| <= 4
    requires if q.path == [] then q.root == n else Above(q, |q.path| - 1) in at
    ensures Forest(n + 1, pos + [q], at[q := n])
  {
    var pos', at' := pos + [q], at[q := n];
    forall p | p in at'
      ensures PlaceOk(pos', at', p)
    {
      if p != q {
        assert PlaceOk(pos, at, p);
      } else {
        forall k | 0 <= k <= |q.path|
          ensures Above(q, k) in at'
        {
          NewPlaceBelow(pos, at, q, n, k);
        }
      }
    }
  }

  lemma NewPlaceBelow(pos: seq<Place>, at: map<Place, nat>, q: Place, n: nat, k: nat)
    requires Forest(n, pos, at) && (q.path == [] || Above(q, |q.path| - 1) in at) && k <= |q.path|
    ensures Above(q, k) in at || Above(q, k) == q
  {
    if k < |q.path| {
      AncestorsExist(n, pos, at, Above(q, |q.path| - 1), k);
      assert Above(q, k) == Above(Above(q, |q.path| - 1), k);
    } else {
      assert Above(q, k) == q;
    }
  }

  /** What the word at index `i` of the node at `p` must be: zero, or a frame number and the valid bit.
      Above the last level the frame is the child node's, at the last level the mapped page's. */
  ghost function Entry(at: map<Place, nat>, table: map<Place, nat>, p: Place, i: nat): nat {
    var q := Under(p, i);
    if |p.path| < 4 then (if q in at then at[q] * 4096 + 1 else 0)
    else if q in table then table[q] * 4096 + 1 else 0
  }

  ghost predicate TableOk(at: map<Place, nat>, table: map<Place, nat>) {
    forall q :: q in table ==> |q.path| == 5 && table[q] < PPN_SPAN && Above(q, 4) in at
  }

  /** A new node is empty, and no other node's entries change but the one that will point to it. */
  lemma EntriesAfterGrowth(n: nat, pos: seq<Place>, at: map<Place, nat>, table: map<Place, nat>, q: Place, p: Place,
                           i: nat)
    requires Forest(n, pos, at) && TableOk(at, table) && q !in at && |q.path| <= 4
    ensures p == q ==> Entry(at[q := n], table, p, i) == 0
    ensures p in at && Under(p, i) != q ==> Entry(at[q := n], table, p, i) == Entry(at, table, p, i)
  {
    if p == q {
      var c := Under(q, i);
      assert Above(c, |q.path|) == q;
      AncestorsExist(n, pos, at, c, |q.path|);
      assert c !in at && c != q;
      assert |q.path| == 4 ==> c !in table;
    }
  }

  // ---- Memory images ----

  function Zeros(): (z: seq<Word>)
    ensures |z| == ENTRIES && forall i :: 0 <= i < ENTRIES ==> z[i] == 0
  {
    seq(ENTRIES, _ => 0)
  }

  /** `row` with word `j` overwritten. */
  function Poked(row: seq<Word>, j: nat, w: Word): (r: seq<Word>)
    ensures |r| == |row| && forall i :: 0 <= i < |row| ==> r[i] == if i == j then w else row[i]
  {
    seq(|row|, i requires 0 <= i < |row| => if i == j then w else row[i])
  }

  /** The words of all frames are those that the forest and the mapping prescribe; in particular every
      entry without the valid bit is zero. */
  ghost predicate Image(mem: seq<seq<Word>>, pos: seq<Place>, at: map<Place, nat>, table: map<Place, nat>) {
    && |mem| == |pos|
    && (forall f :: 0 <= f < |mem| ==> |mem[f]| == ENTRIES)
    && (forall f, i :: 0 <= f < |mem| && 0 <= i < ENTRIES ==> WordOk(mem, pos, at, table, f, i))
  }

  ghost predicate WordOk(mem: seq<seq<Word>>, pos: seq<Place>, at: map<Place, nat>, table: map<Place, nat>, f: nat,
                         i: nat) {
    f < |mem| == |pos| && i < |mem[f]| && mem[f][i] == Entry(at, table, pos[f], i)
  }

  /** Frame positions and, inversely, the frame at a position. */
  datatype Trie = Trie(pos: seq<Place>, at: map<Place, nat>)

  /** The memory holds the trie and the mapping. */
  ghost predicate Fits(mem: seq<seq<Word>>, trie: Trie, table: map<Place, nat>) {
    Forest(|mem|, trie.pos, trie.at) && TableOk(trie.at, table) && Image(mem, trie.pos, trie.at, table)
  }

  function Grown(trie: Trie, q: Place): Trie {
    Trie(trie.pos + [q], trie.at[q := |trie.pos|])
  }

  lemma FitsNewRoot(mem: seq<seq<Word>>, trie: Trie, table: map<Place, nat>)
    requires Fits(mem, trie, table)
    ensures Fits(mem + [Zeros()], Grown(trie, Place(|mem|, [])), table)
    ensures Place(|mem|, []) !in trie.at && forall q :: q in table ==> q.root != |mem|
  {
    var n, q := |mem|, Place(|mem|, []);
    ForestRootsBelow(n, trie.pos, trie.at);
    ForestGrows(n, trie.pos, trie.at, q);
    var mem', trie' := mem + [Zeros()], Grown(trie, q);
    forall f, i | 0 <= f < |mem'| && 0 <= i < ENTRIES ensures WordOk(mem', trie'.pos, trie'.at, table, f, i) {
      if f < n { assert WordOk(mem, trie.pos, trie.at, table, f, i); }
      EntriesAfterGrowth(n, trie.pos, trie.at, table, q, trie'.pos[f], i);
    }
    forall p | p in table ensures p.root != n {
      assert Above(p, 4).root < n;
    }
  }

  /** Node `f` gets a new child at index `j`: its entry, which was zero, receives the new frame and the valid bit. */
  lemma FitsNewChild(mem: seq<seq<Word>>, trie: Trie, table: map<Place, nat>, f: nat, j: nat, w: Word)
    requires Fits(mem, trie, table)
    requires f < |mem| && j < ENTRIES && |trie.pos[f].path| < 4 && Under(trie.pos[f], j) !in trie.at
    requires w == |mem| * 4096 + 1
    ensures mem[f][j] == 0
    ensures Fits(mem[f := Poked(mem[f], j, w)] + [Zeros()], Grown(trie, Under(trie.pos[f], j)), table)
  {
    var n, q := |mem|, Under(trie.pos[f], j);
    assert Above(q, |q.path| - 1) == trie.pos[f];
    assert WordOk(mem, trie.pos, trie.at, table, f, j);
    ForestGrows(n, trie.pos, trie.at, q);
    var mem', trie' := mem[f := Poked(mem[f], j, w)] + [Zeros()], Grown(trie, q);
    forall g, i | 0 <= g < |mem'| && 0 <= i < ENTRIES ensures WordOk(mem', trie'.pos, trie'.at, table, g, i) {
      if g < n { assert WordOk(mem, trie.pos, trie.at, table, g, i); }
      EntriesAfterGrowth(n, trie.pos, trie.at, table, q, trie'.pos[g], i);
      if g < n && Under(trie.pos[g], i) == q {
        assert trie.pos[g] == Above(q, |q.path| - 1) && i == q.path[|q.path| - 1];
        assert g == f && i == j;
      }
    }
  }

  /** The last-level entry for one page is rewritten. */
  lemma FitsRemap(mem: seq<seq<Word>>, trie: Trie, table: map<Place, nat>, f: nat, j: nat, table': map<Place, nat>,
                  w: Word)
    requires Fits(mem, trie, table) && f < |mem| && j < ENTRIES && |trie.pos[f].path| == 4
    requires var q := Under(trie.pos[f], j);
      && (forall p :: p != q ==> (p in table' <==> p in table) && (p in table ==> table'[p] == table[p]))
      && (q in table' ==> table'[q] < PPN_SPAN)
      && w == if q in table' then table'[q] * 4096 + 1 else 0
    ensures Fits(mem[f := Poked(mem[f], j, w)], trie, table')
  {
    var pos, q := trie.pos, Under(trie.pos[f], j);
    assert Above(q, 4) == pos[f];
    var mem' := mem[f := Poked(mem[f], j, w)];
    forall g, i | 0 <= g < |mem'| && 0 <= i < ENTRIES ensures WordOk(mem', pos, trie.at, table', g, i) {
      assert WordOk(mem, pos, trie.at, table, g, i);
      if Under(pos[g], i) == q {
        assert pos[g].path == (pos[g].path + [i])[..4] && i == (pos[g].path + [i])[4];
        assert pos[g] == pos[f] && i == j;
      }
    }
  }

  lemma Unpack(frame: nat, e: nat)
    requires e == frame * 4096 + 1
    ensures e / 4096 == frame
  {
  }

  lemma UnpackValid(frame: nat, e: nat)
    requires e == frame * 4096 + 1
    ensures e % 2 == 1
  {
    OddRemainder(frame * 2048, e);
  }

  lemma OddRemainder(half: nat, e: nat)
    requires e == 2 * half + 1
    ensures e % 2 == 1
  {
  }

  lemma FitsCount(mem: seq<seq<Word>>, trie: Trie, table: map<Place, nat>)
    requires Fits(mem, trie, table)
    ensures |trie.at.Keys| == |mem|
  {
  }

  /** Above the last level an entry tells exactly whether there is a child and which frame it is. */
  lemma EntryNamesChild(mem: seq<seq<Word>>, trie: Trie, table: map<Place, nat>, f: nat, i: nat)
    requires Fits(mem, trie, table) && f < |mem| && i < ENTRIES && |trie.pos[f].path| < 4
    ensures var q, e := Under(trie.pos[f], i), mem[f][i];
      && (e % 2 == 1 <==> q in trie.at)
      && (e % 2 == 1 ==> e / 4096 < |mem| && trie.pos[e / 4096] == q)
  {
    var q := Under(trie.pos[f], i);
    assert WordOk(mem, trie.pos, trie.at, table, f, i);
    if q in trie.at {
      assert PlaceOk(trie.pos, trie.at, q);
      Unpack(trie.at[q], mem[f][i]);
      UnpackValid(trie.at[q], mem[f][i]);
    }
  }

  /** Above the last level an entry without the valid bit is zero; no frame is named by two entries, and a named
      frame is no root and sits one level below. */
  lemma NoFrameHasTwoParents(mem: seq<seq<Word>>, trie: Trie, table: map<Place, nat>, f: nat, i: nat, g: nat, j: nat)
    requires Fits(mem, trie, table) && f < |mem| && g < |mem| && i < ENTRIES && j < ENTRIES
    requires |trie.pos[f].path| < 4 && |trie.pos[g].path| < 4
    ensures mem[f][i] % 2 == 0 ==> mem[f][i] == 0
    ensures mem[f][i] % 2 == 1 ==>
      var child := mem[f][i] / 4096; child < |mem| && |trie.pos[child].path| == |trie.pos[f].path| + 1
    ensures mem[f][i] % 2 == 1 && mem[g][j] % 2 == 1 && mem[f][i] / 4096 == mem[g][j] / 4096 ==> f == g && i == j
  {
    EntryNamesChild(mem, trie, table, f, i);
    EntryNamesChild(mem, trie, table, g, j);
    assert WordOk(mem, trie.pos, trie.at, table, f, i);
    if Under(trie.pos[f], i) == Under(trie.pos[g], j) {
      var p, q := trie.pos[f].path + [i], trie.pos[g].path + [j];
      assert p[..|p| - 1] == trie.pos[f].path && q[..|q| - 1] == trie.pos[g].path;
      assert p[|p| - 1] == i && q[|q| - 1] == j;
    }
  }

  /** At the last level an entry holds the mapping of its page. */
  lemma EntryHoldsMapping(mem: seq<seq<Word>>, trie: Trie, table: map<Place, nat>, f: nat, i: nat)
    requires Fits(mem, trie, table) && f < |mem| && i < ENTRIES && |trie.pos[f].path| == 4
    ensures var q, e := Under(trie.pos[f], i), mem[f][i];
      (e % 2 == 1 <==> q in table) && (e % 2 == 1 ==> e / 4096 == table[q])
  {
    var q := Under(trie.pos[f], i);
    assert WordOk(mem, trie.pos, trie.at, table, f, i);
    if q in table {
      Unpack(table[q], mem[f][i]);
      UnpackValid(table[q], mem[f][i]);
    }
  }

  /** Equal tries and mappings mean equal memories. */
  lemma FitsUnique(a: seq<seq<Word>>, b: seq<seq<Word>>, trie: Trie, table: map<Place, nat>)
    requires Fits(a, trie, table) && Fits(b, trie, table)
    ensures a == b
  {
    forall f | 0 <= f < |a| ensures a[f] == b[f] {
      forall i | 0 <= i < ENTRIES ensures a[f][i] == b[f][i] {
        assert WordOk(a, trie.pos, trie.at, table, f, i) && WordOk(b, trie.pos, trie.at, table, f, i);
      }
    }
  }

  // ---- Frame accounting ----

  /** The nodes on the way to `q` down to depth `k`, without the root. */
  ghost function Taken(q: Place, k: nat): set<Place>
    requires k <= |q.path|
  {
    if k == 0 then {} else Taken(q, k - 1) + {Above(q, k)}
  }

  lemma {:induction false} TakenGrows(q: Place, j: nat, k: nat)
    requires j <= k <= |q.path|
    ensures Taken(q, j) <= Taken(q, k)
    ensures 0 < j ==> Above(q, j) in Taken(q, k)
  {
    if j < k {
      TakenGrows(q, j, k - 1);
    }
  }

  lemma TakenStep(keys: set<Place>, q: Place, d: nat, i: nat)
    requires i == d + 1 <= |q.path|
    ensures keys + Taken(q, d) + {Above(q, i)} == keys + Taken(q, i)
  {
  }

  /** A walk that needs one more frame than there are could not have succeeded. */
  lemma TooManyNodes(keys: set<Place>, q: Place, d: nat, i: nat)
    requires |q.path| == 5 && i == d + 1 <= 4 && Above(q, i) !in keys + Taken(q, d)
    ensures |keys + Taken(q, 4)| > |keys + Taken(q, d)|
  {
    TakenGrows(q, d, 4);
    TakenGrows(q, i, 4);
    var a, b := keys + Taken(q, d), keys + Taken(q, 4);
    assert b == a + (b - a) && Above(q, i) in b - a;
    assert |b| == |a| + |b - a|;
  }

  /** A mapping update needs at most four frames, and none when the node for its 36-bit prefix exists. */
  lemma FramesPerUpdate(n: nat, pos: seq<Place>, at: map<Place, nat>, q: Place)
    requires Forest(n, pos, at) && |q.path| == 5
    ensures n <= |at.Keys + Taken(q, 4)| <= n + 4
    ensures |at.Keys + Taken(q, 4)| == n <==> Above(q, 4) in at
  {
    var more := Taken(q, 4) - at.Keys;
    UnionSize(at.Keys, Taken(q, 4));
    FourAtMost(q, more);
    TakenGrows(q, 4, 4);
    if Above(q, 4) in at {
      ReachedNeedsNothing(n, pos, at, q);
    } else {
      assert Above(q, 4) in more;
    }
  }

  lemma UnionSize(a: set<Place>, b: set<Place>)
    ensures |a + b| == |a| + |b - a|
  {
    assert a + b == a + (b - a);
  }

  lemma FourAtMost(q: Place, s: set<Place>)
    requires |q.path| == 5 && s <= Taken(q, 4)
    ensures |s| <= 4
  {
    FourTaken(q);
    AtMost(s, [Above(q, 1), Above(q, 2), Above(q, 3), Above(q, 4)]);
  }

  lemma ReachedNeedsNothing(n: nat, pos: seq<Place>, at: map<Place, nat>, q: Place)
    requires Forest(n, pos, at) && |q.path| == 5 && Above(q, 4) in at
    ensures Taken(q, 4) - at.Keys == {}
  {
    FourTaken(q);
    forall k | 1 <= k <= 4 ensures Above(q, k) in at {
      AncestorsExist(n, pos, at, Above(q, 4), k);
      assert Above(Above(q, 4), k) == Above(q, k);
    }
  }

  lemma {:induction false} AtMost(s: set<Place>, list: seq<Place>)
    requires forall p :: p in s ==> p in list
    ensures |s| <= |list|
  {
    if list != [] {
      var last := list[|list| - 1];
      AtMost(s - {last}, list[..|list| - 1]);
      assert |s| <= |s - {last}| + 1;
    }
  }

  ghost function RootPlaces(roots: set<nat>): set<Place> {
    set r | r in roots :: Place(r, [])
  }

  /** The distinct first-`k`-slices prefixes among the pages ever mapped. */
  ghost function PrefixesAt(ever: set<Place>, k: nat): set<Place>
    requires forall q :: q in ever ==> |q.path| == 5
    requires k <= 5
  {
    set q | q in ever :: Above(q, k)
  }

  /** The roots, and below them down to depth `k` the places on the way to a page ever mapped. */
  ghost function FramePlaces(roots: set<nat>, ever: set<Place>, k: nat): set<Place>
    requires forall q :: q in ever ==> |q.path| == 5
    requires k <= 5
  {
    if k == 0 then RootPlaces(roots) else FramePlaces(roots, ever, k - 1) + PrefixesAt(ever, k)
  }

  ghost predicate Accounted(keys: set<Place>, roots: set<nat>, ever: set<Place>) {
    (forall q :: q in ever ==> |q.path| == 5) && keys == FramePlaces(roots, ever, 4)
  }

  lemma PrefixesGrow(ever: set<Place>, q: Place, k: nat)
    requires (forall p :: p in ever ==> |p.path| == 5) && |q.path| == 5 && k <= 5
    ensures PrefixesAt(ever + {q}, k) == PrefixesAt(ever, k) + {Above(q, k)}
  {
  }

  lemma FourTaken(q: Place)
    requires |q.path| == 5
    ensures Taken(q, 4) == {Above(q, 1), Above(q, 2), Above(q, 3), Above(q, 4)}
  {
    assert Taken(q, 0) == {};
    assert Taken(q, 1) == {Above(q, 1)};
    assert Taken(q, 2) == {Above(q, 1), Above(q, 2)};
    assert Taken(q, 3) == {Above(q, 1), Above(q, 2), Above(q, 3)};
  }

  lemma {:induction false} PlacesGrow(roots: set<nat>, ever: set<Place>, q: Place, k: nat)
    requires (forall p :: p in ever ==> |p.path| == 5) && |q.path| == 5 && k <= 5
    ensures FramePlaces(roots, ever + {q}, k) == FramePlaces(roots, ever, k) + Taken(q, k)
  {
    if k > 0 {
      PlacesGrow(roots, ever, q, k - 1);
      PrefixesGrow(ever, q, k);
    }
  }

  lemma AccountedGrows(keys: set<Place>, roots: set<nat>, ever: set<Place>, q: Place)
    requires Accounted(keys, roots, ever) && |q.path| == 5
    ensures Accounted(keys + Taken(q, 4), roots, ever + {q})
  {
    PlacesGrow(roots, ever, q, 4);
  }

  lemma {:induction false} PlacesNewRoot(roots: set<nat>, ever: set<Place>, r: nat, k: nat)
    requires (forall p :: p in ever ==> |p.path| == 5) && k <= 5
    ensures FramePlaces(roots + {r}, ever, k) == FramePlaces(roots, ever, k) + {Place(r, [])}
  {
    if k > 0 { PlacesNewRoot(roots, ever, r, k - 1); }
  }

  lemma {:induction false} RootsAreNodes(roots: set<nat>, ever: set<Place>, r: nat, k: nat)
    requires (forall p :: p in ever ==> |p.path| == 5) && k <= 5 && r in roots
    ensures Place(r, []) in FramePlaces(roots, ever, k)
  {
    if k > 0 { RootsAreNodes(roots, ever, r, k - 1); }
  }

  /** A frame that is no node yet is no root either. */
  lemma NewRootIsNew(keys: set<Place>, roots: set<nat>, ever: set<Place>, r: nat)
    requires Accounted(keys, roots, ever) && Place(r, []) !in keys
    ensures r !in roots && |roots + {r}| == |roots| + 1
  {
    if r in roots { RootsAreNodes(roots, ever, r, 4); }
  }

  lemma AccountedNewRoot(keys: set<Place>, roots: set<nat>, ever: set<Place>, r: nat)
    requires Accounted(keys, roots, ever)
    ensures Accounted(keys + {Place(r, [])}, roots + {r}, ever)
  {
    PlacesNewRoot(roots, ever, r, 4);
  }

  lemma {:induction false} RootPlacesSize(roots: set<nat>)
    ensures |RootPlaces(roots)| == |roots|
  {
    if roots != {} {
      var r :| r in roots;
      RootPlacesSize(roots - {r});
      assert RootPlaces(roots) == RootPlaces(roots - {r}) + {Place(r, [])};
    }
  }

  ghost predicate Shallower(s: set<Place>, k: nat) {
    forall p :: p in s ==> |p.path| < k
  }

  lemma LevelAdds(s: set<Place>, ever: set<Place>, k: nat)
    requires (forall q :: q in ever ==> |q.path| == 5) && k <= 5 && Shallower(s, k)
    ensures |s + PrefixesAt(ever, k)| == |s| + |PrefixesAt(ever, k)|
    ensures Shallower(s + PrefixesAt(ever, k), k + 1)
  {
    assert s !! PrefixesAt(ever, k);
  }

  ghost function CountPrefixes(ever: set<Place>, k: nat): nat
    requires forall q :: q in ever ==> |q.path| == 5
    requires k <= 5
  {
    if k == 0 then 0 else CountPrefixes(ever, k - 1) + |PrefixesAt(ever, k)|
  }

  lemma {:induction false} PlacesSize(roots: set<nat>, ever: set<Place>, k: nat)
    requires (forall p :: p in ever ==> |p.path| == 5) && k <= 5
    ensures |FramePlaces(roots, ever, k)| == |roots| + CountPrefixes(ever, k)
    ensures Shallower(FramePlaces(roots, ever, k), k + 1)
  {
    if k == 0 {
      RootPlacesSize(roots);
    } else {
      PlacesSize(roots, ever, k - 1);
      LevelAdds(FramePlaces(roots, ever, k - 1), ever, k);
    }
  }

  /** The allocated frames are the roots and, level by level, one per distinct prefix ever mapped. */
  lemma FrameCount(keys: set<Place>, roots: set<nat>, ever: set<Place>)
    requires Accounted(keys, roots, ever)
    ensures |keys| == |roots| + |PrefixesAt(ever, 1)| + |PrefixesAt(ever, 2)|
                    + |PrefixesAt(ever, 3)| + |PrefixesAt(ever, 4)|
  {
    PlacesSize(roots, ever, 4);
    assert CountPrefixes(ever, 0) == 0;
    assert CountPrefixes(ever, 1) == |PrefixesAt(ever, 1)|;
    assert CountPrefixes(ever, 3) == CountPrefixes(ever, 2) + |PrefixesAt(ever, 3)|;
  }

  // ---- The mapping ----

  /** What a query must answer: the specification of a page table is this map. */
  function Lookup(table: map<Place, nat>, pt: nat, vpn: Word): nat {
    var q := Place(pt, Slices(vpn));
    if q in table then table[q] else NO_MAPPING
  }

  /** What an update must do to the map. A page number keeps its low 52 bits. */
  function Updated(table: map<Place, nat>, pt: nat, vpn: Word, ppn: Word): map<Place, nat> {
    var q := Place(pt, Slices(vpn));
    if ppn == NO_MAPPING then table - {q} else table[q := ppn % PPN_SPAN]
  }

  /** What the last-level entry becomes is what the updated map prescribes. */
  lemma FitsUpdate(mem: seq<seq<Word>>, trie: Trie, table: map<Place, nat>, f: nat, j: nat, pt: nat, vpn: Word,
                   ppn: Word, w: Word)
    requires Fits(mem, trie, table) && f < |mem| && j < ENTRIES
    requires var q := Place(pt, Slices(vpn)); trie.pos[f] == Above(q, 4) && j == q.path[4]
    requires w == if ppn == NO_MAPPING then 0 else ppn % PPN_SPAN * 4096 + 1
    ensures Fits(mem[f := Poked(mem[f], j, w)], trie, Updated(table, pt, vpn, ppn))
  {
    var q := Place(pt, Slices(vpn));
    assert q.path[..4] + [q.path[4]] == q.path;
    assert Under(trie.pos[f], j) == q;
    FitsRemap(mem, trie, table, f, j, Updated(table, pt, vpn, ppn), w);
  }

  /** Without a node for it a page is not mapped. */
  lemma UnreachedIsUnmapped(at: map<Place, nat>, table: map<Place, nat>, pt: nat, vpn: Word)
    requires TableOk(at, table) && Above(Place(pt, Slices(vpn)), 4) !in at
    ensures Place(pt, Slices(vpn)) !in table
    ensures Updated(table, pt, vpn, NO_MAPPING) == table
  {
  }

  /** An update changes the answer for its own table and the low 45 bits of its page number, and no other. */
  lemma UpdateChangesOneAnswer(table: map<Place, nat>, pt: nat, vpn: Word, ppn: Word, pt': nat, vpn': Word)
    ensures Lookup(Updated(table, pt, vpn, ppn), pt', vpn') ==
      if pt' == pt && vpn' % 0x2000_0000_0000 == vpn % 0x2000_0000_0000
      then (if ppn == 0xFFFF_FFFF_FFFF_FFFF then ppn else ppn % 0x10_0000_0000_0000)
      else Lookup(table, pt', vpn')
  {
    SlicesInjective(vpn, vpn');
  }

  /** A use of the memory by its clients. */
  datatype Op = Update(pt: nat, vpn: Word, ppn: Word) | Query(pt: nat, vpn: Word) | Allocate

  /** The answer due to a query after `ops`, given the answer due before them: that of the latest update. */
  function LatestAnswer(ops: seq<Op>, pt: nat, vpn: Word, before: nat): nat {
    if ops == [] then before
    else
      var last, earlier := ops[|ops| - 1], ops[..|ops| - 1];
      if last.Update? && last.pt == pt && last.vpn % VPN_SPAN == vpn % VPN_SPAN
      then (if last.ppn == NO_MAPPING then NO_MAPPING else last.ppn % PPN_SPAN)
      else LatestAnswer(earlier, pt, vpn, before)
  }

  function TableAfter(table: map<Place, nat>, op: Op): map<Place, nat> {
    if op.Update? then Updated(table, op.pt, op.vpn, op.ppn) else table
  }

  lemma OneMoreOp(ops: seq<Op>, i: nat, pt: nat, vpn: Word, before: nat, table: map<Place, nat>)
    requires i < |ops| && Lookup(table, pt, vpn) == LatestAnswer(ops[..i], pt, vpn, before)
    ensures Lookup(TableAfter(table, ops[i]), pt, vpn) == LatestAnswer(ops[..i + 1], pt, vpn, before)
  {
    assert ops[..i + 1][..i] == ops[..i];
    if ops[i].Update? {
      UpdateChangesOneAnswer(table, ops[i].pt, ops[i].vpn, ops[i].ppn, pt, vpn);
    }
  }

  /** The answers given so far are those of the latest updates before each query. */
  ghost predicate AnsweredWell(ops: seq<Op>, answers: seq<nat>, first: map<Place, nat>) {
    && |answers| <= |ops|
    && forall i :: 0 <= i < |answers| && ops[i].Query? ==>
      answers[i] == LatestAnswer(ops[..i], ops[i].pt, ops[i].vpn, Lookup(first, ops[i].pt, ops[i].vpn))
  }

  /** The map is what the first operations make of the initial one. */
  ghost predicate MappedWell(ops: seq<Op>, table: map<Place, nat>, first: map<Place, nat>) {
    forall pt, v: Word :: Lookup(table, pt, v) == LatestAnswer(ops, pt, v, Lookup(first, pt, v))
  }

  lemma RunStep(ops: seq<Op>, answers: seq<nat>, op: Op, answer: nat, table: map<Place, nat>, first: map<Place, nat>)
    requires |answers| == |ops| && AnsweredWell(ops, answers, first) && MappedWell(ops, table, first)
    requires op.Query? ==> answer == Lookup(table, op.pt, op.vpn)
    ensures AnsweredWell(ops + [op], answers + [answer], first)
    ensures MappedWell(ops + [op], TableAfter(table, op), first)
  {
    var n, more := |ops|, ops + [op];
    assert more[..n] == ops && more[..n + 1] == more;
    forall i | 0 <= i < |more| && more[i].Query?
      ensures (answers + [answer])[i]
           == LatestAnswer(more[..i], more[i].pt, more[i].vpn, Lookup(first, more[i].pt, more[i].vpn))
    {
      if i < n {
        assert more[..i] == ops[..i];
      }
    }
    forall pt, v: Word
      ensures Lookup(TableAfter(table, op), pt, v) == LatestAnswer(more, pt, v, Lookup(first, pt, v))
    {
      OneMoreOp(more, n, pt, v, Lookup(first, pt, v), table);
    }
  }

  predicate MapsPage(op: Op, q: Place) {
    op.Update? && op.ppn != NO_MAPPING && q == Place(op.pt, Slices(op.vpn))
  }

  ghost function MappedBy(op: Op): set<Place> {
    if op.Update? && op.ppn != NO_MAPPING then {Place(op.pt, Slices(op.vpn))} else {}
  }

  /** The pages that some operation of a run maps, and the number of bare allocations in it. */
  ghost function MappedPages(ops: seq<Op>): (r: set<Place>)
    ensures forall q :: q in r ==> |q.path| == 5
  {
    if ops == [] then {} else MappedPages(ops[..|ops| - 1]) + MappedBy(ops[|ops| - 1])
  }

  function Allocations(ops: seq<Op>): nat {
    if ops == [] then 0 else Allocations(ops[..|ops| - 1]) + if ops[|ops| - 1].Allocate? then 1 else 0
  }

  lemma {:induction false} MappedPagesAreMapped(ops: seq<Op>, q: Place)
    ensures q in MappedPages(ops) <==> exists i :: 0 <= i < |ops| && MapsPage(ops[i], q)
  {
    if ops != [] {
      var n := |ops| - 1;
      MappedPagesAreMapped(ops[..n], q);
      if q in MappedBy(ops[n]) { assert MapsPage(ops[n], q); }
      if i :| 0 <= i < n && MapsPage(ops[..n][i], q) { assert MapsPage(ops[i], q); }
      if i :| 0 <= i < |ops| && MapsPage(ops[i], q) { assert i < n ==> ops[..n][i] == ops[i]; }
    }
  }

  /** The nodes needed after an operation: a mapping update adds those on the way to its page, a bare allocation a
      root. */
  ghost function NodesAfter(keys: set<Place>, op: Op): set<Place> {
    match op
    case Update(pt, vpn, ppn) => if ppn == NO_MAPPING then keys else keys + Taken(Place(pt, Slices(vpn)), 4)
    case Query(_, _) => keys
    case Allocate => keys + {Place(|keys|, [])}
  }

  ghost function RunNodes(keys: set<Place>, ops: seq<Op>): set<Place> {
    if ops == [] then keys else NodesAfter(RunNodes(keys, ops[..|ops| - 1]), ops[|ops| - 1])
  }

  lemma {:induction false} RunNodesGrow(keys: set<Place>, ops: seq<Op>)
    ensures keys <= RunNodes(keys, ops)
  {
    if ops != [] { RunNodesGrow(keys, ops[..|ops| - 1]); }
  }

  /** What callers owe: updates and queries go through frames allocated as roots, before the run or in it. */
  ghost predicate LegalRun(keys: set<Place>, ops: seq<Op>) {
    forall i :: 0 <= i < |ops| ==> LegalOp(RunNodes(keys, ops[..i]), ops[i])
  }

  ghost predicate LegalOp(keys: set<Place>, op: Op) {
    !op.Allocate? ==> Place(op.pt, []) in keys
  }

  lemma LegalRunEnd(keys: set<Place>, ops: seq<Op>)
    requires LegalRun(keys, ops) && ops != []
    ensures LegalRun(keys, ops[..|ops| - 1]) && LegalOp(RunNodes(keys, ops[..|ops| - 1]), ops[|ops| - 1])
  {
    var n := |ops| - 1;
    forall i | 0 <= i < n
      ensures LegalOp(RunNodes(keys, ops[..n][..i]), ops[..n][i])
    {
      assert ops[..n][..i] == ops[..i];
      assert LegalOp(RunNodes(keys, ops[..i]), ops[i]);
    }
    assert LegalOp(RunNodes(keys, ops[..n]), ops[n]);
  }

  lemma NodesGrow(keys: set<Place>, op: Op)
    ensures keys <= NodesAfter(keys, op) && |keys| <= |NodesAfter(keys, op)|
  {
    var more := NodesAfter(keys, op);
    UnionSize(keys, more);
    assert keys + more == more;
  }

  ghost predicate RootsBelow(keys: set<Place>, n: nat) {
    forall p :: p in keys ==> p.root < n
  }

  lemma ForestRootsBelow(n: nat, pos: seq<Place>, at: map<Place, nat>)
    requires Forest(n, pos, at)
    ensures RootsBelow(at.Keys, n)
  {
    forall p | p in at
      ensures p.root < n
    {
      AncestorsExist(n, pos, at, p, 0);
      assert Above(p, 0).path == [] && PlaceOk(pos, at, Above(p, 0));
    }
  }

  lemma {:induction false} TakenRoots(q: Place, k: nat)
    requires k <= |q.path|
    ensures forall p :: p in Taken(q, k) ==> p.root == q.root
  {
    if k > 0 { TakenRoots(q, k - 1); }
  }

  /** Each operation needs the nodes on the way to the pages ever mapped, and nothing else. */
  lemma OpAccounted(keys: set<Place>, roots: set<nat>, ever: set<Place>, op: Op) returns (roots': set<nat>)
    requires Accounted(keys, roots, ever) && RootsBelow(keys, |keys|)
    requires LegalOp(keys, op)
    ensures Accounted(NodesAfter(keys, op), roots', ever + MappedBy(op))
    ensures |keys| <= |NodesAfter(keys, op)| && RootsBelow(NodesAfter(keys, op), |NodesAfter(keys, op)|)
    ensures |roots'| == |roots| + if op.Allocate? then 1 else 0
  {
    roots' := roots;
    match op
    case Update(pt, vpn, ppn) =>
      if ppn == NO_MAPPING {
        assert ever + MappedBy(op) == ever;
      } else {
        var q := Place(pt, Slices(vpn));
        assert Place(pt, []).root < |keys|;
        AccountedGrows(keys, roots, ever, q);
        TakenRoots(q, 4);
        UnionSize(keys, Taken(q, 4));
      }
    case Query(_, _) => assert ever + MappedBy(op) == ever;
    case Allocate =>
      var r := |keys|;
      assert Place(r, []) !in keys && ever + MappedBy(op) == ever;
      NewRootIsNew(keys, roots, ever, r);
      AccountedNewRoot(keys, roots, ever, r);
      roots' := roots + {r};
  }

  lemma EverGrows(ever: set<Place>, ops: seq<Op>)
    requires ops != []
    ensures ever + MappedPages(ops[..|ops| - 1]) + MappedBy(ops[|ops| - 1]) == ever + MappedPages(ops)
  {
  }

  /** Exact frame accounting over a run: roots, bare allocations, and for each of the four lower levels one frame for
      every distinct table and prefix of that many slices among the pages ever mapped. */
  lemma {:induction false} RunAccounted(keys: set<Place>, roots: set<nat>, ever: set<Place>, ops: seq<Op>)
    returns (roots': set<nat>)
    requires Accounted(keys, roots, ever) && RootsBelow(keys, |keys|)
    requires LegalRun(keys, ops)
    ensures Accounted(RunNodes(keys, ops), roots', ever + MappedPages(ops))
    ensures RootsBelow(RunNodes(keys, ops), |RunNodes(keys, ops)|)
    ensures |roots'| == |roots| + Allocations(ops) && |RunNodes(keys, ops)| >= |keys|
    decreases |ops|
  {
    if ops == [] {
      roots' := roots;
      assert ever + MappedPages(ops) == ever;
    } else {
      var op, earlier := ops[|ops| - 1], ops[..|ops| - 1];
      LegalRunEnd(keys, ops);
      var before := RunAccounted(keys, roots, ever, earlier);
      var nodes := RunNodes(keys, earlier);
      roots' := OpAccounted(nodes, before, ever + MappedPages(earlier), op);
      EverGrows(ever, ops);
    }
  }

  /** The nodes that a run from an empty memory needs: the bare allocations, and for k = 1..4 the distinct pairs of a
      root and the first k slices among the pages ever mapped. */
  ghost function FramesNeeded(ops: seq<Op>): nat {
    var mapped := MappedPages(ops);
    Allocations(ops) + |PrefixesAt(mapped, 1)| + |PrefixesAt(mapped, 2)|
                     + |PrefixesAt(mapped, 3)| + |PrefixesAt(mapped, 4)|
  }

  lemma FramesAfterRun(ops: seq<Op>)
    requires LegalRun({}, ops)
    ensures |RunNodes({}, ops)| == FramesNeeded(ops)
  {
    NothingMapped({}, 4);
    assert RootPlaces({}) == {};
    var roots := RunAccounted({}, {}, {}, ops);
    assert {} + MappedPages(ops) == MappedPages(ops);
    FrameCount(RunNodes({}, ops), roots, MappedPages(ops));
  }

  lemma {:induction false} NothingMapped(roots: set<nat>, k: nat)
    requires k <= 5
    ensures FramePlaces(roots, {}, k) == RootPlaces(roots)
  {
    if k > 0 { NothingMapped(roots, k - 1); }
  }

  /** What a run of operations makes of the map, and the answers it gives (zero where nothing is asked). */
  function RunTable(table: map<Place, nat>, ops: seq<Op>): map<Place, nat> {
    if ops == [] then table else TableAfter(RunTable(table, ops[..|ops| - 1]), ops[|ops| - 1])
  }

  function OpAnswer(table: map<Place, nat>, op: Op): nat {
    if op.Query? then Lookup(table, op.pt, op.vpn) else 0
  }

  function RunAnswers(table: map<Place, nat>, ops: seq<Op>): (answers: seq<nat>)
    ensures |answers| == |ops|
  {
    if ops == [] then []
    else RunAnswers(table, ops[..|ops| - 1]) + [OpAnswer(RunTable(table, ops[..|ops| - 1]), ops[|ops| - 1])]
  }

  /** Every query in a run answers with the latest update to its table and page, and so does the final map. */
  lemma {:induction false} RunAnswersAreLatest(table: map<Place, nat>, ops: seq<Op>)
    ensures MappedWell(ops, RunTable(table, ops), table) && AnsweredWell(ops, RunAnswers(table, ops), table)
  {
    if ops != [] {
      var earlier, op := ops[..|ops| - 1], ops[|ops| - 1];
      RunAnswersAreLatest(table, earlier);
      var t := RunTable(table, earlier);
      RunStep(earlier, RunAnswers(table, earlier), op, OpAnswer(t, op), t, table);
      assert earlier + [op] == ops;
    }
  }

  lemma {:induction false} LatestIsOlder(ops: seq<Op>, pt: nat, vpn: Word, before: nat)
    requires forall op :: op in ops && op.Update? ==> op.pt != pt
    ensures LatestAnswer(ops, pt, vpn, before) == before
  {
    if ops != [] {
      assert ops[|ops| - 1] in ops;
      LatestIsOlder(ops[..|ops| - 1], pt, vpn, before);
    }
  }

  /** A run that updates only other tables changes no answer of this one. */
  lemma OtherTablesDoNotMatter(table: map<Place, nat>, ops: seq<Op>, pt: nat)
    requires forall op :: op in ops && op.Update? ==> op.pt != pt
    ensures forall v: Word :: Lookup(RunTable(table, ops), pt, v) == Lookup(table, pt, v)
  {
    RunAnswersAreLatest(table, ops);
    forall v: Word
      ensures Lookup(RunTable(table, ops), pt, v) == Lookup(table, pt, v)
    {
      LatestIsOlder(ops, pt, v, Lookup(table, pt, v));
    }
  }

  /** A page number comes back unchanged just when it fits in 52 bits and is not the unmapping mark. */
  lemma PageNumberComesBack(table: map<Place, nat>, pt: nat, vpn: Word, ppn: Word)
    ensures Lookup(Updated(table, pt, vpn, ppn), pt, vpn) == ppn
       <==> ppn < 0x10_0000_0000_0000 || ppn == 0xFFFF_FFFF_FFFF_FFFF
  {
    UpdateChangesOneAnswer(table, pt, vpn, ppn, pt, vpn);
  }
}
