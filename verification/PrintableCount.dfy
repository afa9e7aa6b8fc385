/** What the printable-character counter of hw5_os counts, and the 32-bit wire format its two programs share. */
module PrintableCount {

  newtype Byte = x: int | 0 <= x < 256

  const TWO31 := 0x8000_0000
  const TWO32 := 0x1_0000_0000
  const MIN_PRINTABLE := 32
  const MAX_PRINTABLE := 126
  const CELLS := MAX_PRINTABLE - MIN_PRINTABLE + 1
  const BUFFER_SIZE := 1024

  /** What a 32-bit unsigned variable holds of `x`. */
  function Wrap(x: nat): (w: nat)
    ensures w < TWO32 && (x < TWO32 ==> w == x)
  {
    x % 0x1_0000_0000
  }

  predicate IsPrintable(b: Byte) {
    MIN_PRINTABLE <= b as int <= MAX_PRINTABLE
  }

  /** The number of printable bytes. */
  function Printables(s: seq<Byte>): nat {
    if s == [] then 0 else Printables(s[..|s| - 1]) + if IsPrintable(s[|s| - 1]) then 1 else 0
  }

  /** Printable are the byte values 32 to 126; with `PrintablesConcat` this says what is counted in any stream. */
  lemma PrintableBytes(b: Byte)
    ensures Printables([b]) == (if 32 <= b as int <= 126 then 1 else 0) && Printables([]) == 0
  {
    assert [b][..0] == [];
  }

  function Occurrences(s: seq<Byte>, b: Byte): nat {
    multiset(s)[b]
  }

  lemma {:induction false} PrintablesConcat(a: seq<Byte>, b: seq<Byte>)
    ensures Printables(a + b) == Printables(a) + Printables(b)
    decreases |b|
  {
    if b == [] {
      assert a + b == a;
    } else {
      assert (a + b)[..|a + b| - 1] == a + b[..|b| - 1];
      PrintablesConcat(a, b[..|b| - 1]);
    }
  }

  lemma {:induction false} PrintablesBound(s: seq<Byte>)
    ensures Printables(s) <= |s|
  {
    if s != [] { PrintablesBound(s[..|s| - 1]); }
  }

  lemma OccurrencesConcat(a: seq<Byte>, s: seq<Byte>, b: Byte)
    ensures Occurrences(a + s, b) == Occurrences(a, b) + Occurrences(s, b)
  {
  }

  // ---- Histograms ----

  /** Cell `i` counts, modulo 2^32, the bytes of value `32 + i`. */
  ghost predicate Tallies(cells: seq<nat>, s: seq<Byte>) {
    |cells| == CELLS && forall i :: 0 <= i < CELLS ==> cells[i] == Wrap(CellCount(s, i))
  }

  ghost function CellCount(s: seq<Byte>, i: nat): nat
    requires i < CELLS
  {
    Occurrences(s, (MIN_PRINTABLE + i) as Byte)
  }

  /** A histogram has one cell for each of the 95 printable values, in order. */
  lemma TalliesCountBytes(cells: seq<nat>, s: seq<Byte>, b: Byte)
    requires Tallies(cells, s)
    ensures |cells| == 95
    ensures 32 <= b as int <= 126 ==> cells[b as int - 32] == multiset(s)[b] % 4294967296
  {
    if 32 <= b as int <= 126 {
      var i := b as int - 32;
      assert cells[i] == Wrap(CellCount(s, i)) && (MIN_PRINTABLE + i) as Byte == b;
    }
  }

  function SumFirst(cells: seq<nat>, n: nat): nat
    requires n <= |cells|
  {
    if n == 0 then 0 else SumFirst(cells, n - 1) + cells[n - 1]
  }

  ghost function CountFirst(s: seq<Byte>, n: nat): nat
    requires n <= CELLS
  {
    if n == 0 then 0 else CountFirst(s, n - 1) + CellCount(s, n - 1)
  }

  lemma {:induction false} CountFirstAppend(s: seq<Byte>, b: Byte, n: nat)
    requires n <= CELLS
    ensures CountFirst(s + [b], n) == CountFirst(s, n) + if MIN_PRINTABLE <= b as int < MIN_PRINTABLE + n then 1 else 0
  {
    if n > 0 {
      CountFirstAppend(s, b, n - 1);
      OccurrencesConcat(s, [b], (MIN_PRINTABLE + n - 1) as Byte);
    }
  }

  lemma {:induction false} CountFirstEmpty(n: nat)
    requires n <= CELLS
    ensures CountFirst([], n) == 0
  {
    if n > 0 { CountFirstEmpty(n - 1); }
  }

  /** Counting by cells and counting printable bytes agree. */
  lemma {:induction false} CellsCountPrintables(s: seq<Byte>)
    ensures CountFirst(s, CELLS) == Printables(s)
  {
    if s == [] {
      CountFirstEmpty(CELLS);
    } else {
      var front := s[..|s| - 1];
      CellsCountPrintables(front);
      CountFirstAppend(front, s[|s| - 1], CELLS);
      assert front + [s[|s| - 1]] == s;
    }
  }

  lemma {:induction false} SumFirstWraps(cells: seq<nat>, s: seq<Byte>, n: nat)
    requires Tallies(cells, s) && n <= CELLS
    ensures Wrap(SumFirst(cells, n)) == Wrap(CountFirst(s, n))
  {
    if n > 0 {
      SumFirstWraps(cells, s, n - 1);
      AddWraps(SumFirst(cells, n - 1), CountFirst(s, n - 1), CellCount(s, n - 1));
    }
  }

  /** The cells of a histogram add up, modulo 2^32, to the printable bytes it has seen. */
  lemma TalliesSum(cells: seq<nat>, s: seq<Byte>)
    requires Tallies(cells, s)
    ensures Wrap(SumFirst(cells, CELLS)) == Wrap(Printables(s))
  {
    SumFirstWraps(cells, s, CELLS);
    CellsCountPrintables(s);
  }

  lemma AddWraps(a: nat, b: nat, c: nat)
    requires Wrap(a) == Wrap(b)
    ensures Wrap(a + Wrap(c)) == Wrap(b + c)
    ensures Wrap(Wrap(a) + c) == Wrap(b + c)
    ensures Wrap(Wrap(a) + Wrap(c)) == Wrap(b + c)
  {
    var v, w := Wrap(a), Wrap(c);
    WrapDrops(v + w, a / TWO32);
    WrapDrops(v + w, c / TWO32);
    WrapDrops(v + w, b / TWO32 + c / TWO32);
    assert b + c == v + w + (b / TWO32 + c / TWO32) * TWO32;
  }

  lemma WrapDrops(x: nat, k: nat)
    ensures Wrap(x + k * TWO32) == Wrap(x)
  {
  }

  /** One more byte: its cell, if it has one, goes up by one. */
  lemma TalliesAppend(cells: seq<nat>, s: seq<Byte>, b: Byte)
    requires Tallies(cells, s)
    ensures !IsPrintable(b) ==> Tallies(cells, s + [b])
    ensures IsPrintable(b) ==>
      var cell := b as int - MIN_PRINTABLE; Tallies(cells[cell := Wrap(cells[cell] + 1)], s + [b])
  {
    forall i | 0 <= i < CELLS
      ensures CellCount(s + [b], i) == CellCount(s, i) + if b as int == MIN_PRINTABLE + i then 1 else 0
    {
      OccurrencesConcat(s, [b], (MIN_PRINTABLE + i) as Byte);
    }
    if IsPrintable(b) {
      var cell := b as int - MIN_PRINTABLE;
      AddWraps(CellCount(s, cell), CellCount(s, cell), 1);
    }
  }

  /** Adding two 32-bit cells counts the two streams together. */
  lemma CellAdds(s: seq<Byte>, piece: seq<Byte>, i: nat)
    requires i < CELLS
    ensures Wrap(Wrap(CellCount(s, i)) + Wrap(CellCount(piece, i))) == Wrap(CellCount(s + piece, i))
  {
    OccurrencesConcat(s, piece, (MIN_PRINTABLE + i) as Byte);
    AddWraps(CellCount(s, i), CellCount(s, i), CellCount(piece, i));
  }

  /** Running 32-bit totals stay right as another piece of the stream is counted. */
  lemma TotalsAppend(s: seq<Byte>, piece: seq<Byte>)
    ensures Wrap(Wrap(|s|) + |piece|) == Wrap(|s + piece|)
    ensures Wrap(Wrap(Printables(s)) + Printables(piece)) == Wrap(Printables(s + piece))
  {
    PrintablesConcat(s, piece);
    AddWraps(|s|, |s|, |piece|);
    AddWraps(Printables(s), Printables(s), Printables(piece));
  }

  /** How often a value has wrapped. */
  lemma Wraps(x: nat) returns (q: nat)
    ensures x == Wrap(x) + q * TWO32
  {
    q := x / TWO32;
  }

  // ---- Four bytes, most significant first ----

  function ToWire(v: nat): (s: seq<Byte>)
    requires v < TWO32
    ensures |s| == 4
  {
    [(v / 0x100_0000) as Byte, (v / 0x1_0000 % 0x100) as Byte, (v / 0x100 % 0x100) as Byte, (v % 0x100) as Byte]
  }

  function FromWire(s: seq<Byte>): (v: nat)
    requires |s| == 4
    ensures v < TWO32
  {
    s[0] as int * 0x100_0000 + s[1] as int * 0x1_0000 + s[2] as int * 0x100 + s[3] as int
  }

  /** The wire compares like the numbers: at the first byte in which they differ, the smaller number has the smaller
      byte. With the round trip this leaves no byte order but the most significant first. */
  lemma WireKeepsOrder(v: nat, w: nat)
    requires v < w < TWO32
    ensures exists i :: 0 <= i < 4 && ToWire(v)[..i] == ToWire(w)[..i] && ToWire(v)[i] < ToWire(w)[i]
  {
    var a, b := ToWire(v), ToWire(w);
    WireRoundTrip(v);
    WireRoundTrip(w);
    if a[0] != b[0] {
      assert a[..0] == b[..0] && a[0] < b[0];
    } else if a[1] != b[1] {
      assert a[..1] == b[..1] && a[1] < b[1];
    } else if a[2] != b[2] {
      assert a[..2] == b[..2] && a[2] < b[2];
    } else {
      assert a[..3] == b[..3] && a[3] < b[3];
    }
  }

  /** All four bytes are used: the largest 32-bit number is the wire of four full bytes. */
  lemma WireIsFull()
    ensures FromWire([255, 255, 255, 255]) == 4294967295 == TWO32 - 1
  {
  }

  lemma WireRoundTrip(v: nat)
    requires v < TWO32
    ensures FromWire(ToWire(v)) == v
  {
    assert v / 0x100 / 0x100 == v / 0x1_0000;
    assert v / 0x1_0000 / 0x100 == v / 0x100_0000;
  }
}
