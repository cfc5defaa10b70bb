/** The value side of the frame encoder: the three-word display buffer
    (`m_frame` with its words `fi`, `sc`, `tr`), the order in which the
    96 cells of the 12 x 8 grid are packed into those words, and the 5 x 3
    digit font. The class that owns a buffer and talks to the display
    driver is in module LedMatrix. */
module Frames {

  import opened Arduino

  const Width := 12
  const CellCount := 96

  /** The buffer: three `uint32_t` words. */
  datatype Frame = Frame(fi: UInt32, sc: UInt32, tr: UInt32)

  const FullOff := Frame(0, 0, 0)
  const FullOn := Frame(0xFFFF_FFFF, 0xFFFF_FFFF, 0xFFFF_FFFF)

  // ---------------------------------------------------------------------
  // Bits of an unsigned word, with the word held as its value.

  /** 2^k */
  function Pow2(k: nat): (p: nat)
    ensures p >= 1
  {
    if k == 0 then 1 else 2 * Pow2(k - 1)
  }

  /** Bit k of w, counting from the least significant bit. */
  predicate Bit(w: nat, k: nat)
  {
    if k == 0 then w % 2 == 1 else Bit(w / 2, k - 1)
  }

  /** `a | b`: bit by bit, each bit of the result set when it is set in
      either operand. */
  function BitOr(a: nat, b: nat): nat
    decreases a + b
  {
    if a == 0 && b == 0 then 0
    else 2 * BitOr(a / 2, b / 2) + (if a % 2 == 1 || b % 2 == 1 then 1 else 0)
  }

  /** `val << k` for a `bool` val: bit k alone when val holds. */
  function Shifted(val: bool, k: nat): nat
  {
    if val then Pow2(k) else 0
  }

  lemma Pow2Values()
    ensures Pow2(31) == 0x8000_0000 && Pow2(32) == 0x1_0000_0000
  {
    assert Pow2(8) == 0x100;
    assert Pow2(16) == 0x1_0000;
    assert Pow2(24) == 0x100_0000;
  }

  lemma {:induction false} Pow2Mono(k: nat, n: nat)
    requires k <= n
    ensures Pow2(k) <= Pow2(n)
  {
    if k < n {
      Pow2Mono(k, n - 1);
    }
  }

  lemma {:induction false} ZeroBit(k: nat)
    ensures !Bit(0, k)
  {
    if k > 0 {
      ZeroBit(k - 1);
    }
  }

  /** A bit of `a | b` is set exactly when it is set in a or in b. */
  lemma {:induction false} OrBit(a: nat, b: nat, k: nat)
    ensures Bit(BitOr(a, b), k) == (Bit(a, k) || Bit(b, k))
    decreases a + b
  {
    if a == 0 && b == 0 {
      ZeroBit(k);
    } else if k > 0 {
      OrBit(a / 2, b / 2, k - 1);
    }
  }

  /** 2^k has bit k alone. */
  lemma {:induction false} PowBit(k: nat, j: nat)
    ensures Bit(Pow2(k), j) == (j == k)
  {
    if k == 0 {
      if j > 0 {
        ZeroBit(j - 1);
      }
    } else if j > 0 {
      PowBit(k - 1, j - 1);
    }
  }

  /** ORing two n-bit words gives an n-bit word. */
  lemma {:induction false} OrBound(a: nat, b: nat, n: nat)
    requires a < Pow2(n) && b < Pow2(n)
    ensures BitOr(a, b) < Pow2(n)
  {
    if n > 0 && !(a == 0 && b == 0) {
      OrBound(a / 2, b / 2, n - 1);
    }
  }

  /** An n-bit word is determined by its n bits. */
  lemma {:induction false} WordBits(w: nat, v: nat, n: nat)
    requires w < Pow2(n) && v < Pow2(n)
    requires forall k :: 0 <= k < n ==> Bit(w, k) == Bit(v, k)
    ensures w == v
  {
    if n > 0 {
      forall k | 0 <= k < n - 1
        ensures Bit(w / 2, k) == Bit(v / 2, k)
      {
        assert Bit(w, k + 1) == Bit(v, k + 1);
      }
      WordBits(w / 2, v / 2, n - 1);
      assert Bit(w, 0) == Bit(v, 0);
    }
  }

  /** A 32-bit word is determined by its 32 bits. */
  lemma WordExt(w: UInt32, v: UInt32)
    requires forall k :: 0 <= k < 32 ==> Bit(w, k) == Bit(v, k)
    ensures w == v
  {
    Pow2Values();
    WordBits(w, v, 32);
  }

  /** `w | (val << k)` stays a 32-bit word, and sets bit k when val holds
      and no other bit. */
  lemma OrShifted(w: UInt32, val: bool, k: nat, j: nat)
    requires k < 32
    ensures BitOr(w, Shifted(val, k)) < 0x1_0000_0000
    ensures Bit(BitOr(w, Shifted(val, k)), j) == (Bit(w, j) || (val && j == k))
  {
    Pow2Values();
    Pow2Mono(k + 1, 32);
    OrBound(w, Shifted(val, k), 32);
    OrBit(w, Shifted(val, k), j);
    if val {
      PowBit(k, j);
    } else {
      ZeroBit(j);
    }
  }

  /** 2^n - 1 has its n low bits set and no other. */
  lemma {:induction false} OnesBit(n: nat, k: nat)
    ensures Bit(Pow2(n) - 1, k) == (k < n)
  {
    if n == 0 {
      ZeroBit(k);
    } else {
      assert Pow2(n) - 1 == 2 * (Pow2(n - 1) - 1) + 1;
      if k > 0 {
        OnesBit(n - 1, k - 1);
      }
    }
  }

  /** The single-bit words at the two ends of a word. */
  lemma EndBits(k: nat)
    ensures Bit(0x8000_0000, k) == (k == 31)
    ensures Bit(1, k) == (k == 0)
    ensures !Bit(0, k)
  {
    Pow2Values();
    PowBit(31, k);
    PowBit(0, k);
    ZeroBit(k);
  }

  // ---------------------------------------------------------------------
  // Cells

  /** Word n of the buffer: `fi`, `sc`, `tr`. */
  function Word(f: Frame, n: int): UInt32
    requires 0 <= n < 3
  {
    if n == 0 then f.fi else if n == 1 then f.sc else f.tr
  }

  /** Whether cell i (row i / 12, column i % 12) is lit: cells 0..31 are
      bits 31..0 of `fi`, cells 32..63 bits 31..0 of `sc` and cells
      64..95 bits 31..0 of `tr`, most significant bit first. */
  predicate Cell(f: Frame, i: int)
    requires 0 <= i < CellCount
  {
    Bit(Word(f, i / 32), 31 - i % 32)
  }

  /** The grid as 96 cells. */
  function Cells(f: Frame): (c: seq<bool>)
    ensures |c| == CellCount
    ensures forall i :: 0 <= i < CellCount ==> c[i] == Cell(f, i)
  {
    seq(CellCount, i requires 0 <= i < CellCount => Cell(f, i))
  }

  /** Cell-wise OR of two grids. */
  function Overlay(a: seq<bool>, b: seq<bool>): (r: seq<bool>)
    requires |a| == |b|
    ensures |r| == |a|
    ensures forall i :: 0 <= i < |a| ==> r[i] == (a[i] || b[i])
  {
    seq(|a|, i requires 0 <= i < |a| => a[i] || b[i])
  }

  const Dark: seq<bool> := seq(CellCount, _ => false)

  /** The buffer is determined by its cells: the three words hold nothing
      but the 96 cells. */
  lemma {:induction false} FrameExt(f: Frame, g: Frame)
    requires Cells(f) == Cells(g)
    ensures f == g
  {
    forall k | 0 <= k < 32
      ensures Bit(f.fi, k) == Bit(g.fi, k)
      ensures Bit(f.sc, k) == Bit(g.sc, k)
      ensures Bit(f.tr, k) == Bit(g.tr, k)
    {
      assert Cell(f, 31 - k) == Cell(g, 31 - k);
      assert Cell(f, 63 - k) == Cell(g, 63 - k);
      assert Cell(f, 95 - k) == Cell(g, 95 - k);
    }
    WordExt(f.fi, g.fi);
    WordExt(f.sc, g.sc);
    WordExt(f.tr, g.tr);
  }

  /** All-off is the only buffer with no lit cell. */
  lemma {:induction false} FullFrames(f: Frame)
    ensures Cells(FullOff) == Dark
    ensures (Cells(f) == Dark) == (f == FullOff)
  {
    forall i | 0 <= i < CellCount
      ensures !Cell(FullOff, i)
    {
      ZeroBit(31 - i % 32);
    }
    assert Cells(FullOff) == Dark;
    if Cells(f) == Dark {
      FrameExt(f, FullOff);
    }
  }

  const Lit: seq<bool> := seq(CellCount, _ => true)

  /** All-on lights every cell, and is the only buffer that does. */
  lemma {:induction false} FullOnLit(f: Frame)
    ensures Cells(FullOn) == Lit
    ensures (Cells(f) == Lit) == (f == FullOn)
  {
    Pow2Values();
    forall i | 0 <= i < CellCount
      ensures Cell(FullOn, i)
    {
      OnesBit(32, 31 - i % 32);
    }
    assert Cells(FullOn) == Lit;
    if Cells(f) == Lit {
      FrameExt(f, FullOn);
    }
  }

  // ---------------------------------------------------------------------
  // set_bit on a buffer value

  /** The buffer after `set_bit(idx, val)`: `val` is shifted to bit
      31 - idx, 63 - idx or 95 - idx of the word that holds it and ORed
      in. Setting a cell turns it on and touches no other cell;
      `val == false` changes nothing, because nothing is ever cleared. */
  function WithBit(f: Frame, idx: int, val: bool): (r: Frame)
    requires 0 <= idx < CellCount
    ensures forall i :: 0 <= i < CellCount ==> Cell(r, i) == (Cell(f, i) || (val && i == idx))
  {
    if idx < 32 then
      OrShifted(f.fi, val, 31 - idx, 0);
      var r := f.(fi := BitOr(f.fi, Shifted(val, 31 - idx)));
      OrInto(f, idx, val, r);
      r
    else if idx < 64 then
      OrShifted(f.sc, val, 63 - idx, 0);
      var r := f.(sc := BitOr(f.sc, Shifted(val, 63 - idx)));
      OrInto(f, idx, val, r);
      r
    else
      OrShifted(f.tr, val, 95 - idx, 0);
      var r := f.(tr := BitOr(f.tr, Shifted(val, 95 - idx)));
      OrInto(f, idx, val, r);
      r
  }

  /** r is f with `val << (31 - idx % 32)` ORed into word idx / 32. */
  predicate OrredInto(f: Frame, idx: int, val: bool, r: Frame)
    requires 0 <= idx < CellCount
  {
    var n := idx / 32;
    Word(r, n) == BitOr(Word(f, n), Shifted(val, 31 - idx % 32)) &&
    forall m :: 0 <= m < 3 && m != n ==> Word(r, m) == Word(f, m)
  }

  lemma OrIntoCell(f: Frame, idx: int, val: bool, r: Frame, i: int)
    requires 0 <= idx < CellCount && 0 <= i < CellCount
    requires OrredInto(f, idx, val, r)
    ensures Cell(r, i) == (Cell(f, i) || (val && i == idx))
  {
    if i / 32 == idx / 32 {
      OrShifted(Word(f, idx / 32), val, 31 - idx % 32, 31 - i % 32);
    } else {
      assert Word(r, i / 32) == Word(f, i / 32);
    }
  }

  lemma OrInto(f: Frame, idx: int, val: bool, r: Frame)
    requires 0 <= idx < CellCount
    requires OrredInto(f, idx, val, r)
    ensures forall i :: 0 <= i < CellCount ==> Cell(r, i) == (Cell(f, i) || (val && i == idx))
  {
    forall i | 0 <= i < CellCount
      ensures Cell(r, i) == (Cell(f, i) || (val && i == idx))
    {
      OrIntoCell(f, idx, val, r, i);
    }
  }

  /** `set_bit(idx, false)` is a no-op. */
  lemma WithBitFalse(f: Frame, idx: int)
    requires 0 <= idx < CellCount
    ensures WithBit(f, idx, false) == f
  {
    FrameExt(WithBit(f, idx, false), f);
  }

  /** Setting a cell twice is setting it once. */
  lemma WithBitIdempotent(f: Frame, idx: int, val: bool)
    requires 0 <= idx < CellCount
    ensures WithBit(WithBit(f, idx, val), idx, val) == WithBit(f, idx, val)
  {
    FrameExt(WithBit(WithBit(f, idx, val), idx, val), WithBit(f, idx, val));
  }

  /** The order of two `set_bit` calls does not matter. */
  lemma WithBitCommutes(f: Frame, i: int, a: bool, j: int, b: bool)
    requires 0 <= i < CellCount && 0 <= j < CellCount
    ensures WithBit(WithBit(f, i, a), j, b) == WithBit(WithBit(f, j, b), i, a)
  {
    FrameExt(WithBit(WithBit(f, i, a), j, b), WithBit(WithBit(f, j, b), i, a));
  }

  /** Cell i alone lit. */
  lemma Single(f: Frame, i: int)
    requires 0 <= i < CellCount
    requires forall j :: 0 <= j < CellCount ==> Cell(f, j) == (j == i)
    ensures i == 0 ==> f == Frame(0x8000_0000, 0, 0)
    ensures i == 31 ==> f == Frame(1, 0, 0)
    ensures i == 32 ==> f == Frame(0, 0x8000_0000, 0)
    ensures i == 63 ==> f == Frame(0, 1, 0)
    ensures i == 64 ==> f == Frame(0, 0, 0x8000_0000)
    ensures i == 95 ==> f == Frame(0, 0, 1)
  {
    var g :=
      if i == 0 then Frame(0x8000_0000, 0, 0) else if i == 31 then Frame(1, 0, 0)
      else if i == 32 then Frame(0, 0x8000_0000, 0) else if i == 63 then Frame(0, 1, 0)
      else if i == 64 then Frame(0, 0, 0x8000_0000) else Frame(0, 0, 1);
    if i in {0, 31, 32, 63, 64, 95} {
      forall j | 0 <= j < CellCount
        ensures Cell(g, j) == (j == i)
      {
        EndBits(31 - j % 32);
      }
      assert Cells(f) == Cells(g);
      FrameExt(f, g);
    }
  }

  /** The bit positions named in the layout: cell 0 is the top bit of
      `fi`, cell 31 bit 0 of `fi`, cell 32 the top bit of `sc`, cell 63
      bit 0 of `sc`, cell 64 the top bit of `tr` and cell 95 bit 0 of
      `tr`. */
  lemma CornerBits()
    ensures WithBit(FullOff, 0, true) == Frame(0x8000_0000, 0, 0)
    ensures WithBit(FullOff, 31, true) == Frame(1, 0, 0)
    ensures WithBit(FullOff, 32, true) == Frame(0, 0x8000_0000, 0)
    ensures WithBit(FullOff, 63, true) == Frame(0, 1, 0)
    ensures WithBit(FullOff, 64, true) == Frame(0, 0, 0x8000_0000)
    ensures WithBit(FullOff, 95, true) == Frame(0, 0, 1)
  {
    FullFrames(FullOff);
    Single(WithBit(FullOff, 0, true), 0);
    Single(WithBit(FullOff, 31, true), 31);
    Single(WithBit(FullOff, 32, true), 32);
    Single(WithBit(FullOff, 63, true), 63);
    Single(WithBit(FullOff, 64, true), 64);
    Single(WithBit(FullOff, 95, true), 95);
  }

  // ---------------------------------------------------------------------
  // The 5 x 3 font

  /** A font row: three cells, the leftmost in the most significant bit. */
  type FontRow = x: int | 0 <= x < 8

  /** `digits_font`: the glyphs for 0..9, A..F and, at code 16, a dash. */
  const DigitsFont: seq<seq<FontRow>> := [
    [7, 5, 5, 5, 7], // 0
    [2, 6, 2, 2, 7], // 1
    [7, 1, 7, 4, 7], // 2
    [7, 1, 7, 1, 7], // 3
    [5, 5, 7, 1, 1], // 4
    [7, 4, 7, 1, 7], // 5
    [7, 4, 7, 5, 7], // 6
    [7, 1, 1, 1, 1], // 7
    [7, 5, 7, 5, 7], // 8
    [7, 5, 7, 1, 7], // 9
    [2, 5, 7, 5, 5], // A
    [6, 5, 6, 5, 6], // B
    [7, 4, 4, 4, 7], // C
    [6, 1, 1, 1, 6], // D
    [7, 4, 7, 4, 7], // E
    [7, 4, 7, 4, 4], // F
    [0, 0, 7, 0, 0]  // -
  ]

  const Dash := 16

  /** `p >> s` on an unsigned value: s halvings. */
  function ShiftRight(p: nat, s: nat): (r: nat)
    ensures r <= p
    ensures (r % 2 == 1) == Bit(p, s)
  {
    if s == 0 then p else ShiftRight(p / 2, s - 1)
  }

  /** `(font[dig].data[i] >> (2 - j)) & 1`: the cell in row i, column j
      of glyph `dig`: bit 2 - j of the row, so column 0 is the row's
      most significant bit. */
  function FontBit(dig: int, i: int, j: int): (r: bool)
    requires 0 <= dig <= Dash && 0 <= i < 5 && 0 <= j < 3
    ensures r == Bit(DigitsFont[dig][i], 2 - j)
  {
    ShiftRight(DigitsFont[dig][i], 2 - j) % 2 == 1
  }

  /** The font holds seventeen glyphs of five rows; the zero is a ring
      round an unlit middle column, the eight lights all but two cells of
      that column, and the one has its stem in the middle column. */
  lemma FontShapes(i: int, j: int)
    requires 0 <= i < 5 && 0 <= j < 3
    ensures |DigitsFont| == Dash + 1
    ensures forall k :: 0 <= k <= Dash ==> |DigitsFont[k]| == 5
    ensures FontBit(0, i, j) == !(1 <= i <= 3 && j == 1)
    ensures FontBit(8, i, j) == !((i == 1 || i == 3) && j == 1)
    ensures j == 1 ==> FontBit(1, i, j)
  {
  }

  /** The dash lights exactly the middle row of its block. */
  lemma DashGlyph(i: int, j: int)
    requires 0 <= i < 5 && 0 <= j < 3
    ensures FontBit(Dash, i, j) == (i == 2)
  {
  }

  /** Cell idx lies in the glyph placed with its top-left corner at row r,
      column c, is among the first m of its 15 cells in row-major order,
      and is lit in glyph `dig`. With m == 15 this is the whole glyph. */
  predicate GlyphCell(dig: int, r: int, c: int, m: int, idx: int)
    requires 0 <= dig <= Dash && 0 <= idx < CellCount
  {
    var row, col := idx / Width, idx % Width;
    r <= row < r + 5 && c <= col < c + 3 && (row - r) * 3 + (col - c) < m &&
    FontBit(dig, row - r, col - c)
  }

  /** The first m cells of glyph `dig` placed at row r, column c. */
  function Glyph(dig: int, r: int, c: int, m: int): (g: seq<bool>)
    requires 0 <= dig <= Dash
    ensures |g| == CellCount
    ensures forall idx :: 0 <= idx < CellCount ==> g[idx] == GlyphCell(dig, r, c, m, idx)
  {
    seq(CellCount, idx requires 0 <= idx < CellCount => GlyphCell(dig, r, c, m, idx))
  }

  /** The four symbol codes handed to `generate_frame`. */
  datatype Codes = Codes(d0: UInt8, d1: UInt8, d2: UInt8, d3: UInt8)

  /** The symbol actually drawn for a code: codes above 16 become the
      dash. */
  function Symbol(x: UInt8): (dig: int)
    ensures 0 <= dig <= Dash
    ensures x <= Dash ==> dig == x
    ensures x > Dash ==> dig == Dash
  {
    Constrain(x, 0, Dash)
  }

  /** The symbol code at position k (0 is leftmost). */
  function CodeAt(d: Codes, k: int): UInt8
    requires 0 <= k < 4
  {
    if k == 0 then d.d0 else if k == 1 then d.d1 else if k == 2 then d.d2 else d.d3
  }

  /** What `generate_frame(a, b, c, d)` draws: the four glyphs side by
      side in columns 0, 3, 6 and 9 of the top five rows: a cell is lit
      exactly when it lies in the top five rows and the font lights its
      place in the glyph of its block's symbol. */
  function Render(d: Codes): (g: seq<bool>)
    ensures |g| == CellCount
    ensures forall idx :: 0 <= idx < CellCount ==> g[idx] == RenderedCell(d, idx)
  {
    assert forall idx :: 0 <= idx < CellCount ==> Layers(d)[idx] == RenderedCell(d, idx) by {
      forall idx | 0 <= idx < CellCount
        ensures Layers(d)[idx] == RenderedCell(d, idx)
      {
        LayersCell(d, idx);
      }
    }
    Layers(d)
  }

  /** The four glyphs laid over each other, as `generate_frame` ORs them. */
  function Layers(d: Codes): (g: seq<bool>)
    ensures |g| == CellCount
  {
    Overlay(Overlay(Overlay(Glyph(Symbol(d.d0), 0, 0, 15), Glyph(Symbol(d.d1), 0, 3, 15)),
                            Glyph(Symbol(d.d2), 0, 6, 15)),
            Glyph(Symbol(d.d3), 0, 9, 15))
  }

  /** Cell idx of a rendering, read off its row and its block. */
  predicate RenderedCell(d: Codes, idx: int)
    requires 0 <= idx < CellCount
  {
    idx / Width < 5 && FontBit(Symbol(CodeAt(d, idx % Width / 3)), idx / Width, idx % Width % 3)
  }

  lemma LayersCell(d: Codes, idx: int)
    requires 0 <= idx < CellCount
    ensures Layers(d)[idx] == RenderedCell(d, idx)
  {
    var row, col := idx / Width, idx % Width;
    var k := col / 3;
    assert 0 <= k < 4 && 3 * k <= col < 3 * k + 3;
    var c := CodeAt(d, k);
    assert Layers(d)[idx] == (GlyphCell(Symbol(d.d0), 0, 0, 15, idx) || GlyphCell(Symbol(d.d1), 0, 3, 15, idx) ||
                              GlyphCell(Symbol(d.d2), 0, 6, 15, idx) || GlyphCell(Symbol(d.d3), 0, 9, 15, idx));
    assert Layers(d)[idx] == GlyphCell(Symbol(c), 0, 3 * k, 15, idx);
    if row < 5 {
      assert row * 3 + (col - 3 * k) < 15;
    }
  }

  /** Row i, column j of block k of the rendering is row i, column j of
      the k-th symbol's glyph. */
  lemma RenderAt(d: Codes, k: int, i: int, j: int)
    requires 0 <= k < 4 && 0 <= i < 5 && 0 <= j < 3
    ensures Render(d)[i * Width + 3 * k + j] == FontBit(Symbol(CodeAt(d, k)), i, j)
  {
    var idx := i * Width + 3 * k + j;
    assert idx / Width == i && idx % Width == 3 * k + j;
  }

  /** The bottom three rows stay dark. */
  lemma RenderBottomDark(d: Codes, idx: int)
    requires 5 * Width <= idx < CellCount
    ensures !Render(d)[idx]
  {
    assert idx / Width >= 5;
  }

  /** A rendering from a clean buffer never uses the third word. */
  lemma RenderLeavesTrZero(f: Frame, d: Codes)
    requires Cells(f) == Render(d)
    ensures f.tr == 0
  {
    forall k | 0 <= k < 32
      ensures Bit(f.tr, k) == Bit(0, k)
    {
      assert Cell(f, 95 - k) == Render(d)[95 - k];
      RenderBottomDark(d, 95 - k);
      ZeroBit(k);
    }
    WordExt(f.tr, 0);
  }

  /** Adding cell 3 * i + j of a glyph, in `set_digit`'s row-major order,
      adds exactly the grid cell (r + i) * 12 + (c + j), lit when the font
      says so. */
  lemma GlyphStep(dig: int, r: int, c: int, i: int, j: int, idx: int)
    requires 0 <= dig <= Dash && 0 <= i < 5 && 0 <= j < 3
    requires 0 <= r && 0 <= c && c + 3 <= Width && 0 <= idx < CellCount
    ensures GlyphCell(dig, r, c, 3 * i + j + 1, idx) ==
      (GlyphCell(dig, r, c, 3 * i + j, idx) || (FontBit(dig, i, j) && idx == (r + i) * Width + (c + j)))
  {
    var row, col := idx / Width, idx % Width;
    assert idx == row * Width + col;
  }
}
