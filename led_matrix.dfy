/** The `LED_Matrix` object: a three-word frame buffer that the drawing
    operations OR cells into, and the display driver that is handed whole
    frames. The driver is modelled by the list of frames loaded into it
    and the milliseconds spent waiting between them. */
module LedMatrix {
  import opened Arduino
  import opened Frames
  import opened Numerals

  /** The cell `draw_point(rx, ry)` sets: `ry * 12 + rx`, converted to
      `int` by truncation. */
  function PointIndex(rx: real, ry: real): (idx: int)
    ensures ry * 12.0 + rx >= 0.0 ==> idx as real <= ry * 12.0 + rx < idx as real + 1.0
    ensures ry * 12.0 + rx < 0.0 ==> idx as real - 1.0 < ry * 12.0 + rx <= idx as real
  {
    Trunc(ry * 12.0 + rx)
  }

  /** The cell in row y and column x, for whole coordinates, is the one
      the layout puts there. */
  lemma PointIndexWhole(x: int, y: int)
    requires 0 <= x < Width && 0 <= y < 8
    ensures PointIndex(x as real, y as real) == y * Width + x
    ensures 0 <= y * Width + x < CellCount
  {
  }

  /** The frames `flash(times, period)` loads: on, off, `times` times. */
  function FlashFrames(times: nat): (s: seq<Frame>)
    ensures |s| == 2 * times
    ensures forall k :: 0 <= k < |s| ==> s[k] == if k % 2 == 0 then FullOn else FullOff
  {
    if times == 0 then [] else FlashFrames(times - 1) + [FullOn, FullOff]
  }

  /** A flash always leaves the display dark: its last frame is all-off. */
  lemma FlashEndsDark(times: nat)
    requires times > 0
    ensures FlashFrames(times)[2 * times - 1] == FullOff
    ensures Cells(FlashFrames(times)[2 * times - 2]) == Lit
    ensures Cells(FlashFrames(times)[2 * times - 1]) == Dark
  {
    FullFrames(FullOff);
    FullOnLit(FullOff);
  }

  class LedMatrix {
    /** `m_frame`: the three words of the buffer. */
    var fi: UInt32
    var sc: UInt32
    var tr: UInt32
    /** The frames loaded into the driver, oldest first. */
    var sent: seq<Frame>
    /** Milliseconds spent in `delay`. */
    var waited: nat

    function Buffer(): Frame
      reads this
    {
      Frame(fi, sc, tr)
    }

    /** The buffer starts all-off; nothing has been loaded yet. */
    constructor ()
      ensures Buffer() == FullOff && sent == [] && waited == 0
    {
      fi, sc, tr := 0, 0, 0;
      sent, waited := [], 0;
    }

    /** `m_matrix->loadFrame(frame)` */
    method Load(frame: Frame)
      modifies this
      ensures sent == old(sent) + [frame]
      ensures Buffer() == old(Buffer()) && waited == old(waited)
    {
      sent := sent + [frame];
    }

    /** `set_bit(idx, val)`: ORs `val` into the bit that holds cell idx.
        Shifting by a negative amount or by 32 or more is undefined in
        C++, so idx must name a cell. */
    method SetBit(idx: int, val: bool)
      requires 0 <= idx < CellCount
      modifies this
      ensures Buffer() == WithBit(old(Buffer()), idx, val)
      ensures sent == old(sent) && waited == old(waited)
    {
      if idx < 32 {
        OrShifted(fi, val, 31 - idx, 0);
        fi := BitOr(fi, Shifted(val, 31 - idx));
      } else if idx < 64 {
        OrShifted(sc, val, 63 - idx, 0);
        sc := BitOr(sc, Shifted(val, 63 - idx));
      } else {
        OrShifted(tr, val, 95 - idx, 0);
        tr := BitOr(tr, Shifted(val, 95 - idx));
      }
    }

    /** `draw_point(rx, ry)`: lights the cell under the point. */
    method DrawPoint(rx: real, ry: real)
      requires 0 <= PointIndex(rx, ry) < CellCount
      modifies this
      ensures Buffer() == WithBit(old(Buffer()), PointIndex(rx, ry), true)
      ensures sent == old(sent) && waited == old(waited)
    {
      SetBit(Trunc(ry * 12.0 + rx), true);
    }

    /** The `set_digit` lambda of `generate_frame`: ORs glyph `dig` into
        the buffer with its top-left corner at row r, column c. */
    method SetDigit(dig: int, r: int, c: int)
      requires 0 <= dig <= Dash && 0 <= r <= 3 && 0 <= c <= 9
      modifies this
      ensures Cells(Buffer()) == Overlay(old(Cells(Buffer())), Glyph(dig, r, c, 15))
      ensures sent == old(sent) && waited == old(waited)
    {
      for i := 0 to 5
        invariant forall idx :: 0 <= idx < CellCount ==>
          Cell(Buffer(), idx) == (old(Cell(Buffer(), idx)) || GlyphCell(dig, r, c, 3 * i, idx))
        invariant sent == old(sent) && waited == old(waited)
      {
        var p := DigitsFont[dig][i];
        for j := 0 to 3
          invariant forall idx :: 0 <= idx < CellCount ==>
            Cell(Buffer(), idx) == (old(Cell(Buffer(), idx)) || GlyphCell(dig, r, c, 3 * i + j, idx))
          invariant sent == old(sent) && waited == old(waited)
        {
          ghost var before := Buffer();
          SetBit((r + i) * Width + (c + j), ShiftRight(p, 2 - j) % 2 == 1);
          forall idx | 0 <= idx < CellCount
            ensures Cell(Buffer(), idx) == (old(Cell(Buffer(), idx)) || GlyphCell(dig, r, c, 3 * i + j + 1, idx))
          {
            GlyphStep(dig, r, c, i, j, idx);
          }
        }
      }
      assert Cells(Buffer()) == Overlay(old(Cells(Buffer())), Glyph(dig, r, c, 15));
    }

    /** `generate_frame(a, b, c, d)`: ORs the rendering of the four codes
        into the buffer. */
    method GenerateFrame(a: UInt8, b: UInt8, c: UInt8, d: UInt8)
      modifies this
      ensures Cells(Buffer()) == Overlay(old(Cells(Buffer())), Render(Codes(a, b, c, d)))
      ensures sent == old(sent) && waited == old(waited)
    {
      ghost var start := Cells(Buffer());
      SetDigit(Constrain(a, 0, 16), 0, 0);
      SetDigit(Constrain(b, 0, 16), 0, 3);
      SetDigit(Constrain(c, 0, 16), 0, 6);
      SetDigit(Constrain(d, 0, 16), 0, 9);
      assert Cells(Buffer()) == Overlay(start, Render(Codes(a, b, c, d)));
    }

    /** `show()`: loads the buffer. */
    method Show()
      modifies this
      ensures sent == old(sent) + [Buffer()]
      ensures Buffer() == old(Buffer()) && waited == old(waited)
    {
      Load(Buffer());
    }

    /** `clean()`: empties the buffer without touching the display. */
    method Clean()
      modifies this
      ensures Buffer() == FullOff
      ensures sent == old(sent) && waited == old(waited)
    {
      fi, sc, tr := 0, 0, 0;
    }

    /** `clear()`: blanks the display; the buffer is kept. */
    method Clear()
      modifies this
      ensures sent == old(sent) + [FullOff]
      ensures Buffer() == old(Buffer()) && waited == old(waited)
    {
      Load(FullOff);
    }

    /** `fill()`: lights the whole display; the buffer is kept. */
    method Fill()
      modifies this
      ensures sent == old(sent) + [FullOn]
      ensures Buffer() == old(Buffer()) && waited == old(waited)
    {
      Load(FullOn);
    }

    /** `print(d0, d1, d2, d3)`: draws the four codes on a clean buffer and
        shows it. */
    method PrintCodes(d0: UInt8, d1: UInt8, d2: UInt8, d3: UInt8)
      modifies this
      ensures Cells(Buffer()) == Render(Codes(d0, d1, d2, d3))
      ensures sent == old(sent) + [Buffer()] && waited == old(waited)
    {
      Clean();
      FullFrames(FullOff);
      GenerateFrame(d0, d1, d2, d3);
      assert Cells(Buffer()) == Render(Codes(d0, d1, d2, d3));
      Show();
    }

    /** `print(val, base)`: shows val in the given base (10 by default),
        constrained to what four places can hold, with a leading dash for
        negative values. */
    method PrintValue(val: Int32, base: Int32 := 10)
      modifies this
      ensures Cells(Buffer()) == Render(ToCodes(val, base))
      ensures sent == old(sent) + [Buffer()] && waited == old(waited)
    {
      var b := Constrain(base, 2, 16);
      Positive3(b);
      var maxPositive := b * b * b * b - 1;
      var minNegative := -(b * b * b - 1);
      var v := Constrain(val, minNegative, maxPositive);
      var d0: UInt8, d1: UInt8, d2: UInt8, d3: UInt8;
      if v < 0 {
        d0 := 16;
        v := -v;
        d3 := v % b;
        v := v / b;
        d2 := v % b;
        v := v / b;
        d1 := v % b;
      } else {
        d3 := v % b;
        v := v / b;
        d2 := v % b;
        v := v / b;
        d1 := v % b;
        v := v / b;
        d0 := v % b;
      }
      assert Codes(d0, d1, d2, d3) == ToCodes(val, base);
      PrintCodes(d0, d1, d2, d3);
    }

    /** `flash(times, period)`: all-on, wait half a period, all-off, wait
        half a period, `times` times (3 and 100 ms by default). */
    method Flash(times: UInt8 := 3, period: UInt16 := 100)
      modifies this
      ensures sent == old(sent) + FlashFrames(times)
      ensures waited == old(waited) + times * (2 * (period / 2))
      ensures Buffer() == old(Buffer())
    {
      var i := 0;
      while i < times
        invariant 0 <= i <= times
        invariant sent == old(sent) + FlashFrames(i)
        invariant waited == old(waited) + i * (2 * (period / 2))
        invariant Buffer() == old(Buffer())
      {
        Load(FullOn);
        waited := waited + period / 2;
        Load(FullOff);
        waited := waited + period / 2;
        i := i + 1;
      }
    }
  }
}
