/** The byte composition of lcd_i2c.c: how a nibble, a byte, a string, a cursor move
    and the power-on sequence become expander transactions, and what the HD44780
    receives from each of them. */
module Protocol {
  import opened Bus

  /** Configuration defaults (the override mechanism is not modelled). */
  const LCD_I2C_ADDR: bv8 := 0x4E
  const LCD_TYPE: bv8 := 2

  const LCD_BACKLIGHT: bv8 := 0x08
  const LCD_NOBACKLIGHT: bv8 := 0x00

  const LCD_FIRST_ROW: bv8 := 0x80
  const LCD_SECOND_ROW: bv8 := 0xC0
  const LCD_THIRD_ROW: bv8 := 0x94
  const LCD_FOURTH_ROW: bv8 := 0xD4

  const LCD_CLEAR: bv8 := 0x01
  const LCD_RETURN_HOME: bv8 := 0x02
  const LCD_ENTRY_MODE_SET: bv8 := 0x04
  const LCD_CURSOR_OFF: bv8 := 0x0C
  const LCD_TURN_ON: bv8 := 0x0C
  const LCD_ENTRY_INC: bv8 := 0x02

  /** The function-set instruction sent once the controller is in 4-bit mode. */
  const FUNCTION_SET: bv8 := 0x20 | (LCD_TYPE << 2)

  /** The only two values the backlight field ever holds. */
  predicate BacklightLevel(bl: bv8)
  {
    bl == LCD_BACKLIGHT || bl == LCD_NOBACKLIGHT
  }

  // ---------------------------------------------------------------- steps

  /** What the driver does, call by call, in the terms of lcd_i2c.c. */
  datatype Step =
    | Expander(value: bv8)      // _lcd_expander_write(value)
    | Strobe(n: bv8, rs: bool)  // _lcd_write_nibble(n) while _lcd_rs holds rs
    | Send(v: bv8, rs: bool)    // _lcd_write_byte(v, rs)
    | Pause(ms: nat)            // delay_ms(ms)

  /** The expander byte for nibble n (aligned in the top four bits) with RS at rs,
      before the enable and backlight pins are added. */
  function NibbleFrame(n: bv8, rs: bool): (d: bv8)
    ensures d & DATA_MASK == n & DATA_MASK
    ensures d & (BL | EN | RW) == 0
    ensures (d & RS != 0) == rs
  {
    (n & 0xF0) | (if rs then 0x01 else 0x00)
  }

  /** The high nibble of v, in place. */
  function HighNibble(v: bv8): (h: bv8)
    ensures h & 0x0F == 0 && h | (v & 0x0F) == v
  {
    v & 0xF0
  }

  /** The low nibble of v, moved to the top (the shift drops the high nibble). */
  function LowNibble(v: bv8): (l: bv8)
    ensures l & 0x0F == 0 && l >> 4 == v & 0x0F
  {
    (v << 4) & 0xF0
  }

  /** The events of one step at address a with backlight bit bl: an expander write is
      one transaction with the backlight bit ORed in; a nibble is its frame with E low,
      with E high, a 1 us pulse, E low again and a 50 us settle; a byte is its high
      nibble, then its low nibble moved to the top. */
  function StepEvents(a: bv8, bl: bv8, s: Step): (evs: seq<Event>)
    ensures forall e :: e in evs && e.Write? ==> e.addr == a
    decreases match s case Send(_, _) => 2 case Strobe(_, _) => 1 case _ => 0
  {
    match s
    case Expander(x) => [Write(a, WithBacklight(x, bl))]
    case Strobe(n, rs) =>
      var d := NibbleFrame(n, rs);
      StepEvents(a, bl, Expander(d)) + StepEvents(a, bl, Expander(EnHigh(d))) + [DelayUs(1)]
      + StepEvents(a, bl, Expander(EnLow(d))) + [DelayUs(50)]
    case Send(v, rs) => StepEvents(a, bl, Strobe(HighNibble(v), rs)) + StepEvents(a, bl, Strobe(LowNibble(v), rs))
    case Pause(ms) => [DelayMs(ms)]
  }

  /** The events of a run of steps, in order. */
  function Render(a: bv8, bl: bv8, steps: seq<Step>): seq<Event>
  {
    if steps == [] then [] else StepEvents(a, bl, steps[0]) + Render(a, bl, steps[1..])
  }

  lemma {:induction false} RenderAppend(a: bv8, bl: bv8, xs: seq<Step>, ys: seq<Step>)
    ensures Render(a, bl, xs + ys) == Render(a, bl, xs) + Render(a, bl, ys)
  {
    if xs == [] {
      assert xs + ys == ys;
    } else {
      assert (xs + ys)[0] == xs[0] && (xs + ys)[1..] == xs[1..] + ys;
      RenderAppend(a, bl, xs[1..], ys);
    }
  }

  lemma RenderOne(a: bv8, bl: bv8, s: Step)
    ensures Render(a, bl, [s]) == StepEvents(a, bl, s)
  {
    assert [s][1..] == [];
  }

  /** A byte is its high nibble, then its low nibble. */
  lemma SendUnfold(a: bv8, bl: bv8, v: bv8, rs: bool)
    ensures StepEvents(a, bl, Send(v, rs))
         == StepEvents(a, bl, Strobe(HighNibble(v), rs)) + StepEvents(a, bl, Strobe(LowNibble(v), rs))
  {
  }

  /** One more step adds its events at the end. */
  lemma RenderSnoc(a: bv8, bl: bv8, steps: seq<Step>, s: Step)
    ensures Render(a, bl, steps + [s]) == Render(a, bl, steps) + StepEvents(a, bl, s)
  {
    RenderAppend(a, bl, steps, [s]);
    RenderOne(a, bl, s);
  }

  /** A trace that has had a run of steps appended, and then one more step, has had
      the longer run appended. */
  lemma RenderExtend(t: seq<Event>, a: bv8, bl: bv8, steps: seq<Step>, s: Step)
    ensures t + Render(a, bl, steps) + StepEvents(a, bl, s) == t + Render(a, bl, steps + [s])
  {
    RenderSnoc(a, bl, steps, s);
    AppendAssoc(t, Render(a, bl, steps), StepEvents(a, bl, s));
  }

  /** Running the next step of a run extends the part of the run already rendered. */
  lemma RenderPrefix(t: seq<Event>, a: bv8, bl: bv8, steps: seq<Step>, k: nat)
    requires k < |steps|
    ensures t + Render(a, bl, steps[..k]) + StepEvents(a, bl, steps[k]) == t + Render(a, bl, steps[..k + 1])
  {
    assert steps[..k + 1] == steps[..k] + [steps[k]];
    RenderExtend(t, a, bl, steps[..k], steps[k]);
  }

  /** Running the next two steps of a run, x and then y, extends the part already
      rendered. */
  lemma RenderPrefixTwo(a: bv8, bl: bv8, steps: seq<Step>, k: nat, x: Step, y: Step)
    requires k + 1 < |steps| && steps[k] == x && steps[k + 1] == y
    ensures Render(a, bl, steps[..k]) + StepEvents(a, bl, x) + StepEvents(a, bl, y)
         == Render(a, bl, steps[..k + 2])
  {
    RenderPrefix([], a, bl, steps, k);
    RenderPrefix([], a, bl, steps, k + 1);
    assert [] + Render(a, bl, steps[..k]) == Render(a, bl, steps[..k]);
    assert [] + Render(a, bl, steps[..k + 1]) == Render(a, bl, steps[..k + 1]);
  }

  lemma RenderAll(a: bv8, bl: bv8, steps: seq<Step>)
    ensures Render(a, bl, steps[..|steps|]) == Render(a, bl, steps)
  {
    assert steps[..|steps|] == steps;
  }

  /** An expander write issued on its own leaves E, RW and the backlight pin low. */
  predicate Quiet(s: Step)
  {
    s.Expander? ==> s.value & (BL | EN | RW) == 0
  }

  /** How many transactions a step puts on the bus. */
  function StepWrites(s: Step): nat
  {
    match s
    case Expander(_) => 1
    case Strobe(_, _) => 3
    case Send(_, _) => 6
    case Pause(_) => 0
  }

  function WriteCount(steps: seq<Step>): nat
  {
    if steps == [] then 0 else StepWrites(steps[0]) + WriteCount(steps[1..])
  }

  /** What the HD44780 is meant to receive from a step: a strobe hands over its nibble,
      a byte its high nibble and then its low nibble, each with the step's RS level. */
  function StepNibbles(s: Step): seq<Nibble>
  {
    match s
    case Expander(_) => []
    case Strobe(n, rs) => [Nibble(n & DATA_MASK, rs)]
    case Send(v, rs) => [Nibble(v & DATA_MASK, rs), Nibble((v << 4) & DATA_MASK, rs)]
    case Pause(_) => []
  }

  function Nibbles(steps: seq<Step>): seq<Nibble>
  {
    if steps == [] then [] else StepNibbles(steps[0]) + Nibbles(steps[1..])
  }

  lemma NibblesCons(s: Step, steps: seq<Step>)
    ensures Nibbles([s] + steps) == StepNibbles(s) + Nibbles(steps)
  {
    assert ([s] + steps)[0] == s && ([s] + steps)[1..] == steps;
  }

  // ---------------------------------------------------------------- one step on the wire

  /** One E pulse on byte x (E low, E high, wait, E low, wait) delivers one nibble. */
  lemma Pulse(a: bv8, x: bv8, us1: nat, us2: nat)
    requires x & EN == 0
    ensures var evs := [Write(a, x), Write(a, x | EN), DelayUs(us1), Write(a, x), DelayUs(us2)];
      && Writes(evs) == [Write(a, x), Write(a, x | EN), Write(a, x)]
      && Latches(evs, a, false) == [Nibble(x & DATA_MASK, x & RS != 0)]
      && !EnAfter(evs, a, false)
  {
    var e0, e1, e2, e3, e4 := Write(a, x), Write(a, x | EN), DelayUs(us1), Write(a, x), DelayUs(us2);
    assert [e4][1..] == [];
    assert [e3, e4][1..] == [e4];
    assert [e2, e3, e4][1..] == [e3, e4];
    assert [e1, e2, e3, e4][1..] == [e2, e3, e4];
    assert [e0, e1, e2, e3, e4][1..] == [e1, e2, e3, e4];
    assert Writes([e4]) == [] && Latches([e4], a, false) == [] && !EnAfter([e4], a, false);
    assert Writes([e3, e4]) == [e3] && Latches([e3, e4], a, true) == [Nibble(x & DATA_MASK, x & RS != 0)];
    assert Writes([e2, e3, e4]) == [e3];
    assert Writes([e1, e2, e3, e4]) == [e1, e3];
    assert EnAt(e1, a, false) && !EnAt(e3, a, true);
    assert !EnAfter([e2, e3, e4], a, true);
    assert EnAfter([e1, e2, e3, e4], a, false) == EnAfter([e2, e3, e4], a, true);
    assert Latches([e2, e3, e4], a, true) == [Nibble(x & DATA_MASK, x & RS != 0)];
    assert Latches([e1, e2, e3, e4], a, false) == [Nibble(x & DATA_MASK, x & RS != 0)];
  }

  /** The bits of one nibble byte with the backlight added, E low or high. */
  lemma FrameBits(x: bv8, n: bv8, rs: bool, bl: bv8)
    requires BacklightLevel(bl) && x == NibbleFrame(n, rs) | bl
    ensures x & EN == 0 && x & DATA_MASK == n & DATA_MASK
    ensures x & RW == 0 && x & BL == bl && (x & RS != 0) == rs
    ensures (x | EN) & RW == 0 && (x | EN) & BL == bl && ((x | EN) & RS != 0) == rs
  {
  }

  /** A nibble is one E pulse on its frame byte with the backlight bit. */
  lemma StrobeUnfold(a: bv8, bl: bv8, n: bv8, rs: bool)
    ensures var x := NibbleFrame(n, rs) | bl;
      StepEvents(a, bl, Strobe(n, rs)) == [Write(a, x), Write(a, x | EN), DelayUs(1), Write(a, x), DelayUs(50)]
  {
    FrameBytes(n, rs, bl);
  }

  /** The three bytes of a nibble, with E low, high and low again, and the backlight bit. */
  lemma FrameBytes(n: bv8, rs: bool, bl: bv8)
    ensures var d := NibbleFrame(n, rs);
      && WithBacklight(d, bl) == d | bl
      && WithBacklight(EnHigh(d), bl) == (d | bl) | EN
      && WithBacklight(EnLow(d), bl) == d | bl
  {
  }

  /** The three transactions of one nibble: E low, E high, E low, on the same byte. */
  lemma NibbleWrites(a: bv8, bl: bv8, n: bv8, rs: bool)
    requires BacklightLevel(bl)
    ensures var x := NibbleFrame(n, rs) | bl;
      Writes(StepEvents(a, bl, Strobe(n, rs))) == [Write(a, x), Write(a, x | EN), Write(a, x)]
  {
    StrobeUnfold(a, bl, n, rs);
    FrameBits(NibbleFrame(n, rs) | bl, n, rs, bl);
    Pulse(a, NibbleFrame(n, rs) | bl, 1, 50);
  }

  /** The controller latches exactly the nibble and RS level, and E ends low. */
  lemma NibbleLatch(a: bv8, bl: bv8, n: bv8, rs: bool)
    requires BacklightLevel(bl)
    ensures Latches(StepEvents(a, bl, Strobe(n, rs)), a, false) == [Nibble(n & DATA_MASK, rs)]
    ensures !EnAfter(StepEvents(a, bl, Strobe(n, rs)), a, false)
  {
    var x := NibbleFrame(n, rs) | bl;
    StrobeUnfold(a, bl, n, rs);
    FrameBits(x, n, rs, bl);
    Pulse(a, x, 1, 50);
  }

  /** Every transaction of a nibble goes to a, with RW low and the backlight bit. */
  lemma NibbleOnBus(a: bv8, bl: bv8, n: bv8, rs: bool)
    requires BacklightLevel(bl)
    ensures OnBus(StepEvents(a, bl, Strobe(n, rs)), a, bl)
  {
    var x := NibbleFrame(n, rs) | bl;
    var evs := StepEvents(a, bl, Strobe(n, rs));
    StrobeUnfold(a, bl, n, rs);
    FrameBits(x, n, rs, bl);
    assert forall i :: 0 <= i < |evs| ==> OnBusAt(evs[i], a, bl);
    OnBusEvery(evs, a, bl);
  }

  /** The bits of a quiet byte once the backlight bit is added. */
  lemma QuietBits(x: bv8, bl: bv8)
    requires BacklightLevel(bl) && x & (BL | EN | RW) == 0
    ensures WithBacklight(x, bl) == x | bl
    ensures (x | bl) & EN == 0 && (x | bl) & BL == bl && (x | bl) & RW == 0
  {
  }

  lemma NibbleMasks(v: bv8)
    ensures HighNibble(v) & DATA_MASK == v & DATA_MASK
    ensures LowNibble(v) & DATA_MASK == (v << 4) & DATA_MASK
    ensures (v << 4) & DATA_MASK == LowNibble(v)
  {
  }

  /** A byte is six transactions: three per nibble. */
  lemma ByteWriteCount(a: bv8, bl: bv8, v: bv8, rs: bool)
    requires BacklightLevel(bl)
    ensures |Writes(StepEvents(a, bl, Send(v, rs)))| == 6
  {
    NibbleWrites(a, bl, HighNibble(v), rs);
    NibbleWrites(a, bl, LowNibble(v), rs);
    WritesAppend(StepEvents(a, bl, Strobe(HighNibble(v), rs)), StepEvents(a, bl, Strobe(LowNibble(v), rs)));
  }

  /** Every transaction of a byte goes to a, with RW low and the backlight bit. */
  lemma ByteOnBus(a: bv8, bl: bv8, v: bv8, rs: bool)
    requires BacklightLevel(bl)
    ensures OnBus(StepEvents(a, bl, Send(v, rs)), a, bl)
  {
    NibbleOnBus(a, bl, HighNibble(v), rs);
    NibbleOnBus(a, bl, LowNibble(v), rs);
    OnBusAppend(StepEvents(a, bl, Strobe(HighNibble(v), rs)), StepEvents(a, bl, Strobe(LowNibble(v), rs)), a, bl);
  }

  /** The controller latches the high nibble of v, then its low nibble, both with RS =
      rs, and E ends low. */
  lemma ByteLatch(a: bv8, bl: bv8, v: bv8, rs: bool)
    requires BacklightLevel(bl)
    ensures Latches(StepEvents(a, bl, Send(v, rs)), a, false)
         == [Nibble(v & DATA_MASK, rs), Nibble((v << 4) & DATA_MASK, rs)]
    ensures !EnAfter(StepEvents(a, bl, Send(v, rs)), a, false)
  {
    NibbleLatch(a, bl, HighNibble(v), rs);
    NibbleLatch(a, bl, LowNibble(v), rs);
    LatchesAppend(StepEvents(a, bl, Strobe(HighNibble(v), rs)), StepEvents(a, bl, Strobe(LowNibble(v), rs)), a, false);
    NibbleMasks(v);
  }

  /** Each step puts StepWrites(s) transactions on the bus. */
  lemma StepWriteCount(a: bv8, bl: bv8, s: Step)
    requires BacklightLevel(bl)
    ensures |Writes(StepEvents(a, bl, s))| == StepWrites(s)
  {
    match s
    case Expander(x) => assert [Write(a, WithBacklight(x, bl))][1..] == [];
    case Strobe(n, rs) => NibbleWrites(a, bl, n, rs);
    case Send(v, rs) => ByteWriteCount(a, bl, v, rs);
    case Pause(ms) => DelayInvisible(DelayMs(ms), a, false, bl);
  }

  /** Every transaction of a quiet step goes to a, with RW low and the backlight bit. */
  lemma StepOnBus(a: bv8, bl: bv8, s: Step)
    requires BacklightLevel(bl) && Quiet(s)
    ensures OnBus(StepEvents(a, bl, s), a, bl)
  {
    match s
    case Expander(x) =>
      QuietBits(x, bl);
      assert [Write(a, WithBacklight(x, bl))][1..] == [];
    case Strobe(n, rs) => NibbleOnBus(a, bl, n, rs);
    case Send(v, rs) => ByteOnBus(a, bl, v, rs);
    case Pause(ms) => DelayInvisible(DelayMs(ms), a, false, bl);
  }

  /** The controller latches exactly StepNibbles(s) from a quiet step, and E ends low. */
  lemma StepLatch(a: bv8, bl: bv8, s: Step)
    requires BacklightLevel(bl) && Quiet(s)
    ensures Latches(StepEvents(a, bl, s), a, false) == StepNibbles(s)
    ensures !EnAfter(StepEvents(a, bl, s), a, false)
  {
    match s
    case Expander(x) =>
      QuietBits(x, bl);
      assert [Write(a, WithBacklight(x, bl))][1..] == [];
    case Strobe(n, rs) => NibbleLatch(a, bl, n, rs);
    case Send(v, rs) => ByteLatch(a, bl, v, rs);
    case Pause(ms) => DelayInvisible(DelayMs(ms), a, false, bl);
  }

  /** A run of steps puts WriteCount(steps) transactions on the bus. */
  lemma {:induction false} RenderWriteCount(a: bv8, bl: bv8, steps: seq<Step>)
    requires BacklightLevel(bl)
    ensures |Writes(Render(a, bl, steps))| == WriteCount(steps)
  {
    if steps != [] {
      StepWriteCount(a, bl, steps[0]);
      RenderWriteCount(a, bl, steps[1..]);
      WritesAppend(StepEvents(a, bl, steps[0]), Render(a, bl, steps[1..]));
    }
  }

  /** Every transaction of a run of quiet steps goes to a, with RW low and the
      backlight bit bl. */
  lemma {:induction false} RenderOnBus(a: bv8, bl: bv8, steps: seq<Step>)
    requires BacklightLevel(bl)
    requires forall s :: s in steps ==> Quiet(s)
    ensures OnBus(Render(a, bl, steps), a, bl)
  {
    if steps != [] {
      StepOnBus(a, bl, steps[0]);
      RenderOnBus(a, bl, steps[1..]);
      OnBusAppend(StepEvents(a, bl, steps[0]), Render(a, bl, steps[1..]), a, bl);
    }
  }

  /** Decoding: from a run of quiet steps the controller latches exactly Nibbles(steps),
      and E ends low. */
  lemma {:induction false} RenderLatch(a: bv8, bl: bv8, steps: seq<Step>)
    requires BacklightLevel(bl)
    requires forall s :: s in steps ==> Quiet(s)
    ensures Latches(Render(a, bl, steps), a, false) == Nibbles(steps)
    ensures !EnAfter(Render(a, bl, steps), a, false)
  {
    if steps != [] {
      StepLatch(a, bl, steps[0]);
      RenderLatch(a, bl, steps[1..]);
      LatchesAppend(StepEvents(a, bl, steps[0]), Render(a, bl, steps[1..]), a, false);
    }
  }

  // ---------------------------------------------------------------- bytes

  /** Putting the two nibbles of v back together gives v. */
  lemma NibblesJoin(v: bv8)
    ensures (v & DATA_MASK) | (((v << 4) & DATA_MASK) >> 4) == v
  {
  }

  /** Round trip: over the 4-bit interface the controller receives exactly v with
      register select rs, high nibble first, and E ends low. */
  lemma ByteRoundTrip(a: bv8, bl: bv8, v: bv8, rs: bool)
    requires BacklightLevel(bl)
    ensures Assemble(Latches(StepEvents(a, bl, Send(v, rs)), a, false)) == [Transfer(v, rs)]
    ensures !EnAfter(StepEvents(a, bl, Send(v, rs)), a, false)
  {
    ByteLatch(a, bl, v, rs);
    AssembleByte(v, rs);
  }

  /** The two nibbles of v, high first, assemble back into v. */
  lemma AssembleByte(v: bv8, rs: bool)
    ensures Assemble([Nibble(v & DATA_MASK, rs), Nibble((v << 4) & DATA_MASK, rs)]) == [Transfer(v, rs)]
  {
    var ns := [Nibble(v & DATA_MASK, rs), Nibble((v << 4) & DATA_MASK, rs)];
    assert ns[2..] == [];
    NibblesJoin(v);
  }

  /** Three transactions forming one E pulse for nibble n: all to a, RW low, the
      backlight bit bl and RS = rs on each; the first carries n in D7..D4 with E low,
      the second is the same byte with E high, the third repeats the first. */
  ghost predicate PulseShape(ws: seq<Event>, a: bv8, bl: bv8, n: bv8, rs: bool)
  {
    && |ws| == 3
    && (forall i :: 0 <= i < 3 ==>
          ws[i].Write? && ws[i].addr == a && ws[i].data & RW == 0 && ws[i].data & BL == bl
          && (ws[i].data & RS != 0) == rs)
    && ws[0].data & DATA_MASK == n & DATA_MASK
    && ws[0] == ws[2] && ws[0].data & EN == 0 && ws[1].data == ws[0].data | EN
  }

  /** The three transactions of one nibble form one E pulse carrying it. */
  lemma NibbleShape(a: bv8, bl: bv8, n: bv8, rs: bool)
    requires BacklightLevel(bl)
    ensures PulseShape(Writes(StepEvents(a, bl, Strobe(n, rs))), a, bl, n, rs)
  {
    NibbleWrites(a, bl, n, rs);
    FrameBits(NibbleFrame(n, rs) | bl, n, rs, bl);
  }

  /** _lcd_write_byte(v, rs) puts exactly six transactions on the bus, all to the current
      address: an E pulse carrying the high nibble of v, then one carrying its low
      nibble, each on a byte whose RS pin is rs, whose RW pin is low and whose backlight
      pin is the backlight field. */
  lemma ByteWriteShape(a: bv8, bl: bv8, v: bv8, rs: bool)
    requires BacklightLevel(bl)
    ensures var ws := Writes(StepEvents(a, bl, Send(v, rs)));
      && |ws| == 6
      && PulseShape(ws[..3], a, bl, v, rs)
      && PulseShape(ws[3..], a, bl, v << 4, rs)
  {
    var hi, lo := StepEvents(a, bl, Strobe(HighNibble(v), rs)), StepEvents(a, bl, Strobe(LowNibble(v), rs));
    NibbleShape(a, bl, HighNibble(v), rs);
    NibbleShape(a, bl, LowNibble(v), rs);
    WritesAppend(hi, lo);
    var ws := Writes(hi) + Writes(lo);
    assert ws[..3] == Writes(hi) && ws[3..] == Writes(lo);
    NibbleMasks(v);
    ShapeMask(Writes(hi), a, bl, HighNibble(v), v, rs);
    ShapeMask(Writes(lo), a, bl, LowNibble(v), v << 4, rs);
  }

  /** PulseShape only looks at the top four bits of the nibble. */
  lemma ShapeMask(ws: seq<Event>, a: bv8, bl: bv8, n: bv8, m: bv8, rs: bool)
    requires n & DATA_MASK == m & DATA_MASK
    requires PulseShape(ws, a, bl, n, rs)
    ensures PulseShape(ws, a, bl, m, rs)
  {
  }

  // ---------------------------------------------------------------- strings

  /** The characters lcd_print walks over: those before the first NUL. */
  function CString(text: seq<bv8>): (s: seq<bv8>)
    ensures |s| <= |text|
    ensures s == text[..|s|]
    ensures 0 !in s
    ensures 0 in text ==> |s| < |text| && text[|s|] == 0
    ensures 0 !in text ==> s == text
  {
    if text == [] || text[0] == 0 then []
    else [text[0]] + CString(text[1..])
  }

  /** Nothing after the first NUL is ever printed. */
  lemma CStringStops(s: seq<bv8>, rest: seq<bv8>)
    requires 0 !in s
    ensures CString(s + [0] + rest) == s
  {
    var t := s + [0] + rest;
    assert t[|s|] == 0;
  }

  /** lcd_print over s: each character as a byte to the data register. */
  function DataSteps(s: seq<bv8>): (steps: seq<Step>)
    ensures |steps| == |s|
  {
    seq(|s|, i requires 0 <= i < |s| => Send(s[i], true))
  }

  /** Each character sent as data is received as that character: the bytes the
      controller assembles from the nibbles of DataSteps(s) are s, each with RS = 1. */
  /** Printing a non-empty text hands over its first character, then the rest. */
  lemma DataNibblesCons(s: seq<bv8>)
    requires s != []
    ensures Nibbles(DataSteps(s))
         == [Nibble(s[0] & DATA_MASK, true), Nibble((s[0] << 4) & DATA_MASK, true)] + Nibbles(DataSteps(s[1..]))
  {
    assert DataSteps(s) == [Send(s[0], true)] + DataSteps(s[1..]);
    NibblesCons(Send(s[0], true), DataSteps(s[1..]));
  }

  lemma {:induction false} DataNibbles(s: seq<bv8>)
    ensures |Nibbles(DataSteps(s))| == 2 * |s|
    ensures Assemble(Nibbles(DataSteps(s))) == seq(|s|, i requires 0 <= i < |s| => Transfer(s[i], true))
  {
    if s != [] {
      var head := [Nibble(s[0] & DATA_MASK, true), Nibble((s[0] << 4) & DATA_MASK, true)];
      DataNibblesCons(s);
      DataNibbles(s[1..]);
      AssembleAppend(head, Nibbles(DataSteps(s[1..])));
      AssembleByte(s[0], true);
    }
  }

  /** Scanning text from the start, the first NUL is met exactly at the end of
      CString(text), and every character before it is the one CString keeps. */
  lemma CStringAt(text: seq<bv8>, i: nat)
    requires 0 in text && i <= |CString(text)|
    ensures i < |text|
    ensures text[i] == 0 <==> i == |CString(text)|
    ensures i < |CString(text)| ==> CString(text)[i] == text[i]
  {
  }

  /** Printing one more character of s adds one data byte at the end. */
  lemma DataStepsNext(s: seq<bv8>, i: nat)
    requires i < |s|
    ensures DataSteps(s[..i + 1]) == DataSteps(s[..i]) + [Send(s[i], true)]
  {
  }

  /** Round trip for text: printing s puts six transactions per character on the bus,
      all to the current address with the current backlight bit and RW low, and the
      controller receives the characters of s, in order, each in the data register. */
  lemma DataRoundTrip(a: bv8, bl: bv8, s: seq<bv8>)
    requires BacklightLevel(bl)
    ensures |Writes(Render(a, bl, DataSteps(s)))| == 6 * |s|
    ensures OnBus(Render(a, bl, DataSteps(s)), a, bl)
    ensures var ts := Assemble(Latches(Render(a, bl, DataSteps(s)), a, false));
      |ts| == |s| && forall i :: 0 <= i < |s| ==> ts[i] == Transfer(s[i], true)
    ensures !EnAfter(Render(a, bl, DataSteps(s)), a, false)
  {
    RenderWriteCount(a, bl, DataSteps(s));
    RenderOnBus(a, bl, DataSteps(s));
    RenderLatch(a, bl, DataSteps(s));
    DataNibbles(s);
    DataWriteCount(s);
  }

  lemma {:induction false} DataWriteCount(s: seq<bv8>)
    ensures WriteCount(DataSteps(s)) == 6 * |s|
  {
    if s != [] {
      assert DataSteps(s)[1..] == DataSteps(s[1..]);
      DataWriteCount(s[1..]);
    }
  }

  // ---------------------------------------------------------------- cursor addressing

  /** The DDRAM instruction base of a row: rows 1 to 3 have their own, every other
      value (0 and anything above 3 included) falls back to the fourth row's. */
  function RowBase(row: bv8): (b: bv8)
    ensures b & 0x80 == 0x80
    ensures b == 0x80 || b == 0xC0 || b == 0x94 || b == 0xD4
  {
    if row == 1 then LCD_FIRST_ROW
    else if row == 2 then LCD_SECOND_ROW
    else if row == 3 then LCD_THIRD_ROW
    else LCD_FOURTH_ROW
  }

  /** The instruction lcd_gotoxy sends: column 0 is taken as column 1, and the sum is
      computed in 8 bits. */
  function GotoAddress(col: bv8, row: bv8): (r: bv8)
    ensures col <= 1 ==> r == RowBase(row)
    ensures col != 0 ==> r - (col - 1) == RowBase(row)
  {
    var c := if col == 0 then 1 else col;
    RowBase(row) + (c - 1)
  }

  /** The DDRAM address of the first cell of each row of a four-line HD44780 display. */
  function RowStart(row: int): int
  {
    if row == 1 then 0x00 else if row == 2 then 0x40 else if row == 3 then 0x14 else 0x54
  }

  /** Within a 20-column, 4-row display, lcd_gotoxy issues the Set DDRAM Address
      instruction (bit 7 set) for the cell at that row and column. */
  lemma GotoCell(col: bv8, row: bv8)
    requires 1 <= row <= 4 && 1 <= col <= 20
    ensures GotoAddress(col, row) & 0x80 == 0x80
    ensures (GotoAddress(col, row) & 0x7F) as int == RowStart(row as int) + col as int - 1
  {
  }

  /** Rows 1, 2 and 3 select bases 0x80, 0xC0 and 0x94; every other row value behaves
      as row 4 (base 0xD4); column 0 behaves as column 1. */
  lemma GotoRows(col: bv8, row: bv8)
    ensures row == 1 ==> GotoAddress(1, row) == 0x80
    ensures row == 2 ==> GotoAddress(1, row) == 0xC0
    ensures row == 3 ==> GotoAddress(1, row) == 0x94
    ensures !(1 <= row <= 3) ==> GotoAddress(col, row) == GotoAddress(col, 4) && GotoAddress(1, row) == 0xD4
    ensures GotoAddress(0, row) == GotoAddress(1, row)
  {
  }

  /** With no bounds check, a large column wraps around: lcd_gotoxy(46, 4) sends the
      Clear Display instruction rather than a cursor move. */
  lemma GotoWraps()
    ensures GotoAddress(46, 4) == LCD_CLEAR
  {
  }

  // ---------------------------------------------------------------- commands and init

  lemma {:induction false} NibblesAppend(xs: seq<Step>, ys: seq<Step>)
    ensures Nibbles(xs + ys) == Nibbles(xs) + Nibbles(ys)
  {
    if xs == [] {
      assert xs + ys == ys;
    } else {
      assert (xs + ys)[0] == xs[0] && (xs + ys)[1..] == xs[1..] + ys;
      NibblesAppend(xs[1..], ys);
    }
  }

  lemma {:induction false} WriteCountAppend(xs: seq<Step>, ys: seq<Step>)
    ensures WriteCount(xs + ys) == WriteCount(xs) + WriteCount(ys)
  {
    if xs == [] {
      assert xs + ys == ys;
    } else {
      assert (xs + ys)[0] == xs[0] && (xs + ys)[1..] == xs[1..] + ys;
      WriteCountAppend(xs[1..], ys);
    }
  }

  /** Bare nibbles with RS = 0, each followed by 5 ms: the 8-bit-mode part of lcd_init. */
  function WakeSteps(ns: seq<bv8>): seq<Step>
  {
    if ns == [] then [] else [Strobe(ns[0], false), Pause(5)] + WakeSteps(ns[1..])
  }

  /** Instructions (RS = 0), each followed by ms milliseconds. */
  function CommandSteps(cmds: seq<bv8>, ms: nat): seq<Step>
  {
    if cmds == [] then [] else [Send(cmds[0], false), Pause(ms)] + CommandSteps(cmds[1..], ms)
  }

  /** The controller latches each wake-up nibble in order, with RS = 0. */
  lemma {:induction false} WakeNibbles(ns: seq<bv8>)
    ensures Nibbles(WakeSteps(ns)) == seq(|ns|, i requires 0 <= i < |ns| => Nibble(ns[i] & DATA_MASK, false))
  {
    if ns != [] {
      var head := [Strobe(ns[0], false), Pause(5)];
      NibblesAppend(head, WakeSteps(ns[1..]));
      assert head[1..][1..] == [];
      WakeNibbles(ns[1..]);
    }
  }

  /** Three transactions per wake-up nibble, and no bare expander write among them. */
  lemma {:induction false} WakeWrites(ns: seq<bv8>)
    ensures WriteCount(WakeSteps(ns)) == 3 * |ns|
    ensures forall s :: s in WakeSteps(ns) ==> !s.Expander?
  {
    if ns != [] {
      var head := [Strobe(ns[0], false), Pause(5)];
      WriteCountAppend(head, WakeSteps(ns[1..]));
      assert head[1..][1..] == [];
      WakeWrites(ns[1..]);
    }
  }

  /** The nibbles of one instruction followed by its wait. */
  lemma CommandHead(c: bv8, ms: nat)
    ensures Nibbles([Send(c, false), Pause(ms)]) == [Nibble(c & DATA_MASK, false), Nibble((c << 4) & DATA_MASK, false)]
  {
    var head := [Send(c, false), Pause(ms)];
    assert head[1..] == [Pause(ms)] && head[1..][1..] == [];
    assert Nibbles(head[1..]) == [];
  }

  /** The controller receives each instruction in order, in the instruction register. */
  lemma {:induction false} CommandNibbles(cmds: seq<bv8>, ms: nat)
    ensures |Nibbles(CommandSteps(cmds, ms))| == 2 * |cmds|
    ensures Assemble(Nibbles(CommandSteps(cmds, ms)))
         == seq(|cmds|, i requires 0 <= i < |cmds| => Transfer(cmds[i], false))
  {
    if cmds != [] {
      var head := [Send(cmds[0], false), Pause(ms)];
      var rest := Nibbles(CommandSteps(cmds[1..], ms));
      NibblesAppend(head, CommandSteps(cmds[1..], ms));
      CommandHead(cmds[0], ms);
      CommandNibbles(cmds[1..], ms);
      AssembleAppend(Nibbles(head), rest);
      AssembleByte(cmds[0], false);
    }
  }

  /** Six transactions per instruction, and no bare expander write among them. */
  lemma {:induction false} CommandWrites(cmds: seq<bv8>, ms: nat)
    ensures WriteCount(CommandSteps(cmds, ms)) == 6 * |cmds|
    ensures forall s :: s in CommandSteps(cmds, ms) ==> !s.Expander?
  {
    if cmds != [] {
      var head := [Send(cmds[0], false), Pause(ms)];
      WriteCountAppend(head, CommandSteps(cmds[1..], ms));
      assert head[1..][1..] == [];
      CommandWrites(cmds[1..], ms);
    }
  }

  /** Initialisation by instruction: 0x3 three times forces 8-bit mode, 0x2 enters 4-bit mode. */
  const WAKE_NIBBLES: seq<bv8> := [0x30, 0x30, 0x30, 0x20]

  /** Function set, display on, clear, entry mode with increment, cursor off. */
  const CONFIG_COMMANDS: seq<bv8> :=
    [FUNCTION_SET, LCD_TURN_ON, LCD_CLEAR, LCD_ENTRY_MODE_SET | LCD_ENTRY_INC, LCD_CURSOR_OFF]

  /** lcd_init once the fields hold their defaults: the idle byte and 40 ms, the
      wake-up nibbles, then the configuration instructions, 5 ms apart. */
  const INIT_STEPS: seq<Step> := [Expander(0), Pause(40)] + WakeSteps(WAKE_NIBBLES) + CommandSteps(CONFIG_COMMANDS, 5)

  /** lcd_init's steps, call by call, position by position. */
  lemma InitStepAt()
    ensures |INIT_STEPS| == 20
    ensures INIT_STEPS[0] == Expander(0) && INIT_STEPS[1] == Pause(40)
    ensures INIT_STEPS[2] == Strobe(0x30, false) && INIT_STEPS[3] == Pause(5)
    ensures INIT_STEPS[4] == Strobe(0x30, false) && INIT_STEPS[5] == Pause(5)
    ensures INIT_STEPS[6] == Strobe(0x30, false) && INIT_STEPS[7] == Pause(5)
    ensures INIT_STEPS[8] == Strobe(0x20, false) && INIT_STEPS[9] == Pause(5)
    ensures INIT_STEPS[10] == Send(FUNCTION_SET, false) && INIT_STEPS[11] == Pause(5)
    ensures INIT_STEPS[12] == Send(LCD_TURN_ON, false) && INIT_STEPS[13] == Pause(5)
    ensures INIT_STEPS[14] == Send(LCD_CLEAR, false) && INIT_STEPS[15] == Pause(5)
    ensures INIT_STEPS[16] == Send(LCD_ENTRY_MODE_SET | LCD_ENTRY_INC, false) && INIT_STEPS[17] == Pause(5)
    ensures INIT_STEPS[18] == Send(LCD_CURSOR_OFF, false) && INIT_STEPS[19] == Pause(5)
  {
    var ns, cs := WAKE_NIBBLES, CONFIG_COMMANDS;
    assert ns[1..][1..][1..][1..] == [];
    assert WakeSteps(ns[3..]) == [Strobe(0x20, false), Pause(5)];
    assert WakeSteps(ns[2..]) == [Strobe(0x30, false), Pause(5)] + WakeSteps(ns[3..]);
    assert WakeSteps(ns[1..]) == [Strobe(0x30, false), Pause(5)] + WakeSteps(ns[2..]);
    assert cs[1..][1..][1..][1..][1..] == [];
    assert CommandSteps(cs[4..], 5) == [Send(cs[4], false), Pause(5)];
    assert CommandSteps(cs[3..], 5) == [Send(cs[3], false), Pause(5)] + CommandSteps(cs[4..], 5);
    assert CommandSteps(cs[2..], 5) == [Send(cs[2], false), Pause(5)] + CommandSteps(cs[3..], 5);
    assert CommandSteps(cs[1..], 5) == [Send(cs[1], false), Pause(5)] + CommandSteps(cs[2..], 5);
  }

  /** lcd_init's events are those of its twenty calls, one after the other, once the
      fields hold their defaults. */
  lemma InitRender()
    ensures var a, bl := LCD_I2C_ADDR, LCD_BACKLIGHT;
      Render(a, bl, INIT_STEPS)
      == [] + StepEvents(a, bl, Expander(0)) + StepEvents(a, bl, Pause(40))
       + StepEvents(a, bl, Strobe(0x30, false)) + StepEvents(a, bl, Pause(5))
       + StepEvents(a, bl, Strobe(0x30, false)) + StepEvents(a, bl, Pause(5))
       + StepEvents(a, bl, Strobe(0x30, false)) + StepEvents(a, bl, Pause(5))
       + StepEvents(a, bl, Strobe(0x20, false)) + StepEvents(a, bl, Pause(5))
       + StepEvents(a, bl, Send(FUNCTION_SET, false)) + StepEvents(a, bl, Pause(5))
       + StepEvents(a, bl, Send(LCD_TURN_ON, false)) + StepEvents(a, bl, Pause(5))
       + StepEvents(a, bl, Send(LCD_CLEAR, false)) + StepEvents(a, bl, Pause(5))
       + StepEvents(a, bl, Send(LCD_ENTRY_MODE_SET | LCD_ENTRY_INC, false))
       + StepEvents(a, bl, Pause(5)) + StepEvents(a, bl, Send(LCD_CURSOR_OFF, false))
       + StepEvents(a, bl, Pause(5))
  {
    var a, bl := LCD_I2C_ADDR, LCD_BACKLIGHT;
    InitStepAt();
    assert Render(a, bl, INIT_STEPS[..0]) == [];
    RenderPrefixTwo(a, bl, INIT_STEPS, 0, Expander(0), Pause(40));
    RenderPrefixTwo(a, bl, INIT_STEPS, 2, Strobe(0x30, false), Pause(5));
    RenderPrefixTwo(a, bl, INIT_STEPS, 4, Strobe(0x30, false), Pause(5));
    RenderPrefixTwo(a, bl, INIT_STEPS, 6, Strobe(0x30, false), Pause(5));
    RenderPrefixTwo(a, bl, INIT_STEPS, 8, Strobe(0x20, false), Pause(5));
    RenderPrefixTwo(a, bl, INIT_STEPS, 10, Send(FUNCTION_SET, false), Pause(5));
    RenderPrefixTwo(a, bl, INIT_STEPS, 12, Send(LCD_TURN_ON, false), Pause(5));
    RenderPrefixTwo(a, bl, INIT_STEPS, 14, Send(LCD_CLEAR, false), Pause(5));
    RenderPrefixTwo(a, bl, INIT_STEPS, 16, Send(LCD_ENTRY_MODE_SET | LCD_ENTRY_INC, false), Pause(5));
    RenderPrefixTwo(a, bl, INIT_STEPS, 18, Send(LCD_CURSOR_OFF, false), Pause(5));
    RenderAll(a, bl, INIT_STEPS);
  }

  /** lcd_init's steps: the idle byte, the wake-up nibbles, the configuration. */
  lemma InitParts()
    ensures INIT_STEPS == [Expander(0), Pause(40)] + WakeSteps(WAKE_NIBBLES) + CommandSteps(CONFIG_COMMANDS, 5)
    ensures forall s :: s in INIT_STEPS ==> Quiet(s)
    ensures WriteCount(INIT_STEPS) == 43
  {
    var head, wake, config := [Expander(0), Pause(40)], WakeSteps(WAKE_NIBBLES), CommandSteps(CONFIG_COMMANDS, 5);
    WakeWrites(WAKE_NIBBLES);
    CommandWrites(CONFIG_COMMANDS, 5);
    assert Quiet(Expander(0));
    assert head[1..][1..] == [];
    WriteCountAppend(head, wake);
    WriteCountAppend(head + wake, config);
  }

  /** lcd_init puts 43 transactions on the bus, all to LCD_I2C_ADDR with the backlight
      on and RW low, the first being the idle byte 0x08, and E ends low. */
  lemma InitTransactions()
    ensures var evs := Render(LCD_I2C_ADDR, LCD_BACKLIGHT, INIT_STEPS);
      && |Writes(evs)| == 43
      && Writes(evs)[0] == Write(0x4E, 0x08)
      && OnBus(evs, LCD_I2C_ADDR, LCD_BACKLIGHT)
      && !EnAfter(evs, LCD_I2C_ADDR, false)
  {
    var a, bl := LCD_I2C_ADDR, LCD_BACKLIGHT;
    InitParts();
    RenderWriteCount(a, bl, INIT_STEPS);
    RenderOnBus(a, bl, INIT_STEPS);
    RenderLatch(a, bl, INIT_STEPS);
    assert INIT_STEPS == [Expander(0)] + INIT_STEPS[1..];
    RenderAppend(a, bl, [Expander(0)], INIT_STEPS[1..]);
    RenderOne(a, bl, Expander(0));
    QuietBits(0, bl);
    WritesAppend(StepEvents(a, bl, Expander(0)), Render(a, bl, INIT_STEPS[1..]));
  }

  /** The wake-up part of lcd_init hands over 0x3, 0x3, 0x3, 0x2 with RS = 0. */
  lemma WakeValues()
    ensures Nibbles(WakeSteps(WAKE_NIBBLES))
         == [Nibble(0x30, false), Nibble(0x30, false), Nibble(0x30, false), Nibble(0x20, false)]
  {
    WakeNibbles(WAKE_NIBBLES);
  }

  /** The configuration part of lcd_init hands over 0x28, 0x0C, 0x01, 0x06, 0x0C. */
  lemma ConfigValues()
    ensures |Nibbles(CommandSteps(CONFIG_COMMANDS, 5))| == 10
    ensures Assemble(Nibbles(CommandSteps(CONFIG_COMMANDS, 5)))
         == [Transfer(0x28, false), Transfer(0x0C, false), Transfer(0x01, false),
             Transfer(0x06, false), Transfer(0x0C, false)]
  {
    CommandNibbles(CONFIG_COMMANDS, 5);
  }

  /** After a prefix that hands over nothing, the nibbles of two runs of steps are
      found one after the other. */
  lemma NibblesSplit(head: seq<Step>, xs: seq<Step>, ys: seq<Step>)
    requires Nibbles(head) == []
    ensures Nibbles(head + xs + ys) == Nibbles(xs) + Nibbles(ys)
  {
    NibblesAppend(head, xs);
    NibblesAppend(head + xs, ys);
  }

  /** From lcd_init the controller latches the wake-up nibbles 0x3, 0x3, 0x3, 0x2 and
      then, in 4-bit mode, receives the instructions 0x28, 0x0C, 0x01, 0x06, 0x0C, all
      with RS = 0. */
  lemma InitSequence()
    ensures var ns := Latches(Render(LCD_I2C_ADDR, LCD_BACKLIGHT, INIT_STEPS), LCD_I2C_ADDR, false);
      && |ns| == 14
      && ns[..4] == [Nibble(0x30, false), Nibble(0x30, false), Nibble(0x30, false), Nibble(0x20, false)]
      && Assemble(ns[4..]) == [Transfer(0x28, false), Transfer(0x0C, false), Transfer(0x01, false),
                               Transfer(0x06, false), Transfer(0x0C, false)]
  {
    var head, wake, config := [Expander(0), Pause(40)], WakeSteps(WAKE_NIBBLES), CommandSteps(CONFIG_COMMANDS, 5);
    InitParts();
    RenderLatch(LCD_I2C_ADDR, LCD_BACKLIGHT, INIT_STEPS);
    assert head[1..][1..] == [];
    NibblesSplit(head, wake, config);
    WakeValues();
    ConfigValues();
    var ns := Nibbles(wake) + Nibbles(config);
    assert ns[..4] == Nibbles(wake) && ns[4..] == Nibbles(config);
  }

  /** If E was high before the first step, the idle byte is itself a falling edge: in
      this decoder, which samples every falling edge of E, the controller additionally
      latches a zero nibble before anything the steps mean to send. */
  lemma IdleFromEnableHigh(a: bv8, bl: bv8, rest: seq<Step>)
    requires BacklightLevel(bl)
    ensures Latches(Render(a, bl, [Expander(0)] + rest), a, true)
         == [Nibble(0x00, false)] + Latches(Render(a, bl, [Expander(0)] + rest), a, false)
  {
    var w := Write(a, WithBacklight(0, bl));
    RenderAppend(a, bl, [Expander(0)], rest);
    RenderOne(a, bl, Expander(0));
    assert Render(a, bl, [Expander(0)] + rest) == [w] + Render(a, bl, rest);
    LatchesCons(w, Render(a, bl, rest), a, true);
    LatchesCons(w, Render(a, bl, rest), a, false);
  }

  /** lcd_init run while E is high latches a spurious zero nibble first. */
  lemma InitFromEnableHigh()
    ensures Latches(Render(LCD_I2C_ADDR, LCD_BACKLIGHT, INIT_STEPS), LCD_I2C_ADDR, true)
         == [Nibble(0x00, false)] + Latches(Render(LCD_I2C_ADDR, LCD_BACKLIGHT, INIT_STEPS), LCD_I2C_ADDR, false)
  {
    assert INIT_STEPS == [Expander(0)] + INIT_STEPS[1..];
    IdleFromEnableHigh(LCD_I2C_ADDR, LCD_BACKLIGHT, INIT_STEPS[1..]);
  }

  // ---------------------------------------------------------------- other displays

  /** Every transaction of a run of steps goes to the address it is rendered at. */
  lemma {:induction false} RenderAddressed(a: bv8, bl: bv8, steps: seq<Step>)
    ensures forall e :: e in Render(a, bl, steps) && e.Write? ==> e.addr == a
  {
    if steps != [] {
      RenderAddressed(a, bl, steps[1..]);
    }
  }

  /** After lcd_set_addr(a) retargets the driver, a display behind another expander
      address dev latches nothing from whatever the driver sends, and its E pin keeps
      its level. */
  lemma OtherDisplayUntouched(a: bv8, dev: bv8, bl: bv8, steps: seq<Step>, en: bool)
    requires a != dev
    ensures Latches(Render(a, bl, steps), dev, en) == []
    ensures EnAfter(Render(a, bl, steps), dev, en) == en
  {
    var evs := Render(a, bl, steps);
    RenderAddressed(a, bl, steps);
    assert forall i :: 0 <= i < |evs| ==> evs[i] in evs;
    LatchesElsewhere(evs, a, dev, en);
  }

  // ---------------------------------------------------------------- print at a position

  /** lcd_print_xy(col, row, text) with s the characters before the NUL: the controller
      receives the cursor instruction in the instruction register, then the characters of
      s in order in the data register. */
  lemma PrintXyRoundTrip(a: bv8, bl: bv8, col: bv8, row: bv8, s: seq<bv8>)
    requires BacklightLevel(bl)
    ensures var ts := Assemble(Latches(Render(a, bl, [Send(GotoAddress(col, row), false)] + DataSteps(s)), a, false));
      && |ts| == 1 + |s|
      && ts[0] == Transfer(GotoAddress(col, row), false)
      && forall i :: 0 <= i < |s| ==> ts[i + 1] == Transfer(s[i], true)
  {
    var go := Send(GotoAddress(col, row), false);
    var head, body := StepEvents(a, bl, go), Render(a, bl, DataSteps(s));
    RenderAppend(a, bl, [go], DataSteps(s));
    RenderOne(a, bl, go);
    LatchesAppend(head, body, a, false);
    ByteLatch(a, bl, GotoAddress(col, row), false);
    ByteRoundTrip(a, bl, GotoAddress(col, row), false);
    DataRoundTrip(a, bl, s);
    AssembleAppend(Latches(head, a, false), Latches(body, a, false));
  }

  /** lcd_print_xy(1, 2, "LCD I2C OK"): the instruction 0xC0 (row 2, column 1), then the
      ten characters, with no wrapping or truncation. */
  lemma PrintXyExample()
    ensures var text: seq<bv8> := [0x4C, 0x43, 0x44, 0x20, 0x49, 0x32, 0x43, 0x20, 0x4F, 0x4B, 0x00];
      var ts := Assemble(Latches(Render(LCD_I2C_ADDR, LCD_BACKLIGHT,
                  [Send(GotoAddress(1, 2), false)] + DataSteps(CString(text))), LCD_I2C_ADDR, false));
      && |ts| == 11
      && ts[0] == Transfer(0xC0, false)
      && forall i :: 1 <= i < 11 ==> ts[i] == Transfer(text[i - 1], true)
  {
    var text: seq<bv8> := [0x4C, 0x43, 0x44, 0x20, 0x49, 0x32, 0x43, 0x20, 0x4F, 0x4B, 0x00];
    assert text == text[..10] + [0] + [];
    CStringStops(text[..10], []);
    GotoRows(1, 2);
    PrintXyRoundTrip(LCD_I2C_ADDR, LCD_BACKLIGHT, 1, 2, text[..10]);
  }
}
