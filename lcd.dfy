/** The driver of lcd_i2c.c: one display whose state is three module-level fields,
    and whose every operation appends I2C transactions (and busy-waits) to the bus. */
module LcdI2c {
  import opened Bus
  import opened Protocol

  class Lcd {
    /** _lcd_rs: the RS level of the byte being sent (int1). */
    var rs: bool
    /** _lcd_i2c_addr: the address byte every transaction starts with. */
    var addr: bv8
    /** _lcd_backlight: ORed into every data byte put on the bus. */
    var backlight: bv8
    /** Everything the driver has put on the bus, busy-waits included, in order. */
    var trace: seq<Event>
    /** Where the trace stood when the address or the backlight last changed. */
    ghost var since: nat

    /** The backlight field holds one of its two levels, and every transaction since
        the address or backlight last changed went to addr with the backlight bit equal
        to the backlight field and RW low. */
    ghost predicate Valid()
      reads this
    {
      && BacklightLevel(backlight)
      && since <= |trace|
      && OnBus(trace[since..], addr, backlight)
    }

    /** The static initialisers of the three fields. */
    constructor ()
      ensures Valid()
      ensures !rs && addr == LCD_I2C_ADDR && backlight == LCD_BACKLIGHT && trace == []
    {
      rs, addr, backlight, trace := false, LCD_I2C_ADDR, LCD_BACKLIGHT, [];
      since := 0;
    }

    /** delay_us: recorded in the trace, not timed. */
    method WaitUs(us: nat)
      modifies this`trace
      ensures trace == old(trace) + [DelayUs(us)]
    {
      trace := trace + [DelayUs(us)];
    }

    /** delay_ms: recorded in the trace, not timed. */
    method WaitMs(ms: nat)
      modifies this`trace
      ensures trace == old(trace) + StepEvents(addr, backlight, Pause(ms))
    {
      trace := trace + [DelayMs(ms)];
    }

    /** _lcd_expander_write: one transaction to the current address carrying value
        with the backlight bit ORed in. */
    method ExpanderWrite(value: bv8)
      modifies this`trace
      ensures trace == old(trace) + StepEvents(addr, backlight, Expander(value))
    {
      trace := trace + [Write(addr, value | backlight)];
    }

    /** _lcd_write_nibble: the nibble and RS with E low, E high, E low. */
    method WriteNibble(n: bv8)
      modifies this`trace
      ensures trace == old(trace) + StepEvents(addr, backlight, Strobe(n, rs))
    {
      ghost var t0, a, bl := trace, addr, backlight;
      var data := NibbleFrame(n, rs);
      ExpanderWrite(data);
      ghost var done := StepEvents(a, bl, Expander(data));
      ExpanderWrite(EnHigh(data));
      AppendAssoc(t0, done, StepEvents(a, bl, Expander(EnHigh(data))));
      done := done + StepEvents(a, bl, Expander(EnHigh(data)));
      WaitUs(1);
      AppendAssoc(t0, done, [DelayUs(1)]);
      done := done + [DelayUs(1)];
      ExpanderWrite(EnLow(data));
      AppendAssoc(t0, done, StepEvents(a, bl, Expander(EnLow(data))));
      done := done + StepEvents(a, bl, Expander(EnLow(data)));
      WaitUs(50);
      AppendAssoc(t0, done, [DelayUs(50)]);
      done := done + [DelayUs(50)];
      assert done == StepEvents(a, bl, Strobe(n, rs));
    }

    /** _lcd_write_byte: sets RS, then sends the high nibble and the low nibble. */
    method WriteByte(value: bv8, isData: bool)
      modifies this`rs, this`trace
      ensures rs == isData
      ensures trace == old(trace) + StepEvents(addr, backlight, Send(value, isData))
    {
      ghost var t0, a, bl := trace, addr, backlight;
      ghost var hi := StepEvents(a, bl, Strobe(HighNibble(value), isData));
      ghost var lo := StepEvents(a, bl, Strobe(LowNibble(value), isData));
      rs := isData;
      WriteNibble(HighNibble(value));
      WriteNibble(LowNibble(value));
      SendUnfold(a, bl, value, isData);
      AppendAssoc(t0, hi, lo);
    }

    /** _lcd_command: a byte to the instruction register. */
    method Command(cmd: bv8)
      modifies this`rs, this`trace
      ensures !rs
      ensures trace == old(trace) + StepEvents(addr, backlight, Send(cmd, false))
    {
      WriteByte(cmd, false);
    }

    /** lcd_set_addr: retargets later transactions; nothing goes on the bus. */
    method SetAddr(a: bv8)
      requires Valid()
      modifies this`addr, this`since
      ensures Valid() && addr == a
    {
      addr := a;
      since := |trace|;
    }

    /** lcd_init: resets the three fields (overriding any lcd_set_addr), then runs the
        power-on sequence. */
    method Init()
      modifies this
      ensures Valid()
      ensures addr == LCD_I2C_ADDR && backlight == LCD_BACKLIGHT && !rs
      ensures trace == old(trace) + Render(LCD_I2C_ADDR, LCD_BACKLIGHT, INIT_STEPS)
    {
      addr := LCD_I2C_ADDR;
      backlight := LCD_BACKLIGHT;
      rs := false;
      since := |trace|;
      ghost var t0, a, bl := trace, addr, backlight;
      ghost var done: seq<Event> := [];

      ExpanderWrite(0);
      AppendAssoc(t0, done, StepEvents(a, bl, Expander(0)));
      done := done + StepEvents(a, bl, Expander(0));
      assert trace == t0 + done;
      WaitMs(40);
      AppendAssoc(t0, done, StepEvents(a, bl, Pause(40)));
      done := done + StepEvents(a, bl, Pause(40));
      assert trace == t0 + done;

      WriteNibble(0x30);
      AppendAssoc(t0, done, StepEvents(a, bl, Strobe(0x30, false)));
      done := done + StepEvents(a, bl, Strobe(0x30, false));
      assert trace == t0 + done;
      WaitMs(5);
      AppendAssoc(t0, done, StepEvents(a, bl, Pause(5)));
      done := done + StepEvents(a, bl, Pause(5));
      assert trace == t0 + done;
      WriteNibble(0x30);
      AppendAssoc(t0, done, StepEvents(a, bl, Strobe(0x30, false)));
      done := done + StepEvents(a, bl, Strobe(0x30, false));
      assert trace == t0 + done;
      WaitMs(5);
      AppendAssoc(t0, done, StepEvents(a, bl, Pause(5)));
      done := done + StepEvents(a, bl, Pause(5));
      assert trace == t0 + done;
      WriteNibble(0x30);
      AppendAssoc(t0, done, StepEvents(a, bl, Strobe(0x30, false)));
      done := done + StepEvents(a, bl, Strobe(0x30, false));
      assert trace == t0 + done;
      WaitMs(5);
      AppendAssoc(t0, done, StepEvents(a, bl, Pause(5)));
      done := done + StepEvents(a, bl, Pause(5));
      assert trace == t0 + done;
      WriteNibble(0x20);
      AppendAssoc(t0, done, StepEvents(a, bl, Strobe(0x20, false)));
      done := done + StepEvents(a, bl, Strobe(0x20, false));
      assert trace == t0 + done;
      WaitMs(5);
      AppendAssoc(t0, done, StepEvents(a, bl, Pause(5)));
      done := done + StepEvents(a, bl, Pause(5));
      assert trace == t0 + done;

      Command(FUNCTION_SET);
      AppendAssoc(t0, done, StepEvents(a, bl, Send(FUNCTION_SET, false)));
      done := done + StepEvents(a, bl, Send(FUNCTION_SET, false));
      assert trace == t0 + done;
      WaitMs(5);
      AppendAssoc(t0, done, StepEvents(a, bl, Pause(5)));
      done := done + StepEvents(a, bl, Pause(5));
      assert trace == t0 + done;
      Command(LCD_TURN_ON);
      AppendAssoc(t0, done, StepEvents(a, bl, Send(LCD_TURN_ON, false)));
      done := done + StepEvents(a, bl, Send(LCD_TURN_ON, false));
      assert trace == t0 + done;
      WaitMs(5);
      AppendAssoc(t0, done, StepEvents(a, bl, Pause(5)));
      done := done + StepEvents(a, bl, Pause(5));
      assert trace == t0 + done;
      Command(LCD_CLEAR);
      AppendAssoc(t0, done, StepEvents(a, bl, Send(LCD_CLEAR, false)));
      done := done + StepEvents(a, bl, Send(LCD_CLEAR, false));
      assert trace == t0 + done;
      WaitMs(5);
      AppendAssoc(t0, done, StepEvents(a, bl, Pause(5)));
      done := done + StepEvents(a, bl, Pause(5));
      assert trace == t0 + done;
      Command(LCD_ENTRY_MODE_SET | LCD_ENTRY_INC);
      AppendAssoc(t0, done, StepEvents(a, bl, Send(LCD_ENTRY_MODE_SET | LCD_ENTRY_INC, false)));
      done := done + StepEvents(a, bl, Send(LCD_ENTRY_MODE_SET | LCD_ENTRY_INC, false));
      assert trace == t0 + done;
      WaitMs(5);
      AppendAssoc(t0, done, StepEvents(a, bl, Pause(5)));
      done := done + StepEvents(a, bl, Pause(5));
      assert trace == t0 + done;
      Command(LCD_CURSOR_OFF);
      AppendAssoc(t0, done, StepEvents(a, bl, Send(LCD_CURSOR_OFF, false)));
      done := done + StepEvents(a, bl, Send(LCD_CURSOR_OFF, false));
      assert trace == t0 + done;
      WaitMs(5);
      AppendAssoc(t0, done, StepEvents(a, bl, Pause(5)));
      done := done + StepEvents(a, bl, Pause(5));
      assert trace == t0 + done;

      InitRender();
      InitTransactions();
      assert trace[since..] == Render(a, bl, INIT_STEPS);
    }

    /** lcd_clear: the Clear Display instruction, then 2 ms. */
    method Clear()
      requires Valid()
      modifies this`rs, this`trace
      ensures Valid() && !rs
      ensures trace == old(trace) + Render(addr, backlight, [Send(LCD_CLEAR, false), Pause(2)])
    {
      ghost var t0, a, bl := trace, addr, backlight;
      SendCommand(LCD_CLEAR);
      RenderOne(a, bl, Send(LCD_CLEAR, false));
      ghost var t1 := trace;
      WaitMs(2);
      DelayInvisible(DelayMs(2), a, false, bl);
      OnBusExtend(t1, since, [DelayMs(2)], a, bl);
      RenderExtend(t0, a, bl, [Send(LCD_CLEAR, false)], Pause(2));
    }

    /** lcd_home: the Return Home instruction, then 2 ms. */
    method Home()
      requires Valid()
      modifies this`rs, this`trace
      ensures Valid() && !rs
      ensures trace == old(trace) + Render(addr, backlight, [Send(LCD_RETURN_HOME, false), Pause(2)])
    {
      ghost var t0, a, bl := trace, addr, backlight;
      SendCommand(LCD_RETURN_HOME);
      RenderOne(a, bl, Send(LCD_RETURN_HOME, false));
      ghost var t1 := trace;
      WaitMs(2);
      DelayInvisible(DelayMs(2), a, false, bl);
      OnBusExtend(t1, since, [DelayMs(2)], a, bl);
      RenderExtend(t0, a, bl, [Send(LCD_RETURN_HOME, false)], Pause(2));
    }

    /** lcd_gotoxy: one instruction, the row's base plus the column (0 taken as 1) less
        one, in 8 bits. */
    method Gotoxy(col: bv8, row: bv8)
      requires Valid()
      modifies this`rs, this`trace
      ensures Valid() && !rs
      ensures trace == old(trace) + StepEvents(addr, backlight, Send(GotoAddress(col, row), false))
    {
      var base: bv8;
      if row == 1 {
        base := LCD_FIRST_ROW;
      } else if row == 2 {
        base := LCD_SECOND_ROW;
      } else if row == 3 {
        base := LCD_THIRD_ROW;
      } else {
        base := LCD_FOURTH_ROW;
      }
      var c := col;
      if c == 0 {
        c := 1;
      }
      GotoSteps(col, row, base, c);
      SendCommand(base + (c - 1));
    }

    /** _lcd_command again, the same C function as Command, with the invariant carried
        across the call: the trace grows by one instruction and the transactions since
        the address or backlight last changed stay on the bus. */
    method SendCommand(cmd: bv8)
      requires Valid()
      modifies this`rs, this`trace
      ensures Valid() && !rs
      ensures trace == old(trace) + StepEvents(addr, backlight, Send(cmd, false))
    {
      ghost var t0, a, bl := trace, addr, backlight;
      Command(cmd);
      StepOnBus(a, bl, Send(cmd, false));
      OnBusExtend(t0, since, StepEvents(a, bl, Send(cmd, false)), a, bl);
    }

    /** The instruction the branches of lcd_gotoxy compute. */
    static lemma GotoSteps(col: bv8, row: bv8, base: bv8, c: bv8)
      requires base == RowBase(row) && c == (if col == 0 then 1 else col)
      ensures base + (c - 1) == GotoAddress(col, row)
    {
    }

    /** lcd_putc: one character to the data register. */
    method Putc(c: bv8)
      requires Valid()
      modifies this`rs, this`trace
      ensures Valid() && rs
      ensures trace == old(trace) + StepEvents(addr, backlight, Send(c, true))
    {
      ghost var t0 := trace;
      WriteByte(c, true);
      StepOnBus(addr, backlight, Send(c, true));
      OnBusExtend(t0, since, StepEvents(addr, backlight, Send(c, true)), addr, backlight);
    }

    /** lcd_print: every character before the terminating NUL, in order, with no
        wrapping or truncation; RS stays 1 once a character has been sent. */
    method Print(text: seq<bv8>)
      requires Valid() && 0 in text
      modifies this`rs, this`trace
      ensures Valid()
      ensures trace == old(trace) + Render(addr, backlight, DataSteps(CString(text)))
      ensures rs == (if CString(text) == [] then old(rs) else true)
    {
      ghost var t0, a, bl := trace, addr, backlight;
      ghost var cs := CString(text);
      var i := 0;
      while text[i] != 0
        invariant 0 <= i <= |cs| < |text|
        invariant Valid()
        invariant trace == t0 + Render(a, bl, DataSteps(cs[..i]))
        invariant rs == (if i == 0 then old(rs) else true)
        decreases |cs| - i
      {
        CStringAt(text, i);
        Putc(text[i]);
        DataStepsNext(cs, i);
        RenderExtend(t0, a, bl, DataSteps(cs[..i]), Send(cs[i], true));
        i := i + 1;
      }
      CStringAt(text, i);
      assert cs[..i] == cs;
    }

    /** lcd_print_xy: the lcd_gotoxy transactions, then the lcd_print ones. */
    method PrintXy(col: bv8, row: bv8, text: seq<bv8>)
      requires Valid() && 0 in text
      modifies this`rs, this`trace
      ensures Valid() && rs == (CString(text) != [])
      ensures trace == old(trace) + Render(addr, backlight, [Send(GotoAddress(col, row), false)] + DataSteps(CString(text)))
    {
      ghost var t0, a, bl := trace, addr, backlight;
      ghost var go := [Send(GotoAddress(col, row), false)];
      Gotoxy(col, row);
      RenderOne(a, bl, go[0]);
      Print(text);
      RenderAppend(a, bl, go, DataSteps(CString(text)));
      AppendAssoc(t0, Render(a, bl, go), Render(a, bl, DataSteps(CString(text))));
    }

    /** lcd_backlight_on: sets the field and refreshes the pins with one transaction
        carrying nothing but the backlight bit. */
    method BacklightOn()
      requires Valid()
      modifies this`backlight, this`trace, this`since
      ensures Valid() && backlight == LCD_BACKLIGHT
      ensures trace == old(trace) + [Write(addr, LCD_BACKLIGHT)]
    {
      backlight := LCD_BACKLIGHT;
      since := |trace|;
      ExpanderWrite(0);
      assert trace[since..] == [Write(addr, LCD_BACKLIGHT)];
    }

    /** lcd_backlight_off: as lcd_backlight_on with the backlight bit clear. */
    method BacklightOff()
      requires Valid()
      modifies this`backlight, this`trace, this`since
      ensures Valid() && backlight == LCD_NOBACKLIGHT
      ensures trace == old(trace) + [Write(addr, LCD_NOBACKLIGHT)]
    {
      backlight := LCD_NOBACKLIGHT;
      since := |trace|;
      ExpanderWrite(0);
      assert trace[since..] == [Write(addr, LCD_NOBACKLIGHT)];
    }
  }
}
