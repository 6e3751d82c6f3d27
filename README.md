# HD44780 over PCF8574: a verified model of lcd_i2c.c

`lcd_i2c.c` drives an HD44780 character display through a PCF8574 I2C port expander.
The expander's pins are wired as follows:

- P7..P4 carry D7..D4;
- P3 drives the backlight;
- P2 is E, P1 is RW and P0 is RS.

The driver keeps three module-level fields: `_lcd_rs`, `_lcd_i2c_addr` and
`_lcd_backlight`. It turns each public call into a fixed stream of I2C transactions.
A transaction is a start condition, the address byte, one data byte and a stop condition.

The model has three modules:

- **`Bus`** (bus.dfy) covers the wire side:
  - the trace of events (`Write(addr, data)`, `DelayUs`, `DelayMs`);
  - the expander's pin map;
  - `OnBus`: every transaction goes to one address, with the backlight pin at one level and RW low.

  It also describes the display end of the wire, which pairs with the encoder. `Latches`
  is what the HD44780 samples on each falling edge of E. `Assemble` pairs those nibbles,
  high nibble first, into bytes, as the 4-bit interface does.
- **`Protocol`** (protocol.dfy) covers byte composition:
  - a `Step` is one driver-level action: an expander write, a nibble, a byte or a
    millisecond wait;
  - `StepEvents` and `Render` give the events a step, or a run of steps, produces;
  - `StepNibbles`/`Nibbles` and `StepWrites`/`WriteCount` are independent reference
    definitions of what the display should receive and how many transactions go out.

  The lemmas connect the encoder to the decoder: every byte, every string and the whole
  power-on sequence arrive at the controller as intended. This module also holds the
  cursor-addressing function `GotoAddress` and its properties.
- **`LcdI2c`** (lcd.dfy) is the driver itself:
  - the class `Lcd` holds the three fields and the trace;
  - there is one method per C function, with two exceptions. `_lcd_command` has two
    methods: `Command`, and `SendCommand`, which also carries the invariant across the
    call. `WaitUs` and `WaitMs` stand for the external `delay_us` and `delay_ms`, which
    are not functions of lcd_i2c.c;
  - each method is proved to append exactly the events its calls produce: the
    `StepEvents` of its one step, the `Render` of its run of steps, or (for the
    backlight switches) one literal transaction; `lcd_set_addr` appends nothing;
  - the invariant `Valid` says every transaction since the last address or backlight
    change went to the current address, with the current backlight bit and RW low.

Bytes are `bv8`. CCS `int8` is unsigned 8-bit, so `addr + (col - 1)` and `value << 4`
wrap modulo 256 exactly as in the source. An `int1` is a `bool`. A `char` is a `bv8`.

Behaviour of the code that the model keeps, and proves:

- `lcd_gotoxy` has no bounds check:
  - row 0 and every row above 3 select the fourth row's base 0xD4;
  - column 0 is taken as column 1;
  - a large column wraps around. `lcd_gotoxy(46, 4)` sends 0x01, the Clear Display
    instruction, instead of moving the cursor.
- `lcd_init` starts by writing the idle byte 0x08. If E happened to be high before
  that, the decoder of this model latches one extra zero nibble, which shifts the 4-bit
  pairing of everything after it.

## Model

| member | source | states |
|---|---|---|
| LcdI2c.Lcd.constructor | lcd_i2c.c:80-82 | The fields start with RS clear, address `LCD_I2C_ADDR` (0x4E) and backlight on (0x08); the trace is empty and `Valid` holds. |
| LcdI2c.Lcd.WaitUs | lcd_i2c.c:106-108 | `delay_us` appends one microsecond wait event and nothing else. |
| LcdI2c.Lcd.WaitMs | lcd_i2c.c:140-184 | `delay_ms` appends one millisecond wait event and nothing else. |
| Protocol.StepEvents | lcd_i2c.c:87-117 | The events of one driver step (expander write, nibble, byte or wait); every transaction among them goes to the address the step is sent with. |
| Protocol.NibbleFrame | lcd_i2c.c:102 | The nibble byte keeps the top four bits of `n`, has E, RW and the backlight pin clear, and has RS in bit 0 exactly when `_lcd_rs` is set. |
| Protocol.HighNibble | lcd_i2c.c:115 | The high nibble has its low four bits clear and, with the low four bits of v put back, gives v. |
| Protocol.LowNibble | lcd_i2c.c:116 | The low nibble, moved up by the 8-bit shift, has its low four bits clear and carries the low four bits of v in its top four. |
| LcdI2c.Lcd.ExpanderWrite | lcd_i2c.c:87-93 | Appends exactly one transaction to the current address carrying `value` ORed with the backlight field. |
| LcdI2c.Lcd.WriteNibble | lcd_i2c.c:97-109 | Appends the nibble's three transactions (E low, E high, E low) with the 1 us and 50 us waits, all built from the top four bits of `n` with RS in bit 0. |
| LcdI2c.Lcd.WriteByte | lcd_i2c.c:111-117 | Sets RS to `is_data`, then appends the high nibble and then the low nibble moved up by the 8-bit shift. |
| LcdI2c.Lcd.Command | lcd_i2c.c:119-122 | Appends one byte with RS = 0 and leaves RS clear. |
| LcdI2c.Lcd.SendCommand | lcd_i2c.c:119-122 | As `Command`, and keeps the invariant: the new transactions go to the current address with the current backlight bit. |
| LcdI2c.Lcd.SetAddr | lcd_i2c.c:127-130 | Changes only the address; nothing is appended to the trace and RS and backlight are untouched. |
| Protocol.OtherDisplayUntouched | lcd_i2c.c:127-130 | Once `lcd_set_addr` has retargeted the driver to another address, a display behind the old address latches nothing from what follows and its E pin keeps its level. |
| Protocol.RenderAddressed | lcd_i2c.c:90 | Every transaction of a run of steps goes to the address it is sent with. |
| LcdI2c.Lcd.Init | lcd_i2c.c:132-173 | Resets address to 0x4E, backlight to 0x08 and RS to 0, overriding any earlier `lcd_set_addr`, then appends exactly the events of `INIT_STEPS` (idle byte, 40 ms, four wake nibbles, five instructions, each followed by 5 ms). |
| Protocol.InitTransactions | lcd_i2c.c:132-173 | `lcd_init` puts exactly 43 transactions on the bus, the first being `0x4E, 0x08`, all to 0x4E with the backlight bit set and RW low, and E ends low. |
| Protocol.InitSequence | lcd_i2c.c:138-172 | The controller latches 0x3, 0x3, 0x3, 0x2 and then receives 0x28, 0x0C, 0x01, 0x06, 0x0C, all with RS = 0. |
| Protocol.InitParts | lcd_i2c.c:138-172 | The init steps are the idle write, the wake-up nibbles and the five configuration instructions; none raises E, RW or the backlight pin on its own, and together they make 43 transactions. |
| Protocol.InitRender | lcd_i2c.c:138-172 | The events of the init steps are those of the twenty calls of `lcd_init`, one after the other. |
| Protocol.InitStepAt | lcd_i2c.c:138-172 | The twenty init steps, position by position, in the order of the calls in `lcd_init`. |
| Protocol.WakeValues | lcd_i2c.c:143-153 | The wake-up part hands over the nibbles 0x3, 0x3, 0x3, 0x2 with RS = 0. |
| Protocol.ConfigValues | lcd_i2c.c:155-172 | The configuration part hands over 0x28 (function set with `LCD_TYPE` shifted into bits 2 and 3), 0x0C, 0x01, 0x06 and 0x0C as whole bytes with RS = 0. |
| Protocol.InitFromEnableHigh | lcd_i2c.c:138-139 | If E was high before `lcd_init`, its idle byte makes the controller latch one extra zero nibble before the intended ones. |
| Protocol.IdleFromEnableHigh | lcd_i2c.c:139 | A run of steps that starts with `_lcd_expander_write(0)` while E is high latches one zero nibble first, then exactly what it latches when E starts low. |
| LcdI2c.Lcd.Clear | lcd_i2c.c:175-179 | Appends the Clear Display instruction (0x01, RS = 0) and a 2 ms wait; the segment depends only on the address and backlight, which it does not change, so two calls append identical segments. |
| LcdI2c.Lcd.Home | lcd_i2c.c:181-185 | Appends the Return Home instruction (0x02, RS = 0) and a 2 ms wait, keeping the invariant. |
| LcdI2c.Lcd.Gotoxy | lcd_i2c.c:187-204 | Appends exactly one instruction with RS = 0, whose value is `GotoAddress(col, row)`, and keeps the invariant. |
| Protocol.RowBase | lcd_i2c.c:189-198 | The base is a Set DDRAM Address instruction (bit 7 set), one of 0x80, 0xC0, 0x94 and 0xD4. |
| Protocol.GotoAddress | lcd_i2c.c:189-203 | Columns 0 and 1 give the row's base; any other column lies col - 1 past it in 8 bits. |
| LcdI2c.Lcd.GotoSteps | lcd_i2c.c:191-203 | The base chosen by the row branches plus the column (0 taken as 1) less one is `GotoAddress(col, row)`. |
| Protocol.GotoRows | lcd_i2c.c:191-201 | Rows 1, 2 and 3 give bases 0x80, 0xC0 and 0x94; every other row value, 0 and above 3 included, behaves as row 4 (0xD4); column 0 behaves as column 1. |
| Protocol.GotoCell | lcd_i2c.c:187-204 | For rows 1..4 and columns 1..20 the instruction is Set DDRAM Address (bit 7 set) for that row's start plus the column less one. |
| Protocol.GotoWraps | lcd_i2c.c:203 | With no bounds check, the 8-bit sum wraps: `lcd_gotoxy(46, 4)` sends 0x01 (Clear Display). |
| LcdI2c.Lcd.Putc | lcd_i2c.c:206-209 | Appends one byte with RS = 1, leaves RS set and keeps the invariant. |
| LcdI2c.Lcd.Print | lcd_i2c.c:211-218 | Appends one data byte per character before the first NUL, in order, and nothing for what follows it; RS is set afterwards unless the text was empty. |
| Protocol.CString | lcd_i2c.c:211-218 | The characters printed are a prefix of the text that contains no NUL and ends right before the first NUL. |
| Protocol.DataSteps | lcd_i2c.c:211-218 | The steps of printing s: exactly one step per character, each that character as a byte to the data register (RS = 1). |
| Protocol.CStringStops | lcd_i2c.c:213 | Nothing after the first NUL is ever printed. |
| Protocol.CStringAt | lcd_i2c.c:213-217 | Walking the text from the start, the loop condition first fails exactly at the end of the printed prefix. |
| Protocol.DataRoundTrip | lcd_i2c.c:211-218 | Printing s puts 6 transactions per character on the bus, all to the current address with the current backlight bit and RW low; the controller receives every character of s, in order, in the data register, and E ends low. |
| Protocol.DataNibbles | lcd_i2c.c:211-218 | The data steps of s hand over two nibbles per character, which assemble back into the characters with RS = 1. |
| LcdI2c.Lcd.PrintXy | lcd_i2c.c:220-224 | The trace grows by the `lcd_gotoxy` instruction followed by exactly the `lcd_print` events. |
| Protocol.PrintXyRoundTrip | lcd_i2c.c:220-224 | The controller receives the cursor instruction in the instruction register, then each printed character in the data register, in order, with nothing else. |
| Protocol.PrintXyExample | lcd_i2c.c:220-224 | `lcd_print_xy(1, 2, "LCD I2C OK")` delivers 0xC0 followed by the ten characters, with no wrapping or truncation. |
| LcdI2c.Lcd.BacklightOn | lcd_i2c.c:226-230 | Sets the backlight field to 0x08 and appends exactly one transaction carrying 0x08; address and RS are unchanged. |
| LcdI2c.Lcd.BacklightOff | lcd_i2c.c:232-236 | Sets the backlight field to 0x00 and appends exactly one transaction carrying 0x00; address and RS are unchanged. |
| Protocol.ByteWriteShape | lcd_i2c.c:97-117 | `_lcd_write_byte(v, rs)` is exactly six transactions: an E pulse carrying `v & 0xF0`, then one carrying `(v << 4) & 0xF0`; in each pulse the first and third bytes are equal with E clear and the second is the same byte with E set, and every byte has RS = rs, RW = 0 and the backlight bit. |
| Protocol.ByteRoundTrip | lcd_i2c.c:111-117 | Decoding the six transactions of `_lcd_write_byte(v, rs)` gives back exactly v with register select rs, and E ends low. |
| Protocol.ByteLatch | lcd_i2c.c:111-117 | The controller latches the high nibble of v, then its low nibble, both with RS = rs. |
| Protocol.ByteWriteCount | lcd_i2c.c:111-117 | A byte is six transactions. |
| Protocol.ByteOnBus | lcd_i2c.c:111-117 | Every transaction of a byte goes to the current address, with RW low and the backlight bit. |
| Protocol.NibbleShape | lcd_i2c.c:102-107 | The three transactions of a nibble form one E pulse carrying it with the right RS, RW low and the backlight bit. |
| Protocol.NibbleWrites | lcd_i2c.c:102-107 | The three transactions of a nibble are the frame byte with the backlight bit, then with E raised, then the frame byte again. |
| Protocol.NibbleLatch | lcd_i2c.c:97-109 | The controller latches exactly the nibble's top four bits and RS, and E ends low. |
| Protocol.NibbleOnBus | lcd_i2c.c:97-109 | Every transaction of a nibble goes to the current address with RW low and the backlight bit. |
| Protocol.FrameBits | lcd_i2c.c:102-107 | The frame byte with the backlight added has E clear, D7..D4 equal to the nibble, RW clear, the backlight bit and RS = rs, with E set or not. |
| Protocol.Pulse | lcd_i2c.c:104-108 | E low, E high, wait, E low, wait on the same byte makes the controller latch that byte's D7..D4 and RS once, and leaves E low. |
| Protocol.QuietBits | lcd_i2c.c:87-93 | A byte with E, RW and the backlight pin clear keeps E and RW clear and gets the backlight bit when written. |
| Protocol.StepWriteCount | lcd_i2c.c:87-117 | Each step puts `StepWrites(s)` transactions on the bus (1, 3, 6 or none). |
| Protocol.StepOnBus | lcd_i2c.c:87-117 | Every transaction of a step that does not itself raise E, RW or the backlight pin goes to the current address with the backlight bit and RW low. |
| Protocol.StepLatch | lcd_i2c.c:87-117 | From such a step the controller latches exactly `StepNibbles(s)`, and E ends low. |
| Protocol.RenderWriteCount | lcd_i2c.c:87-117 | A run of steps puts `WriteCount(steps)` transactions on the bus. |
| Protocol.RenderOnBus | lcd_i2c.c:87-117 | Every transaction of a run of such steps goes to the current address with the backlight bit and RW low. |
| Protocol.RenderLatch | lcd_i2c.c:87-117 | From a run of such steps the controller latches exactly `Nibbles(steps)`, and E ends low. |
| Protocol.CommandNibbles | lcd_i2c.c:119-122 | A run of instructions, each followed by a wait, is received as those instructions in order with RS = 0. |
| Protocol.CommandWrites | lcd_i2c.c:119-122 | A run of instructions puts six transactions per instruction on the bus. |
| Protocol.WakeNibbles | lcd_i2c.c:143-153 | A run of bare nibbles, each followed by a wait, is latched as those nibbles in order with RS = 0. |
| Protocol.WakeWrites | lcd_i2c.c:143-153 | A run of bare nibbles puts three transactions per nibble on the bus. |
| Protocol.DataWriteCount | lcd_i2c.c:211-218 | Printing s takes six transactions per character. |
| Bus.OnBusEvery | lcd_i2c.c:89-92 | `OnBus` holds exactly when every transaction, one by one, goes to the address with the backlight bit and RW low. |
| Bus.LatchesElsewhere | lcd_i2c.c:90 | Transactions to another address leave the controller at this expander untouched. |
| Bus.DelayInvisible | lcd_i2c.c:106-108 | A busy-wait puts nothing on the bus and changes nothing the controller sees. |

The trace contracts of the methods are proved against `Render` and `StepEvents`. The
lemmas then prove what those traces mean to the controller. Composition lemmas such as
`RenderAppend`, `LatchesAppend`, `WritesAppend`, `AssembleAppend`, `NibblesAppend` and
`OnBusAppend` are general facts the proofs above use. They model no particular line.

## Left out

- The I2C bus mechanics behind `LCD_I2C_START`, `LCD_I2C_WRITE` and `LCD_I2C_STOP` are
  foreign hardware primitives. A completed start, address, data, stop sequence is one
  `Write(addr, data)` event; bus errors and missing acknowledgements are not modelled
  because the code ignores them.
- `delay_us` and `delay_ms` are recorded as `DelayUs` and `DelayMs` events so that their
  order is kept, but no timing is modelled.
- The compile-time `#define` overrides are not modelled. `LCD_I2C_ADDR` is fixed at 0x4E
  and `LCD_TYPE` at 2, their default values; `lcd_set_addr` still retargets at run time.
- `LCD_COLS` and `LCD_ROWS` are never used by the code, so there is no bounds check to model.
- The HD44780's own state (cursor position, display contents) is not tracked, because the
  driver never reads the display back. The decoder stops at the bytes and register
  selects the controller receives.
- The demo program lcd_example.c sets `LCD_I2C_ADDR` to 0x7E, initialises and clears the
  display, prints two lines with `lcd_print_xy`, and then blinks the backlight forever. It
  has no logic of its own. `PrintXyExample` replays its second print at the default address.
- The decoder (`Latches`, `Assemble`) models the HD44780's 4-bit interface only. It has
  no 8-bit mode, so it cannot show the wake-up nibbles resynchronising the interface.
  It does not look at RW, so a pulse with RW high is decoded as a write. It samples RS
  together with D7..D4 at the falling edge of E.
- LcdI2c.Lcd.Print: takes the text as a sequence of bytes that contains a NUL. A C string
  without its terminator would be read past its end, which the model cannot express.
- `lcd_print` reads `ROM char *` memory; pointer walking and ROM addressing are modelled
  as indexing into that sequence.
