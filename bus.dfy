/** The wire side of the driver: the trace of I2C transactions (and busy-waits) it
    produces, the pin layout of the PCF8574 expander, and the view of the HD44780
    controller behind it, which latches a data nibble on every falling edge of E. */
module Bus {

  /** Expander pin layout: P7..P4 carry D7..D4, P3 the backlight, P2 = E, P1 = RW, P0 = RS. */
  const DATA_MASK: bv8 := 0xF0
  const BL: bv8 := 0x08
  const EN: bv8 := 0x04
  const RW: bv8 := 0x02
  const RS: bv8 := 0x01

  /** The byte an expander write puts on the pins: value with the backlight bit ORed in. */
  function WithBacklight(value: bv8, bl: bv8): bv8
  {
    value | bl
  }

  /** A pin byte with E raised. */
  function EnHigh(d: bv8): bv8
  {
    d | EN
  }

  /** A pin byte with E lowered. */
  function EnLow(d: bv8): bv8
  {
    d & !EN
  }

  /** One observable step: a complete I2C transaction (start, address byte, one data
      byte, stop), or a busy-wait of the given length. */
  datatype Event =
    | Write(addr: bv8, data: bv8)
    | DelayUs(us: nat)
    | DelayMs(ms: nat)

  /** The I2C transactions of a trace, in order, with the delays dropped. */
  function Writes(evs: seq<Event>): (ws: seq<Event>)
    ensures |ws| <= |evs|
    ensures forall i :: 0 <= i < |ws| ==> ws[i].Write?
  {
    if evs == [] then []
    else if evs[0].Write? then [evs[0]] + Writes(evs[1..])
    else Writes(evs[1..])
  }

  lemma {:induction false} WritesAppend(xs: seq<Event>, ys: seq<Event>)
    ensures Writes(xs + ys) == Writes(xs) + Writes(ys)
  {
    if xs == [] {
      assert xs + ys == ys;
    } else {
      assert (xs + ys)[1..] == xs[1..] + ys;
      WritesAppend(xs[1..], ys);
    }
  }

  /** A transaction to address a with the backlight pin at bl and RW low. */
  predicate OnBusAt(e: Event, a: bv8, bl: bv8)
  {
    e.Write? ==> e.addr == a && e.data & BL == bl && e.data & RW == 0
  }

  /** Every transaction of evs goes to address a, with the backlight pin at bl and RW low. */
  predicate OnBus(evs: seq<Event>, a: bv8, bl: bv8)
  {
    evs == [] || (OnBusAt(evs[0], a, bl) && OnBus(evs[1..], a, bl))
  }

  /** OnBus holds exactly when every transaction, one by one, satisfies OnBusAt. */
  lemma {:induction false} OnBusEvery(evs: seq<Event>, a: bv8, bl: bv8)
    ensures OnBus(evs, a, bl) <==> forall i :: 0 <= i < |evs| ==> OnBusAt(evs[i], a, bl)
  {
    if evs != [] {
      OnBusEvery(evs[1..], a, bl);
      assert forall i :: 1 <= i < |evs| ==> evs[i] == evs[1..][i - 1];
    }
  }

  lemma {:induction false} OnBusAppend(xs: seq<Event>, ys: seq<Event>, a: bv8, bl: bv8)
    ensures OnBus(xs + ys, a, bl) <==> OnBus(xs, a, bl) && OnBus(ys, a, bl)
  {
    if xs == [] {
      assert xs + ys == ys;
    } else {
      assert (xs + ys)[0] == xs[0] && (xs + ys)[1..] == xs[1..] + ys;
      OnBusAppend(xs[1..], ys, a, bl);
    }
  }

  /** Extending a trace whose part from index since on satisfies OnBus with a segment
      that does keeps that part satisfying it. */
  lemma OnBusExtend(t: seq<Event>, since: nat, seg: seq<Event>, a: bv8, bl: bv8)
    requires since <= |t| && OnBus(t[since..], a, bl) && OnBus(seg, a, bl)
    ensures OnBus((t + seg)[since..], a, bl)
  {
    assert (t + seg)[since..] == t[since..] + seg;
    OnBusAppend(t[since..], seg, a, bl);
  }

  /** Appending two pieces one after the other appends their concatenation. */
  lemma AppendAssoc(t: seq<Event>, xs: seq<Event>, ys: seq<Event>)
    ensures t + xs + ys == t + (xs + ys)
  {
  }

  /** What the controller sees on one E pulse: D7..D4 (kept in the top nibble) and RS. */
  datatype Nibble = Nibble(hi: bv8, rs: bool)

  /** The level of E at expander address dev after e, given its level en before:
      only a transaction to dev drives the pins. */
  function EnAt(e: Event, dev: bv8, en: bool): bool
  {
    if e.Write? && e.addr == dev then e.data & EN != 0 else en
  }

  /** What e makes the controller at dev latch: D7..D4 and RS are sampled when E falls. */
  function LatchAt(e: Event, dev: bv8, en: bool): seq<Nibble>
  {
    if en && !EnAt(e, dev, en) then [Nibble(e.data & DATA_MASK, e.data & RS != 0)] else []
  }

  /** What the controller at expander address dev latches from evs, given that E was
      high before evs exactly when en holds. Transactions to any other address do not
      reach its pins. */
  function Latches(evs: seq<Event>, dev: bv8, en: bool): seq<Nibble>
  {
    if evs == [] then []
    else LatchAt(evs[0], dev, en) + Latches(evs[1..], dev, EnAt(evs[0], dev, en))
  }

  /** The level of E at expander address dev after evs. */
  function EnAfter(evs: seq<Event>, dev: bv8, en: bool): bool
  {
    if evs == [] then en else EnAfter(evs[1..], dev, EnAt(evs[0], dev, en))
  }

  lemma {:induction false} LatchesAppend(xs: seq<Event>, ys: seq<Event>, dev: bv8, en: bool)
    ensures Latches(xs + ys, dev, en) == Latches(xs, dev, en) + Latches(ys, dev, EnAfter(xs, dev, en))
    ensures EnAfter(xs + ys, dev, en) == EnAfter(ys, dev, EnAfter(xs, dev, en))
  {
    if xs == [] {
      assert xs + ys == ys;
    } else {
      var en' := EnAt(xs[0], dev, en);
      assert (xs + ys)[0] == xs[0] && (xs + ys)[1..] == xs[1..] + ys;
      LatchesAppend(xs[1..], ys, dev, en');
      calc {
        Latches(xs + ys, dev, en);
        LatchAt(xs[0], dev, en) + Latches(xs[1..] + ys, dev, en');
        LatchAt(xs[0], dev, en) + (Latches(xs[1..], dev, en') + Latches(ys, dev, EnAfter(xs[1..], dev, en')));
        (LatchAt(xs[0], dev, en) + Latches(xs[1..], dev, en')) + Latches(ys, dev, EnAfter(xs, dev, en));
      }
    }
  }

  lemma LatchesCons(e: Event, evs: seq<Event>, dev: bv8, en: bool)
    ensures Latches([e] + evs, dev, en) == LatchAt(e, dev, en) + Latches(evs, dev, EnAt(e, dev, en))
    ensures EnAfter([e] + evs, dev, en) == EnAfter(evs, dev, EnAt(e, dev, en))
  {
    assert ([e] + evs)[0] == e && ([e] + evs)[1..] == evs;
  }

  /** A busy-wait touches neither the bus nor the pins. */
  lemma DelayInvisible(e: Event, dev: bv8, en: bool, bl: bv8)
    requires !e.Write?
    ensures Writes([e]) == [] && OnBus([e], dev, bl)
    ensures Latches([e], dev, en) == [] && EnAfter([e], dev, en) == en
  {
    assert [e][1..] == [];
  }

  /** A transaction to another address leaves the controller at dev untouched. */
  lemma {:induction false} LatchesElsewhere(evs: seq<Event>, a: bv8, dev: bv8, en: bool)
    requires a != dev
    requires forall i :: 0 <= i < |evs| && evs[i].Write? ==> evs[i].addr == a
    ensures Latches(evs, dev, en) == [] && EnAfter(evs, dev, en) == en
  {
    if evs != [] {
      LatchesElsewhere(evs[1..], a, dev, en);
    }
  }

  /** One byte as received over the HD44780 4-bit interface, with its RS level
      (false: instruction register, true: data register). */
  datatype Transfer = Transfer(value: bv8, rs: bool)

  /** The 4-bit interface: consecutive nibbles pair up into bytes, high nibble first. */
  function Assemble(ns: seq<Nibble>): (ts: seq<Transfer>)
    ensures |ts| == |ns| / 2
  {
    if |ns| < 2 then []
    else [Transfer(ns[0].hi | (ns[1].hi >> 4), ns[0].rs)] + Assemble(ns[2..])
  }

  lemma {:induction false} AssembleAppend(xs: seq<Nibble>, ys: seq<Nibble>)
    requires |xs| % 2 == 0
    ensures Assemble(xs + ys) == Assemble(xs) + Assemble(ys)
  {
    if xs != [] {
      assert (xs + ys)[2..] == xs[2..] + ys;
      AssembleAppend(xs[2..], ys);
    } else {
      assert xs + ys == ys;
    }
  }
}
