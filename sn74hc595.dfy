/**
 * The SN74HC595 driver of SN74HC595.cs: a byte is clocked into the chip's
 * shift register bit by bit through three GPIO pins (DS data, SH shift
 * clock, ST storage clock), most significant bit first, then latched.
 */
module ShiftRegister {
  import opened GpioTypes

  /** One call on the IGpio interface. */
  datatype GpioCall =
    | Direction(pin: int, direction: GpioPinDirection)
    | Write(pin: int, value: GpioPinValue)

  /** An IGpio that records the calls made on it, in order. */
  class RecordingGpio {
    var trace: seq<GpioCall>

    constructor ()
      ensures trace == []
    {
      trace := [];
    }

    method SetPinDirection(pinNumber: int, direction: GpioPinDirection)
      modifies this
      ensures trace == old(trace) + [Direction(pinNumber, direction)]
    {
      trace := trace + [Direction(pinNumber, direction)];
    }

    /** The indexer's setter. */
    method SetPinValue(pinNumber: int, value: GpioPinValue)
      modifies this
      ensures trace == old(trace) + [Write(pinNumber, value)]
    {
      trace := trace + [Write(pinNumber, value)];
    }
  }

  /** The weight of bit `k`, bit 0 being the least significant: 2 to the power `k`. */
  function Weight(k: nat): bv8
    requires k < 8
  {
    match k
    case 0 => 0x01
    case 1 => 0x02
    case 2 => 0x04
    case 3 => 0x08
    case 4 => 0x10
    case 5 => 0x20
    case 6 => 0x40
    case _ => 0x80
  }

  /** Bit `k` of `data` is set. */
  predicate Bit(data: bv8, k: nat)
    requires k < 8
  {
    data & Weight(k) != 0
  }

  /** The level that carries bit `k` of `data`. */
  function BitLevel(data: bv8, k: nat): GpioPinValue
    requires k < 8
  {
    if Bit(data, k) then High else Low
  }

  /** The value of `mask` before step `i` of the loop in Send: 0x80 shifted right `i` times. */
  function Mask(i: nat): bv8
    requires i <= 8
  {
    if i == 0 then 0x80 else Mask(i - 1) >> 1
  }

  /** The mask of step `i` is the weight of bit 7 - i, so it selects that bit. */
  lemma MaskSelectsBit(data: bv8, i: nat)
    requires i < 8
    ensures Mask(i) == Weight(7 - i)
    ensures (data & Mask(i) != 0) <==> Bit(data, 7 - i)
  {
    if i == 0 {
    } else if i == 1 {
    } else if i == 2 {
    } else if i == 3 {
    } else if i == 4 {
    } else if i == 5 {
    } else if i == 6 {
    } else {
    }
  }

  /** The constructor's calls: the three pins become outputs, then each is driven Low. */
  function InitTrace(ds: int, st: int, sh: int): seq<GpioCall>
  {
    [Direction(ds, Output), Direction(st, Output), Direction(sh, Output), Write(ds, Low), Write(st, Low), Write(sh, Low)]
  }

  /** A clock pulse: Low, then High. */
  function PulseTrace(pin: int): seq<GpioCall>
  {
    [Write(pin, Low), Write(pin, High)]
  }

  /** The calls for the first `n` bits: each is put on DS, then SH is pulsed. */
  function ShiftTrace(ds: int, sh: int, data: bv8, n: nat): seq<GpioCall>
    requires n <= 8
  {
    if n == 0 then []
    else ShiftTrace(ds, sh, data, n - 1) + [Write(ds, BitLevel(data, 8 - n))] + PulseTrace(sh)
  }

  /** The calls of Send: eight bits, most significant first, then an ST pulse. */
  function SendTrace(ds: int, sh: int, st: int, data: bv8): seq<GpioCall>
  {
    ShiftTrace(ds, sh, data, 8) + PulseTrace(st)
  }

  /** The calls of step `i` of the loop in Send, where `mask` is the mask of that step. */
  lemma ShiftTraceNext(ds: int, sh: int, data: bv8, i: nat, mask: bv8)
    requires i < 8 && mask == Mask(i)
    ensures ShiftTrace(ds, sh, data, i + 1)
         == ShiftTrace(ds, sh, data, i) + ([Write(ds, if data & mask == 0 then Low else High)] + PulseTrace(sh))
  {
    MaskSelectsBit(data, i);
  }

  /** Appending one call and then a pulse to a trace extends its last part by both. */
  lemma TraceGrows(start: seq<GpioCall>, part: seq<GpioCall>, next: seq<GpioCall>, call: GpioCall, pulse: seq<GpioCall>)
    requires next == part + ([call] + pulse)
    ensures start + part + [call] + pulse == start + next
  {
  }

  lemma AppendAssoc(a: seq<GpioCall>, b: seq<GpioCall>, c: seq<GpioCall>)
    ensures a + b + c == a + (b + c)
  {
  }

  class SN74HC595 {
    const gpio: RecordingGpio
    const dsPinNumber: int
    const stPinNumber: int
    const shPinNumber: int

    /** Makes DS, ST and SH outputs, in that order, then drives them Low in the same order. */
    constructor (gpio: RecordingGpio, dsPinNumber: int, shPinNumber: int, stPinNumber: int)
      modifies gpio
      ensures this.gpio == gpio
      ensures this.dsPinNumber == dsPinNumber && this.shPinNumber == shPinNumber && this.stPinNumber == stPinNumber
      ensures gpio.trace == old(gpio.trace) + InitTrace(dsPinNumber, stPinNumber, shPinNumber)
    {
      this.gpio := gpio;
      this.dsPinNumber := dsPinNumber;
      this.stPinNumber := stPinNumber;
      this.shPinNumber := shPinNumber;
      new;
      gpio.SetPinDirection(dsPinNumber, Output);
      gpio.SetPinDirection(stPinNumber, Output);
      gpio.SetPinDirection(shPinNumber, Output);
      gpio.SetPinValue(dsPinNumber, Low);
      gpio.SetPinValue(stPinNumber, Low);
      gpio.SetPinValue(shPinNumber, Low);
    }

    /** Shifts `data` out, most significant bit first, then latches it. */
    method Send(data: bv8)
      modifies gpio
      ensures gpio.trace == old(gpio.trace) + SendTrace(dsPinNumber, shPinNumber, stPinNumber, data)
    {
      var mask: bv8 := 0x80;
      for i := 0 to 8
        invariant mask == Mask(i)
        invariant gpio.trace == old(gpio.trace) + ShiftTrace(dsPinNumber, shPinNumber, data, i)
      {
        var level := if data & mask == 0 then Low else High;
        ShiftTraceNext(dsPinNumber, shPinNumber, data, i, mask);
        gpio.SetPinValue(dsPinNumber, level);
        Pulse(shPinNumber);
        TraceGrows(old(gpio.trace), ShiftTrace(dsPinNumber, shPinNumber, data, i), ShiftTrace(dsPinNumber, shPinNumber, data, i + 1),
                   Write(dsPinNumber, level), PulseTrace(shPinNumber));
        mask := mask >> 1;
      }
      Pulse(stPinNumber);
      AppendAssoc(old(gpio.trace), ShiftTrace(dsPinNumber, shPinNumber, data, 8), PulseTrace(stPinNumber));
    }

    /** Drives `pinNumber` Low, then High. */
    method Pulse(pinNumber: int)
      modifies gpio
      ensures gpio.trace == old(gpio.trace) + PulseTrace(pinNumber)
    {
      gpio.SetPinValue(pinNumber, Low);
      gpio.SetPinValue(pinNumber, High);
    }
  }

  /** Bit by bit, the first `n` bits take three calls each: the DS write, then the SH pulse. */
  lemma {:induction false} ShiftTraceShape(ds: int, sh: int, data: bv8, n: nat)
    requires n <= 8
    ensures |ShiftTrace(ds, sh, data, n)| == 3 * n
    ensures forall i :: 0 <= i < n ==>
      && ShiftTrace(ds, sh, data, n)[3 * i] == Write(ds, BitLevel(data, 7 - i))
      && ShiftTrace(ds, sh, data, n)[3 * i + 1] == Write(sh, Low)
      && ShiftTrace(ds, sh, data, n)[3 * i + 2] == Write(sh, High)
  {
    if n > 0 {
      ShiftTraceShape(ds, sh, data, n - 1);
      var prefix := ShiftTrace(ds, sh, data, n - 1);
      var t := ShiftTrace(ds, sh, data, n);
      assert t == prefix + [Write(ds, BitLevel(data, 8 - n)), Write(sh, Low), Write(sh, High)];
      forall i | 0 <= i < n
        ensures t[3 * i] == Write(ds, BitLevel(data, 7 - i))
        ensures t[3 * i + 1] == Write(sh, Low) && t[3 * i + 2] == Write(sh, High)
      {
        if i < n - 1 {
          assert t[3 * i] == prefix[3 * i] && t[3 * i + 1] == prefix[3 * i + 1] && t[3 * i + 2] == prefix[3 * i + 2];
        }
      }
    }
  }

  /**
   * Send makes exactly 26 writes and no direction change: for bit i (0 the
   * most significant) a DS write carrying bit 7 - i and an SH pulse, and
   * last an ST pulse.
   */
  lemma SendTraceShape(ds: int, sh: int, st: int, data: bv8)
    ensures var t := SendTrace(ds, sh, st, data);
      && |t| == 26
      && (forall i :: 0 <= i < 8 ==>
            && t[3 * i] == Write(ds, BitLevel(data, 7 - i))
            && t[3 * i + 1] == Write(sh, Low)
            && t[3 * i + 2] == Write(sh, High))
      && t[24] == Write(st, Low) && t[25] == Write(st, High)
      && forall j :: 0 <= j < 26 ==> t[j].Write?
  {
    ShiftTraceShape(ds, sh, data, 8);
    var t := SendTrace(ds, sh, st, data);
    var shifts := ShiftTrace(ds, sh, data, 8);
    assert t == shifts + PulseTrace(st);
    forall i | 0 <= i < 8
      ensures t[3 * i] == shifts[3 * i] && t[3 * i + 1] == shifts[3 * i + 1] && t[3 * i + 2] == shifts[3 * i + 2]
    {
    }
    forall j | 0 <= j < 26
      ensures t[j].Write?
    {
      if j < 24 {
        var i := j / 3;
        assert j == 3 * i || j == 3 * i + 1 || j == 3 * i + 2;
      }
    }
  }

  /**
   * Send touches only the three pins of the driver; with distinct pins DS is
   * written exactly at the first call of each bit, eight times in all.
   */
  lemma SendTouchesOnlyItsPins(ds: int, sh: int, st: int, data: bv8)
    ensures |SendTrace(ds, sh, st, data)| == 26
    ensures forall c :: c in SendTrace(ds, sh, st, data) ==> c.pin == ds || c.pin == sh || c.pin == st
    ensures ds != sh && ds != st ==>
      forall j :: 0 <= j < 26 ==> (SendTrace(ds, sh, st, data)[j].pin == ds <==> j < 24 && j % 3 == 0)
  {
    SendTraceShape(ds, sh, st, data);
    var t := SendTrace(ds, sh, st, data);
    forall j | 0 <= j < 26
      ensures t[j].pin == (if j >= 24 then st else if j % 3 == 0 then ds else sh)
    {
      if j < 24 {
        var i := j / 3;
        assert j == 3 * i + j % 3;
      }
    }
  }

  /**
   * The chip itself, as the driver expects it to behave: the last level of
   * each input pin, the eight stages of the shift register and the eight
   * latches of the storage register, each listed from the stage farthest
   * from DS (it drives Q7' and the high output) to the stage DS feeds. On a
   * rising SH edge every stage takes its neighbour's bit and the last one
   * takes the DS level; on a rising ST edge the latches copy the stages.
   */
  datatype Chip = Chip(ds: GpioPinValue, shClock: GpioPinValue, stClock: GpioPinValue, shift: seq<bool>, storage: seq<bool>)

  function Step(c: Chip, ds: int, sh: int, st: int, call: GpioCall): Chip
  {
    match call
    case Direction(_, _) => c
    case Write(pin, v) =>
      var shiftEdge := pin == sh && c.shClock == Low && v == High;
      var storeEdge := pin == st && c.stClock == Low && v == High;
      Chip(if pin == ds then v else c.ds,
           if pin == sh then v else c.shClock,
           if pin == st then v else c.stClock,
           if shiftEdge then (c.shift + [c.ds == High])[1..] else c.shift,
           if storeEdge then c.shift else c.storage)
  }

  /** The chip after the calls of `trace`, in order. */
  function Run(c: Chip, ds: int, sh: int, st: int, trace: seq<GpioCall>): Chip
    decreases |trace|
  {
    if trace == [] then c
    else Step(Run(c, ds, sh, st, trace[..|trace| - 1]), ds, sh, st, trace[|trace| - 1])
  }

  lemma {:induction false} RunAppend(c: Chip, ds: int, sh: int, st: int, a: seq<GpioCall>, b: seq<GpioCall>)
    ensures Run(c, ds, sh, st, a + b) == Run(Run(c, ds, sh, st, a), ds, sh, st, b)
    decreases |b|
  {
    if b == [] {
      assert a + b == a;
    } else {
      var b' := b[..|b| - 1];
      assert (a + b)[..|a + b| - 1] == a + b';
      assert (a + b)[|a + b| - 1] == b[|b| - 1];
      RunAppend(c, ds, sh, st, a, b');
    }
  }

  /** The bits of `data` that its first `n` pulses carry, most significant first. */
  function SentBits(data: bv8, n: nat): seq<bool>
    requires n <= 8
  {
    if n == 0 then [] else SentBits(data, n - 1) + [Bit(data, 8 - n)]
  }

  lemma {:induction false} SentBitsAre(data: bv8, n: nat)
    requires n <= 8
    ensures |SentBits(data, n)| == n
    ensures forall k :: 0 <= k < n ==> SentBits(data, n)[k] == Bit(data, 7 - k)
  {
    if n > 0 {
      SentBitsAre(data, n - 1);
    }
  }

  /** One bit: DS takes the level, then the SH pulse shifts it in. */
  lemma RunBit(c: Chip, ds: int, sh: int, st: int, v: GpioPinValue)
    requires ds != sh && ds != st && sh != st
    ensures Run(c, ds, sh, st, [Write(ds, v), Write(sh, Low), Write(sh, High)])
         == Chip(v, High, c.stClock, (c.shift + [v == High])[1..], c.storage)
  {
    var t := [Write(ds, v), Write(sh, Low), Write(sh, High)];
    assert t[..2] == [Write(ds, v), Write(sh, Low)] && t[..2][..1] == [Write(ds, v)] && t[..2][..1][..0] == [];
    var c1 := Step(c, ds, sh, st, Write(ds, v));
    assert Run(c, ds, sh, st, t[..2][..1]) == c1;
    var c2 := Step(c1, ds, sh, st, Write(sh, Low));
    assert Run(c, ds, sh, st, t[..2]) == c2;
  }

  /** An ST pulse copies the shift register into the storage register. */
  lemma RunLatch(c: Chip, ds: int, sh: int, st: int)
    requires ds != sh && ds != st && sh != st
    ensures Run(c, ds, sh, st, PulseTrace(st)) == Chip(c.ds, c.shClock, High, c.shift, c.shift)
  {
    var t := PulseTrace(st);
    assert t[..1] == [Write(st, Low)] && t[..1][..0] == [];
    var c1 := Step(c, ds, sh, st, Write(st, Low));
    assert Run(c, ds, sh, st, t[..1]) == c1;
  }

  /** A shift drops the oldest stage and appends the new bit. */
  lemma StageShift(stages: seq<bool>, n: nat, bits: seq<bool>, b: bool)
    requires 0 < n <= |stages|
    ensures (stages[n - 1..] + bits + [b])[1..] == stages[n..] + (bits + [b])
  {
  }

  /**
   * The first `n` bits push the `n` oldest stages out and enter behind the
   * others; the storage register and its clock stay as they were.
   */
  lemma {:induction false} ShiftTraceLoads(c: Chip, ds: int, sh: int, st: int, data: bv8, n: nat)
    requires ds != sh && ds != st && sh != st
    requires n <= 8 && |c.shift| == 8
    ensures var d := Run(c, ds, sh, st, ShiftTrace(ds, sh, data, n));
      && d.shift == c.shift[n..] + SentBits(data, n)
      && d.storage == c.storage && d.stClock == c.stClock
  {
    if n > 0 {
      var prefix := ShiftTrace(ds, sh, data, n - 1);
      var level := BitLevel(data, 8 - n);
      var bit := [Write(ds, level), Write(sh, Low), Write(sh, High)];
      assert ShiftTrace(ds, sh, data, n) == prefix + bit;
      ShiftTraceLoads(c, ds, sh, st, data, n - 1);
      RunAppend(c, ds, sh, st, prefix, bit);
      RunBit(Run(c, ds, sh, st, prefix), ds, sh, st, level);
      StageShift(c.shift, n, SentBits(data, n - 1), level == High);
    }
  }

  /**
   * On a chip wired to three distinct pins, Send leaves `data` in the storage
   * register and in the shift register, whatever the chip held before: the
   * latch k places from the far end holds bit 7 - k.
   */
  lemma SendLatchesData(c: Chip, ds: int, sh: int, st: int, data: bv8)
    requires ds != sh && ds != st && sh != st
    requires |c.shift| == 8
    ensures var d := Run(c, ds, sh, st, SendTrace(ds, sh, st, data));
      && |d.storage| == 8 && d.shift == d.storage
      && forall k :: 0 <= k < 8 ==> d.storage[k] == Bit(data, 7 - k)
  {
    var shifts := ShiftTrace(ds, sh, data, 8);
    ShiftTraceLoads(c, ds, sh, st, data, 8);
    SentBitsAre(data, 8);
    RunAppend(c, ds, sh, st, shifts, PulseTrace(st));
    RunLatch(Run(c, ds, sh, st, shifts), ds, sh, st);
    assert c.shift[8..] + SentBits(data, 8) == SentBits(data, 8);
  }
}
