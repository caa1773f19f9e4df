/**
 * The joystick event record of JoystickEvent.cs: the 8-byte `struct js_event`
 * of the Linux joystick interface (section 2, "Event Reading", of the kernel's
 * joystick API document) read as a little-endian u32 time in milliseconds, an
 * s16 value, a u8 type and a u8 axis or button number.
 */
module Joysticks {
  import opened Wrappers
  import opened GpioTypes

  newtype uint32 = x: int | 0 <= x < 0x1_0000_0000
  newtype int32 = x: int | -0x8000_0000 <= x < 0x8000_0000

  /** The flags of JoystickEventType.cs, a `[Flags]` enum over byte. */
  const TypeNone: bv8 := 0x00
  const TypeButton: bv8 := 0x01
  const TypeAxis: bv8 := 0x02
  const TypeInit: bv8 := 0x80

  /** One member of the enum: its name and its value. */
  datatype Declaration = Declaration(name: string, value: bv8)

  /** The enum's members, in declaration order. */
  const Declared: seq<Declaration> := [
    Declaration("None", TypeNone),
    Declaration("Button", TypeButton),
    Declaration("Axis", TypeAxis),
    Declaration("INIT", TypeInit)
  ]

  /** What `Enum.GetNames` returns: the names in ascending order of value. */
  const EnumNames: seq<string> := ["None", "Button", "Axis", "INIT"]

  /**
   * `Enum.Parse` on member names: the value of the member called `name`, if
   * there is one. Numerals and comma-separated flag lists, which `Enum.Parse`
   * also accepts, are outside this function.
   */
  function Parse(name: string): (v: Option<bv8>)
    ensures v.Some? <==> exists d :: d in Declared && d.name == name
    ensures forall d :: d in Declared && d.name == name ==> v == Some(d.value)
  {
    if name == "None" then Some(TypeNone)
    else if name == "Button" then Some(TypeButton)
    else if name == "Axis" then Some(TypeAxis)
    else if name == "INIT" then Some(TypeInit)
    else None
  }

  /** The flag table the type constructor leaves in `AllJoystickEventTypes`. */
  const EventTypeTable: seq<bv8> := [TypeNone, TypeButton, TypeAxis, TypeInit]

  /**
   * The type constructor: parses every name `Enum.GetNames` gives, in order,
   * into a fresh array.
   */
  method LoadEventTypes() returns (eventTypes: array<bv8>)
    ensures fresh(eventTypes)
    ensures eventTypes.Length == |EnumNames|
    ensures forall i :: 0 <= i < |EnumNames| ==> Parse(EnumNames[i]) == Some(eventTypes[i])
    ensures eventTypes[..] == EventTypeTable
  {
    eventTypes := new bv8[|EnumNames|];
    for i := 0 to |EnumNames|
      invariant forall j :: 0 <= j < i ==> Parse(EnumNames[j]) == Some(eventTypes[j])
    {
      var parsed := Parse(EnumNames[i]);
      eventTypes[i] := parsed.value;
    }
    NamesListEveryMember();
  }

  /**
   * The names are exactly the declared members once each, in ascending order
   * of value, so the table holds every flag once, None first.
   */
  lemma NamesListEveryMember()
    ensures |EnumNames| == |Declared|
    ensures forall i :: 0 <= i < |EnumNames| ==> EnumNames[i] == Declared[i].name
    ensures forall i, j :: 0 <= i < j < |Declared| ==> Declared[i].value < Declared[j].value
    ensures forall i :: 0 <= i < |EventTypeTable| ==> Parse(EnumNames[i]) == Some(EventTypeTable[i])
  {
  }

  /** A value with at most one bit set. */
  predicate SingleBit(f: bv8)
  {
    f == 0x00 || f == 0x01 || f == 0x02 || f == 0x04 || f == 0x08 || f == 0x10 || f == 0x20 || f == 0x40 || f == 0x80
  }

  /** The table holds each declared value exactly once, and each has at most one bit set. */
  lemma EventTypeTableIsTheEnum()
    ensures forall d :: d in Declared ==> d.value in EventTypeTable
    ensures forall v :: v in EventTypeTable ==> exists d :: d in Declared && d.value == v
    ensures forall i, j :: 0 <= i < j < |EventTypeTable| ==> EventTypeTable[i] != EventTypeTable[j]
    ensures forall i :: 0 <= i < |EventTypeTable| ==> SingleBit(EventTypeTable[i])
  {
    assert forall i :: 0 <= i < |EventTypeTable| ==> Declared[i].value == EventTypeTable[i];
  }

  /** The loop of the instance constructor over the first flags of the table: each flag the type byte has is OR-ed in. */
  function Accumulate(typeByte: bv8, flags: seq<bv8>): (eventType: bv8)
    ensures (forall i :: 0 <= i < |flags| ==> typeByte & flags[i] == 0) ==> eventType == TypeNone
  {
    if flags == [] then TypeNone
    else
      var f := flags[|flags| - 1];
      var acc := Accumulate(typeByte, flags[..|flags| - 1]);
      if typeByte & f != 0 then acc | f else acc
  }

  /**
   * Testing a single-bit flag and OR-ing it in when the type byte has it
   * extends an AND with the flags seen so far by that flag.
   */
  lemma SingleBitTest(t: bv8, acc: bv8, seen: bv8, f: bv8)
    requires SingleBit(f) && acc == t & seen
    ensures (if t & f != 0 then acc | f else acc) == t & (seen | f)
  {
  }

  /** One step of the loop: testing flag `f` and OR-ing it in. */
  lemma AccumulateStep(t: bv8, flags: seq<bv8>, seen: bv8, f: bv8)
    requires SingleBit(f) && Accumulate(t, flags) == t & seen
    ensures Accumulate(t, flags + [f]) == t & (seen | f)
  {
    assert (flags + [f])[..|flags|] == flags;
    SingleBitTest(t, Accumulate(t, flags), seen, f);
  }

  /** The event type keeps the Button, Axis and INIT bits of the type byte and drops bits 2 to 6. */
  lemma EventTypeMasks(typeByte: bv8)
    ensures Accumulate(typeByte, EventTypeTable) == typeByte & 0x83
  {
    assert Accumulate(typeByte, []) == typeByte & 0x00;
    AccumulateStep(typeByte, [], 0x00, TypeNone);
    assert [] + [TypeNone] == [TypeNone];
    AccumulateStep(typeByte, [TypeNone], 0x00, TypeButton);
    assert [TypeNone] + [TypeButton] == [TypeNone, TypeButton];
    AccumulateStep(typeByte, [TypeNone, TypeButton], 0x01, TypeAxis);
    assert [TypeNone, TypeButton] + [TypeAxis] == [TypeNone, TypeButton, TypeAxis];
    AccumulateStep(typeByte, [TypeNone, TypeButton, TypeAxis], 0x03, TypeInit);
    assert [TypeNone, TypeButton, TypeAxis] + [TypeInit] == EventTypeTable;
  }

  /** A decoded or constructed event; the field-wise constructor is the datatype's. */
  datatype JoystickEvent = JoystickEvent(eventTimestamp: uint32, value: int32, eventType: bv8, number: int32)

  /** The exceptions of the decoding constructor, thrown by BitConverter and the array indexer. */
  datatype DecodeError =
    | ArgumentOutOfRange(startIndex: nat)
    | ArgumentTooShort(startIndex: nat)
    | IndexOutOfRange(index: nat)

  /** The little-endian unsigned value of four bytes. */
  function UInt32At(b0: byte, b1: byte, b2: byte, b3: byte): uint32
  {
    (b0 as int + 0x100 * b1 as int + 0x1_0000 * b2 as int + 0x100_0000 * b3 as int) as uint32
  }

  /** The little-endian two's-complement value of two bytes. */
  function Int16At(b0: byte, b1: byte): int32
  {
    var u := b0 as int + 0x100 * b1 as int;
    (if u < 0x8000 then u else u - 0x1_0000) as int32
  }

  /** BitConverter's check of `startIndex` against a value of `size` bytes. */
  function CheckRange(length: nat, startIndex: nat, size: nat): Option<DecodeError>
  {
    if startIndex >= length then Some(ArgumentOutOfRange(startIndex))
    else if startIndex > length - size then Some(ArgumentTooShort(startIndex))
    else None
  }

  /** The decoding constructor, as a value: the exception it throws, or its event. */
  function Decode(eventData: seq<byte>): (r: Result<JoystickEvent, DecodeError>)
    ensures r.Success? <==> |eventData| >= 8
    ensures r.Success? ==> -0x8000 <= r.value.value as int < 0x8000 && 0 <= r.value.number as int < 0x100
  {
    var n := |eventData|;
    if CheckRange(n, 0, 4).Some? then Failure(CheckRange(n, 0, 4).value)
    else if CheckRange(n, 4, 2).Some? then Failure(CheckRange(n, 4, 2).value)
    else if n <= 6 then Failure(IndexOutOfRange(6))
    else if n <= 7 then Failure(IndexOutOfRange(7))
    else Success(JoystickEvent(
      UInt32At(eventData[0], eventData[1], eventData[2], eventData[3]),
      Int16At(eventData[4], eventData[5]),
      Accumulate(eventData[6] as bv8, EventTypeTable),
      eventData[7] as int as int32))
  }

  /**
   * The decoding constructor: the four fields are read in order, then the
   * event type is built by testing each flag of the table against the type byte.
   */
  method FromEventData(eventData: seq<byte>) returns (r: Result<JoystickEvent, DecodeError>)
    ensures r == Decode(eventData)
  {
    var n := |eventData|;
    var check := CheckRange(n, 0, 4);
    if check.Some? {
      return Failure(check.value);
    }
    var timestamp := UInt32At(eventData[0], eventData[1], eventData[2], eventData[3]);
    check := CheckRange(n, 4, 2);
    if check.Some? {
      return Failure(check.value);
    }
    var value := Int16At(eventData[4], eventData[5]);
    if n <= 6 {
      return Failure(IndexOutOfRange(6));
    }
    var typeByte := eventData[6] as bv8;
    if n <= 7 {
      return Failure(IndexOutOfRange(7));
    }
    var number := eventData[7] as int as int32;
    var eventType := TypeNone;
    for i := 0 to |EventTypeTable|
      invariant eventType == Accumulate(typeByte, EventTypeTable[..i])
    {
      var joystickEventType := EventTypeTable[i];
      if typeByte & joystickEventType != 0 {
        eventType := eventType | joystickEventType;
      }
      assert EventTypeTable[..i + 1][..i] == EventTypeTable[..i];
    }
    assert EventTypeTable[..|EventTypeTable|] == EventTypeTable;
    r := Success(JoystickEvent(timestamp, value, eventType, number));
  }

  /**
   * A record of eight bytes or more decodes to its fields: the u32 of bytes
   * 0 to 3, the s16 of bytes 4 and 5, the declared flags of byte 6 and byte 7;
   * bytes after the eighth are ignored.
   */
  lemma DecodeFields(eventData: seq<byte>)
    requires |eventData| >= 8
    ensures Decode(eventData).Success?
    ensures var e := Decode(eventData).value;
      && e.eventTimestamp as int == eventData[0] as int + 0x100 * eventData[1] as int
                                    + 0x1_0000 * eventData[2] as int + 0x100_0000 * eventData[3] as int
      && -0x8000 <= e.value as int < 0x8000
      && (e.value as int) % 0x1_0000 == eventData[4] as int + 0x100 * eventData[5] as int
      && e.eventType == (eventData[6] as bv8) & 0x83
      && 0 <= e.number as int < 0x100 && e.number as int == eventData[7] as int
  {
    EventTypeMasks(eventData[6] as bv8);
  }

  /** Decoding fails exactly on records shorter than eight bytes, with the exception of the first read past the end. */
  lemma DecodeFailsOnShortRecords(eventData: seq<byte>)
    ensures Decode(eventData).Failure? <==> |eventData| < 8
    ensures |eventData| == 0 ==> Decode(eventData) == Failure(ArgumentOutOfRange(0))
    ensures 0 < |eventData| < 4 ==> Decode(eventData) == Failure(ArgumentTooShort(0))
    ensures |eventData| == 4 ==> Decode(eventData) == Failure(ArgumentOutOfRange(4))
    ensures |eventData| == 5 ==> Decode(eventData) == Failure(ArgumentTooShort(4))
    ensures |eventData| == 6 ==> Decode(eventData) == Failure(IndexOutOfRange(6))
    ensures |eventData| == 7 ==> Decode(eventData) == Failure(IndexOutOfRange(7))
  {
  }

  /** A type byte of 0 is None; Button and Axis come with INIT during the initial burst. */
  lemma EventTypeExamples()
    ensures Accumulate(0x00, EventTypeTable) == TypeNone
    ensures Accumulate(0x81, EventTypeTable) == TypeButton | TypeInit
    ensures Accumulate(0x82, EventTypeTable) == TypeAxis | TypeInit
    ensures Accumulate(0x7C, EventTypeTable) == TypeNone
  {
    EventTypeMasks(0x00);
    EventTypeMasks(0x81);
    EventTypeMasks(0x82);
    EventTypeMasks(0x7C);
  }

  /** An event a record can carry: a 16-bit value, declared flags only, a byte-sized number. */
  predicate Encodable(e: JoystickEvent)
  {
    && -0x8000 <= e.value as int < 0x8000
    && e.eventType & 0x83 == e.eventType
    && 0 <= e.number as int < 0x100
  }

  /** The record the kernel would write for `e`. */
  function EventData(e: JoystickEvent): (d: seq<byte>)
    requires Encodable(e)
    ensures |d| == 8
  {
    var t := e.eventTimestamp as int;
    var u := if e.value < 0 then e.value as int + 0x1_0000 else e.value as int;
    [(t % 0x100) as byte, (t / 0x100 % 0x100) as byte, (t / 0x1_0000 % 0x100) as byte, (t / 0x100_0000) as byte,
     (u % 0x100) as byte, (u / 0x100) as byte, e.eventType as int as byte, e.number as int as byte]
  }

  /** Splitting into the four bytes of the record and joining them again gives the timestamp back. */
  lemma TimestampBytes(t: int)
    requires 0 <= t < 0x1_0000_0000
    ensures t == t % 0x100 + 0x100 * (t / 0x100 % 0x100) + 0x1_0000 * (t / 0x1_0000 % 0x100) + 0x100_0000 * (t / 0x100_0000)
  {
    var q1 := t / 0x100;
    var q2 := q1 / 0x100;
    assert t == t % 0x100 + 0x100 * q1;
    assert q1 == q1 % 0x100 + 0x100 * q2;
    assert q2 == q2 % 0x100 + 0x100 * (q2 / 0x100);
    assert t / 0x1_0000 == q2 && t / 0x100_0000 == q2 / 0x100;
  }

  /** Every encodable event survives the trip through its record. */
  lemma DecodeEventData(e: JoystickEvent)
    requires Encodable(e)
    ensures Decode(EventData(e)) == Success(e)
  {
    var d := EventData(e);
    TimestampBytes(e.eventTimestamp as int);
    EventTypeMasks(e.eventType);
    assert UInt32At(d[0], d[1], d[2], d[3]) == e.eventTimestamp;
    assert Int16At(d[4], d[5]) == e.value;
  }

  /** The bytes of a record's timestamp are the bytes of the value they make. */
  lemma TimestampOfBytes(b0: int, b1: int, b2: int, b3: int)
    requires 0 <= b0 < 0x100 && 0 <= b1 < 0x100 && 0 <= b2 < 0x100 && 0 <= b3 < 0x100
    ensures var t := b0 + 0x100 * b1 + 0x1_0000 * b2 + 0x100_0000 * b3;
      && t % 0x100 == b0 && t / 0x100 % 0x100 == b1 && t / 0x1_0000 % 0x100 == b2 && t / 0x100_0000 == b3
  {
    var t := b0 + 0x100 * b1 + 0x1_0000 * b2 + 0x100_0000 * b3;
    var q1 := b1 + 0x100 * b2 + 0x1_0000 * b3;
    var q2 := b2 + 0x100 * b3;
    assert t == b0 + 0x100 * q1 && t / 0x100 == q1;
    assert q1 == b1 + 0x100 * q2 && q1 / 0x100 == q2;
    assert t / 0x1_0000 == q2 && t / 0x100_0000 == b3;
  }

  /** The two bytes of a record's value are the bytes of the value they make. */
  lemma ValueOfBytes(b0: int, b1: int)
    requires 0 <= b0 < 0x100 && 0 <= b1 < 0x100
    ensures var w := b0 + 0x100 * b1;
      var v := if w < 0x8000 then w else w - 0x1_0000;
      var u := if v < 0 then v + 0x1_0000 else v;
      u % 0x100 == b0 && u / 0x100 == b1
  {
  }

  /** Every eight-byte record whose type byte has only declared flags is the record of its event. */
  lemma EventDataDecode(eventData: seq<byte>)
    requires |eventData| == 8 && (eventData[6] as bv8) & 0x83 == eventData[6] as bv8
    ensures Decode(eventData).Success? && Encodable(Decode(eventData).value)
    ensures EventData(Decode(eventData).value) == eventData
  {
    DecodeFields(eventData);
    var e := Decode(eventData).value;
    TimestampOfBytes(eventData[0] as int, eventData[1] as int, eventData[2] as int, eventData[3] as int);
    ValueOfBytes(eventData[4] as int, eventData[5] as int);
    BitsOfByte(eventData[6]);
    var d := EventData(e);
    assert d[0] == eventData[0] && d[1] == eventData[1] && d[2] == eventData[2] && d[3] == eventData[3];
    assert d[4] == eventData[4] && d[5] == eventData[5] && d[6] == eventData[6] && d[7] == eventData[7];
  }
}
