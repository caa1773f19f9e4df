/**
 * The enumerations of the GPIO library and their byte values, and the
 * exceptions that the GPIO layer raises.
 */
module GpioTypes {

  /** An unsigned 8-bit value, as C# `byte` and the bytes on the wire. */
  newtype byte = x: int | 0 <= x < 256

  /**
   * The low eight bits of an integer: C#'s unchecked `(byte)` cast, and the
   * store of an `int` into an unsigned `char`. The byte is congruent to the
   * integer modulo 256, and equal to it when it fits.
   */
  function LowByte(x: int): (b: byte)
    ensures (x - b as int) % 256 == 0
    ensures 0 <= x < 256 ==> b as int == x
  {
    (x % 256) as byte
  }

  /** Reading a byte's bits as an unsigned number gives the byte back. */
  lemma BitsOfByte(b: byte)
    ensures (b as bv8) as int == b as int
  {
    assert 0 <= b as int < 256;
  }

  /** The three pin-numbering systems (PinNaming.cs, in declaration order). */
  datatype PinNaming = Physical | WiringPi | BCM
  {
    /** The enum's integer value, which is also its row in the pin table. */
    function Index(): (i: nat)
      ensures i < 3
    {
      match this
      case Physical => 0
      case WiringPi => 1
      case BCM => 2
    }
  }

  /** The values of PinNaming in the order reflection enumerates them. */
  const AllNamings: seq<PinNaming> := [Physical, WiringPi, BCM]

  datatype GpioPinDirection = Input | Output
  {
    function ToByte(): byte
    {
      if Input? then 0 else 1
    }
  }

  datatype GpioPinValue = Low | High
  {
    function ToByte(): byte
    {
      if Low? then 0 else 1
    }
  }

  datatype ButtonMode = Off | PudDown | PudUp
  {
    function ToByte(): byte
    {
      match this
      case Off => 0
      case PudDown => 1
      case PudUp => 2
    }
  }

  /** The exceptions raised by the GPIO layer. */
  datatype GpioError =
      /** ArgumentException: a pin number that cannot be translated. */
    | CannotConvertPin(pinNumber: int, source: PinNaming, target: PinNaming)
      /** ArgumentException("mapping"): no translator was given. */
    | NullMapping
      /** ApplicationException: a send or receive moved `transferred` bytes of `expected`. */
    | ProtocolViolation(transferred: int, expected: int)
      /** NullReferenceException: an operation on a backend whose socket was released. */
    | SocketReleased

  lemma EnumByteValues()
    ensures Input.ToByte() == 0 && Output.ToByte() == 1
    ensures Low.ToByte() == 0 && High.ToByte() == 1
    ensures Off.ToByte() == 0 && PudDown.ToByte() == 1 && PudUp.ToByte() == 2
    ensures Physical.Index() == 0 && WiringPi.Index() == 1 && BCM.Index() == 2
  {
  }
}
