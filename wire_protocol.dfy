/**
 * The remote GPIO wire protocol: fixed-size frames with no length prefix,
 * and the stream they travel on.
 */
module WireProtocol {
  import opened Wrappers
  import opened GpioTypes

  /** Where both client revisions connect when not told otherwise. */
  const LocalAddress: string := "localhost"
  const DefaultPort: int := 5555

  /** A null or empty address means the local host. */
  function RemoteAddressOrDefault(remoteAddress: Option<string>): (a: string)
    ensures remoteAddress == None || remoteAddress == Some("") ==> a == LocalAddress
    ensures remoteAddress.Some? && remoteAddress.value != "" ==> a == remoteAddress.value
  {
    if remoteAddress.None? || remoteAddress.value == "" then LocalAddress else remoteAddress.value
  }

  /** The `Command` enum of the remote client. */
  datatype Command = End | SetPinDirection | SetPinValue | GetPinValue | SetButtonMode
  {
    function Opcode(): byte
    {
      match this
      case End => 0
      case SetPinDirection => 1
      case SetPinValue => 2
      case GetPinValue => 3
      case SetButtonMode => 4
    }
  }

  /** One call of the client, with its pin already translated to a wire byte. */
  datatype Request =
    | SetDirection(pin: byte, direction: GpioPinDirection)
    | SetValue(pin: byte, value: GpioPinValue)
    | GetValue(pin: byte)
    | SetMode(pin: byte, mode: ButtonMode)
    | EndSession
  {
    function Command(): Command
    {
      match this
      case SetDirection(_, _) => SetPinDirection
      case SetValue(_, _) => SetPinValue
      case GetValue(_) => GetPinValue
      case SetMode(_, _) => SetButtonMode
      case EndSession => End
    }
  }

  /** Request bytes per command. */
  function FrameSize(c: Command): nat
  {
    match c
    case End => 1
    case GetPinValue => 2
    case _ => 3
  }

  /** Response bytes per command: only a pin read is answered. */
  function ResponseSize(c: Command): nat
  {
    if c == GetPinValue then 1 else 0
  }

  /** The frame the client sends for a request. */
  function Encode(r: Request): (frame: seq<byte>)
    ensures |frame| == FrameSize(r.Command())
    ensures frame[0] == r.Command().Opcode()
    ensures r.EndSession? || frame[1] == r.pin
  {
    match r
    case SetDirection(pin, direction) => [SetPinDirection.Opcode(), pin, direction.ToByte()]
    case SetValue(pin, value) => [SetPinValue.Opcode(), pin, value.ToByte()]
    case GetValue(pin) => [GetPinValue.Opcode(), pin]
    case SetMode(pin, mode) => [SetButtonMode.Opcode(), pin, mode.ToByte()]
    case EndSession => [End.Opcode()]
  }

  /** The frames of a sequence of requests, back to back. */
  function EncodeAll(rs: seq<Request>): seq<byte>
  {
    if rs == [] then [] else Encode(rs[0]) + EncodeAll(rs[1..])
  }

  /** Frames are recognised by their first byte alone: opcodes are distinct. */
  lemma OpcodesDistinct(a: Command, b: Command)
    ensures a.Opcode() == b.Opcode() <==> a == b
  {
  }

  /**
   * A connected stream socket. The model keeps the bytes it has accepted
   * (`sent`), how many more it will accept (`sendCapacity`: a send beyond it
   * is short), and the bytes the peer has sent that wait to be received.
   */
  class Socket {
    ghost var sent: seq<byte>
    var sendCapacity: nat
    var incoming: seq<byte>
    var closed: bool

    constructor (sendCapacity: nat, incoming: seq<byte>)
      ensures this.sent == [] && this.sendCapacity == sendCapacity && this.incoming == incoming && !closed
    {
      this.sent := [];
      this.sendCapacity := sendCapacity;
      this.incoming := incoming;
      this.closed := false;
    }

    /** Sends as much of `package` as the connection accepts; returns the count. */
    method Send(package: seq<byte>) returns (n: nat)
      modifies this
      ensures n == Min(|package|, old(sendCapacity))
      ensures sent == old(sent) + package[..n] && sendCapacity == old(sendCapacity) - n
      ensures incoming == old(incoming) && closed == old(closed)
    {
      n := Min(|package|, sendCapacity);
      sent := sent + package[..n];
      sendCapacity := sendCapacity - n;
    }

    /** Receives up to `buffer.Length` waiting bytes into the front of `buffer`. */
    method Receive(buffer: array<byte>) returns (n: nat)
      modifies this, buffer
      ensures n == Min(buffer.Length, |old(incoming)|)
      ensures buffer[..n] == old(incoming)[..n] && buffer[n..] == old(buffer[n..])
      ensures incoming == old(incoming)[n..]
      ensures sent == old(sent) && sendCapacity == old(sendCapacity) && closed == old(closed)
    {
      var data := incoming;
      n := Min(buffer.Length, |data|);
      for i := 0 to n
        modifies buffer
        invariant buffer[..i] == data[..i] && buffer[i..] == old(buffer[i..])
      {
        buffer[i] := data[i];
      }
      incoming := data[n..];
    }

    method Dispose()
      modifies this
      ensures closed
      ensures sent == old(sent) && sendCapacity == old(sendCapacity) && incoming == old(incoming)
    {
      closed := true;
    }
  }

  /**
   * What a send of `frame` leaves behind: the accepted prefix appended to the
   * stream, and a ProtocolViolation naming the count when the send was short.
   */
  twostate predicate Transmitted(s: Socket, frame: seq<byte>, new r: Outcome<GpioError>)
    reads s
  {
    var n := Min(|frame|, old(s.sendCapacity));
    && s.sent == old(s.sent) + frame[..n]
    && s.sendCapacity == old(s.sendCapacity) - n
    && s.incoming == old(s.incoming) && s.closed == old(s.closed)
    && r == if n == |frame| then Pass else Fail(ProtocolViolation(n, |frame|))
  }
}
