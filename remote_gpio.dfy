/**
 * The remote GPIO backend of GPIO/RemoteGpio.cs: every call is translated
 * to a WiringPi pin, framed, and written to the socket of the session.
 */
module RemoteBackend {
  import opened Wrappers
  import opened GpioTypes
  import opened PinMapping
  import opened Gpio
  import opened WireProtocol

  class RemoteGpio {
    /** The GpioBase part: the caller's naming and the pin translation. */
    const base: GpioBase
    /** The process-wide translator. */
    const mapping: PinNumberMapping
    const remoteAddress: string
    const port: int
    /** The open connection; null once released. */
    var socket: Socket?

    /**
     * Connects to `remoteAddress` (the local host when absent or empty) on
     * `port`; `connection` is the connected socket.
     */
    constructor (pinNaming: PinNaming, mapping: PinNumberMapping, connection: Socket,
                 remoteAddress: Option<string> := None, port: int := DefaultPort)
      ensures base.CurrentPinNaming() == pinNaming && this.mapping == mapping && socket == connection
      ensures this.remoteAddress == RemoteAddressOrDefault(remoteAddress) && this.port == port
    {
      base := new GpioBase(pinNaming);
      this.mapping := mapping;
      this.remoteAddress := RemoteAddressOrDefault(remoteAddress);
      this.port := port;
      socket := connection;
    }

    /** The parameterless constructor: BCM naming, local host, port 5555. */
    constructor Default(mapping: PinNumberMapping, connection: Socket)
      ensures base.CurrentPinNaming() == BCM && this.mapping == mapping && socket == connection
      ensures remoteAddress == LocalAddress && port == DefaultPort
    {
      base := new GpioBase(BCM);
      this.mapping := mapping;
      remoteAddress := RemoteAddressOrDefault(None);
      port := DefaultPort;
      socket := connection;
    }

    function CurrentPinNaming(): PinNaming
    {
      base.CurrentPinNaming()
    }

    /** SetPinDirection: sends [1, wire pin, direction]. */
    method SetPinDirection(pinNumber: int, direction: GpioPinDirection) returns (r: Outcome<GpioError>)
      requires mapping.Valid()
      modifies socket
      ensures var wp := base.GetTargetPinNumber(mapping, pinNumber);
        if wp.Failure? then r == Fail(wp.error) && (socket != null ==> unchanged(socket))
        else if socket == null then r == Fail(SocketReleased)
        else Transmitted(socket, Encode(SetDirection(LowByte(wp.value), direction)), r)
    {
      var wp := base.GetTargetPinNumber(mapping, pinNumber);
      if wp.Failure? {
        return Fail(wp.error);
      }
      r := SendPackage(Encode(SetDirection(LowByte(wp.value), direction)));
    }

    /** The indexer's getter: sends [3, wire pin], then receives one byte and returns it as is. */
    method GetPinValue(pinNumber: int) returns (r: Result<byte, GpioError>)
      requires mapping.Valid()
      modifies socket
      ensures var wp := base.GetTargetPinNumber(mapping, pinNumber);
        if wp.Failure? then r == Failure(wp.error) && (socket != null ==> unchanged(socket))
        else if socket == null then r == Failure(SocketReleased)
        else
          var frame := Encode(GetValue(LowByte(wp.value)));
          && socket.sent == old(socket.sent) + frame[..Min(2, old(socket.sendCapacity))]
          && socket.sendCapacity == old(socket.sendCapacity) - Min(2, old(socket.sendCapacity))
          && socket.closed == old(socket.closed)
          && if old(socket.sendCapacity) < 2 then
               r == Failure(ProtocolViolation(old(socket.sendCapacity), 2)) && socket.incoming == old(socket.incoming)
             else if old(socket.incoming) == [] then
               r == Failure(ProtocolViolation(0, 1)) && socket.incoming == []
             else
               r == Success(old(socket.incoming)[0]) && socket.incoming == old(socket.incoming)[1..]
    {
      var wp := base.GetTargetPinNumber(mapping, pinNumber);
      if wp.Failure? {
        return Failure(wp.error);
      }
      var sendResult := SendPackage(Encode(GetValue(LowByte(wp.value))));
      if sendResult.Fail? {
        return Failure(sendResult.error);
      }
      var data := ReadPackage(1);
      if data.Failure? {
        return Failure(data.error);
      }
      r := Success(data.value[0]);
    }

    /** The indexer's setter: sends [2, wire pin, value]. */
    method SetPinValue(pinNumber: int, value: GpioPinValue) returns (r: Outcome<GpioError>)
      requires mapping.Valid()
      modifies socket
      ensures var wp := base.GetTargetPinNumber(mapping, pinNumber);
        if wp.Failure? then r == Fail(wp.error) && (socket != null ==> unchanged(socket))
        else if socket == null then r == Fail(SocketReleased)
        else Transmitted(socket, Encode(SetValue(LowByte(wp.value), value)), r)
    {
      var wp := base.GetTargetPinNumber(mapping, pinNumber);
      if wp.Failure? {
        return Fail(wp.error);
      }
      r := SendPackage(Encode(SetValue(LowByte(wp.value), value)));
    }

    /** SetButtonMode: sends [4, wire pin, mode]. */
    method SetButtonMode(pinNumber: int, mode: ButtonMode) returns (r: Outcome<GpioError>)
      requires mapping.Valid()
      modifies socket
      ensures var wp := base.GetTargetPinNumber(mapping, pinNumber);
        if wp.Failure? then r == Fail(wp.error) && (socket != null ==> unchanged(socket))
        else if socket == null then r == Fail(SocketReleased)
        else Transmitted(socket, Encode(SetMode(LowByte(wp.value), mode)), r)
    {
      var wp := base.GetTargetPinNumber(mapping, pinNumber);
      if wp.Failure? {
        return Fail(wp.error);
      }
      r := SendPackage(Encode(SetMode(LowByte(wp.value), mode)));
    }

    /** Dispose runs the release hook. */
    method Dispose()
      modifies this, socket
      ensures socket == null
      ensures old(socket) != null ==>
        && old(socket).closed
        && old(socket).sent == old(socket.sent) + Encode(EndSession)[..Min(1, old(socket.sendCapacity))]
        && old(socket).sendCapacity == old(socket.sendCapacity) - Min(1, old(socket.sendCapacity))
        && old(socket).incoming == old(socket.incoming)
    {
      DisposeInstance();
    }

    /**
     * The release hook: on an open socket, sends [0] (a short send is
     * ignored), closes the socket and forgets it; on a released one, nothing.
     */
    method DisposeInstance()
      modifies this, socket
      ensures socket == null
      ensures old(socket) != null ==>
        && old(socket).closed
        && old(socket).sent == old(socket.sent) + Encode(EndSession)[..Min(1, old(socket.sendCapacity))]
        && old(socket).sendCapacity == old(socket.sendCapacity) - Min(1, old(socket.sendCapacity))
        && old(socket).incoming == old(socket.incoming)
    {
      if socket != null {
        var _ := socket.Send(Encode(EndSession));
        socket.Dispose();
        socket := null;
      }
    }

    /** SendPackage: a send that moves fewer bytes than the frame is a ProtocolViolation. */
    method SendPackage(package: seq<byte>) returns (r: Outcome<GpioError>)
      modifies socket
      ensures socket == null ==> r == Fail(SocketReleased)
      ensures socket != null ==> Transmitted(socket, package, r)
    {
      if socket == null {
        return Fail(SocketReleased);
      }
      var n := socket.Send(package);
      if n != |package| {
        return Fail(ProtocolViolation(n, |package|));
      }
      r := Pass;
    }

    /** ReadPackage: a receive that moves fewer bytes than expected is a ProtocolViolation. */
    method ReadPackage(packageSize: nat) returns (r: Result<seq<byte>, GpioError>)
      modifies socket
      ensures socket == null ==> r == Failure(SocketReleased)
      ensures socket != null ==>
        var n := Min(packageSize, |old(socket.incoming)|);
        && socket.incoming == old(socket.incoming)[n..]
        && socket.sent == old(socket.sent) && socket.sendCapacity == old(socket.sendCapacity) && socket.closed == old(socket.closed)
        && r == if n == packageSize then Success(old(socket.incoming)[..n]) else Failure(ProtocolViolation(n, packageSize))
    {
      if socket == null {
        return Failure(SocketReleased);
      }
      var package := new byte[packageSize];
      var n := socket.Receive(package);
      if n != packageSize {
        return Failure(ProtocolViolation(n, packageSize));
      }
      assert package[..] == package[..n];
      r := Success(package[..]);
    }
  }

  /** Releasing twice sends the End frame once and leaves the socket forgotten. */
  method DisposeTwice(g: RemoteGpio)
    requires g.socket != null
    modifies g, g.socket
    ensures g.socket == null && old(g.socket).closed
    ensures old(g.socket).sent == old(g.socket.sent) + Encode(EndSession)[..Min(1, old(g.socket.sendCapacity))]
  {
    g.Dispose();
    g.Dispose();
  }
}
