/**
 * The peer of the remote GPIO clients: the per-connection command loop of
 * PiConnector/main.c. The connection is the finite byte stream the client
 * sends before it closes; the hardware is wiringPi, whose calls are recorded.
 */
module PiConnector {
  import opened Wrappers
  import opened GpioTypes
  import opened WireProtocol

  /** The command identifiers of the server. */
  const CommandEnd: byte := 0
  const CommandPinSetMode: byte := 1
  const CommandPinSetValue: byte := 2
  const CommandPinGetValue: byte := 3
  const CommandButtonSetMode: byte := 4

  /** wiringPi's INPUT/OUTPUT, LOW/HIGH and PUD_OFF/PUD_DOWN/PUD_UP. */
  const ModeInput: byte := 0
  const ModeOutput: byte := 1
  const LevelLow: byte := 0
  const LevelHigh: byte := 1
  const PudOff: byte := 0
  const PudDown: byte := 1
  const PudUp: byte := 2

  const DefaultListenPort: int := 5555

  /** The listening port: the first argument read by `atoi`, 5555 when there is none. */
  function ListenPort(argv: seq<string>, atoi: string -> int): (port: int)
    ensures |argv| < 2 ==> port == DefaultListenPort
    ensures |argv| >= 2 ==> port == atoi(argv[1])
  {
    if |argv| < 2 then DefaultListenPort else atoi(argv[1])
  }

  /**
   * A call into wiringPi, with the arguments the server passes. Each is an
   * (unsigned) buffer byte or a wiringPi constant widened to int, so a byte
   * holds it exactly.
   */
  datatype HardwareCall =
    | PinMode(pin: byte, mode: byte)
    | DigitalWrite(pin: byte, value: byte)
    | DigitalRead(pin: byte)
    | PullUpDnControl(pin: byte, pud: byte)

  /** Why a session ended. */
  datatype StopReason =
      /** The End command. */
    | EndCommand
      /** The read of a command byte returned nothing. */
    | ConnectionClosed
      /** The operands of `opcode` were short. */
    | ShortOperands(opcode: byte)
      /** The reply of a pin read could not be written. */
    | ShortReply
      /** An unknown command byte. */
    | BadCommand(opcode: byte)

  /**
   * What a session did: the hardware calls in order, the reply bytes
   * written, the request bytes read, and why it ended.
   */
  datatype SessionLog = SessionLog(calls: seq<HardwareCall>, replies: seq<byte>, consumed: nat, stop: StopReason)

  /** `rest` preceded by calls, replies and read bytes that came before it. */
  function Then(calls: seq<HardwareCall>, replies: seq<byte>, consumed: nat, rest: SessionLog): SessionLog
  {
    SessionLog(calls + rest.calls, replies + rest.replies, consumed + rest.consumed, rest.stop)
  }

  /**
   * The level digitalRead returns: `levels(k, pin)` on the k-th pin read of
   * the session.
   */
  type Levels = (nat, byte) -> int

  /** A zero operand byte selects the first value, any other the second. */
  function Choose(b: byte, zero: byte, nonZero: byte): byte
  {
    if b != 0 then nonZero else zero
  }

  /**
   * The session from position `pos` of `input` on, having made `readCount`
   * pin reads so far and with room for `writeRoom` more reply bytes: it ends
   * by a closed connection when the stream is exhausted, otherwise the
   * command at `pos` decides.
   */
  function Serve(input: seq<byte>, pos: nat, levels: Levels, readCount: nat, writeRoom: nat): (log: SessionLog)
    requires pos <= |input|
    ensures log.consumed <= |input| - pos && |log.replies| <= writeRoom
    decreases |input| - pos, 2
  {
    if pos == |input| then SessionLog([], [], 0, ConnectionClosed)
    else Command(input, pos, levels, readCount, writeRoom)
  }

  /**
   * One round of the loop, on the command byte at `pos`: either the session
   * stops here, or the command's calls and replies are followed by the
   * session from the next command on.
   */
  function Command(input: seq<byte>, pos: nat, levels: Levels, readCount: nat, writeRoom: nat): (log: SessionLog)
    requires pos < |input|
    ensures 0 < log.consumed <= |input| - pos && |log.replies| <= writeRoom
    decreases |input| - pos, 1
  {
    var op := input[pos];
    if op == CommandEnd then SessionLog([], [], 1, EndCommand)
    else if op == CommandPinSetMode || op == CommandPinSetValue || op == CommandButtonSetMode then
      PinCommand(input, pos, levels, readCount, writeRoom)
    else if op == CommandPinGetValue then PinRead(input, pos, levels, readCount, writeRoom)
    else SessionLog([], [], 1, BadCommand(op))
  }

  /** A command with a pin and an argument byte: one hardware call, no reply. */
  function PinCommand(input: seq<byte>, pos: nat, levels: Levels, readCount: nat, writeRoom: nat): (log: SessionLog)
    requires pos < |input|
    ensures 0 < log.consumed <= |input| - pos && |log.replies| <= writeRoom
    decreases |input| - pos, 0
  {
    var op := input[pos];
    if |input| - pos < 3 then SessionLog([], [], |input| - pos, ShortOperands(op))
    else
      var pin := input[pos + 1];
      var call :=
        if op == CommandPinSetMode then PinMode(pin, Choose(input[pos + 2], ModeInput, ModeOutput))
        else if op == CommandPinSetValue then DigitalWrite(pin, Choose(input[pos + 2], LevelLow, LevelHigh))
        else PullUpDnControl(pin, input[pos + 2]);
      Then([call], [], 3, Serve(input, pos + 3, levels, readCount, writeRoom))
  }

  /** The pin read: the call, then its level as the one reply byte. */
  function PinRead(input: seq<byte>, pos: nat, levels: Levels, readCount: nat, writeRoom: nat): (log: SessionLog)
    requires pos < |input|
    ensures 0 < log.consumed <= |input| - pos && |log.replies| <= writeRoom
    decreases |input| - pos, 0
  {
    if |input| - pos < 2 then SessionLog([], [], |input| - pos, ShortOperands(input[pos]))
    else
      var pin := input[pos + 1];
      if writeRoom < 1 then SessionLog([DigitalRead(pin)], [], 2, ShortReply)
      else Then([DigitalRead(pin)], [LowByte(levels(readCount, pin))], 2, Serve(input, pos + 2, levels, readCount + 1, writeRoom - 1))
  }

  /** A whole connection: the session from the first byte, before any pin read. */
  function Session(input: seq<byte>, levels: Levels, writeRoom: nat): SessionLog
  {
    Serve(input, 0, levels, 0, writeRoom)
  }

  /** `read(fd, buffer, k)` on the stream at `pos`: the next min(k, remaining) bytes. */
  method ReadInto(input: seq<byte>, pos: nat, buffer: array<byte>, k: nat) returns (n: nat)
    requires pos <= |input| && k <= buffer.Length
    modifies buffer
    ensures n == Min(k, |input| - pos)
    ensures buffer[..n] == input[pos..pos + n]
    ensures buffer[n..] == old(buffer[n..])
  {
    n := Min(k, |input| - pos);
    for i := 0 to n
      invariant buffer[..i] == input[pos..pos + i]
      invariant buffer[i..] == old(buffer[i..])
    {
      buffer[i] := input[pos + i];
    }
  }

  /**
   * One connection: reads a command byte and lets Dispatch act on it, until
   * a read returns nothing or the command stops the session.
   */
  method RunSession(input: seq<byte>, levels: Levels, writeRoom: nat) returns (log: SessionLog)
    ensures log == Session(input, levels, writeRoom)
  {
    var buffer := new byte[10];
    var pos: nat := 0;
    var calls: seq<HardwareCall> := [];
    var replies: seq<byte> := [];
    var readCount: nat := 0;
    var room: nat := writeRoom;
    var stop := ConnectionClosed;
    var run := true;
    while run
      invariant pos <= |input|
      invariant run ==> Session(input, levels, writeRoom) == Then(calls, replies, pos, Serve(input, pos, levels, readCount, room))
      invariant !run ==> Session(input, levels, writeRoom) == SessionLog(calls, replies, pos, stop)
      decreases |input| - pos + (if run then 1 else 0)
    {
      var n := ReadInto(input, pos, buffer, 1);
      if n < 1 {
        stop := ConnectionClosed;
        assert calls + [] == calls && replies + [] == replies;
        break;
      }
      var op := buffer[0];
      assert op == input[pos] by {
        assert buffer[..1][0] == input[pos..pos + 1][0];
      }
      var newCalls, newReplies, next, more, why := Dispatch(input, pos, op, buffer, levels, readCount, room);
      if more {
        ThenThen(calls, replies, pos, newCalls, newReplies, next - pos,
                 Serve(input, next, levels, readCount + |newReplies|, room - |newReplies|));
      } else {
        ThenThen(calls, replies, pos, newCalls, newReplies, next - pos, SessionLog([], [], 0, why));
        assert newCalls + [] == newCalls && newReplies + [] == newReplies;
      }
      calls, replies, readCount, room := calls + newCalls, replies + newReplies, readCount + |newReplies|, room - |newReplies|;
      pos, run, stop := next, more, why;
    }
    log := SessionLog(calls, replies, pos, stop);
  }

  /**
   * The switch of the loop, on the command byte `op` read at `at`: reads the
   * operands into `buffer`, calls the hardware and, for a pin read, writes
   * the level back from the buffer. `pos` is where the next command starts;
   * `run` is false when the command ended the session, for `stop`.
   */
  method Dispatch(input: seq<byte>, at: nat, op: byte, buffer: array<byte>, levels: Levels, readCount: nat, room: nat)
      returns (calls: seq<HardwareCall>, replies: seq<byte>, pos: nat, run: bool, stop: StopReason)
    requires at < |input| && input[at] == op && buffer.Length == 10
    modifies buffer
    ensures at < pos <= |input| && |replies| <= room
    ensures Command(input, at, levels, readCount, room)
      == if run then Then(calls, replies, pos - at, Serve(input, pos, levels, readCount + |replies|, room - |replies|))
         else SessionLog(calls, replies, pos - at, stop)
  {
    calls, replies, pos, run, stop := [], [], at + 1, true, ConnectionClosed;
    if op == CommandEnd {
      run := false;
      stop := EndCommand;
    } else if op == CommandPinSetMode || op == CommandPinSetValue || op == CommandButtonSetMode {
      var n := ReadInto(input, pos, buffer, 2);
      pos := pos + n;
      if n < 2 {
        run := false;
        stop := ShortOperands(op);
      } else {
        assert buffer[0] == input[at + 1] && buffer[1] == input[at + 2] by {
          assert buffer[..2][0] == input[at + 1..at + 3][0];
          assert buffer[..2][1] == input[at + 1..at + 3][1];
        }
        var pin := buffer[0];
        if op == CommandPinSetMode {
          calls := [PinMode(pin, if buffer[1] != 0 then ModeOutput else ModeInput)];
        } else if op == CommandPinSetValue {
          calls := [DigitalWrite(pin, if buffer[1] != 0 then LevelHigh else LevelLow)];
        } else {
          calls := [PullUpDnControl(pin, buffer[1])];
        }
      }
    } else if op == CommandPinGetValue {
      var n := ReadInto(input, pos, buffer, 1);
      pos := pos + n;
      if n < 1 {
        run := false;
        stop := ShortOperands(op);
      } else {
        assert buffer[0] == input[at + 1] by {
          assert buffer[..1][0] == input[at + 1..at + 2][0];
        }
        var pin := buffer[0];
        calls := [DigitalRead(pin)];
        buffer[0] := LowByte(levels(readCount, pin));
        if room < 1 {
          run := false;
          stop := ShortReply;
        } else {
          replies := [buffer[0]];
        }
      }
    } else {
      run := false;
      stop := BadCommand(op);
    }
  }

  lemma ThenThen(c1: seq<HardwareCall>, r1: seq<byte>, n1: nat, c2: seq<HardwareCall>, r2: seq<byte>, n2: nat, rest: SessionLog)
    ensures Then(c1, r1, n1, Then(c2, r2, n2, rest)) == Then(c1 + c2, r1 + r2, n1 + n2, rest)
  {
    assert c1 + (c2 + rest.calls) == (c1 + c2) + rest.calls;
    assert r1 + (r2 + rest.replies) == (r1 + r2) + rest.replies;
  }

  /** The command identifiers of the server are the opcodes of the client's Command enum. */
  lemma OpcodesAgree()
    ensures CommandEnd == End.Opcode()
    ensures CommandPinSetMode == SetPinDirection.Opcode()
    ensures CommandPinSetValue == SetPinValue.Opcode()
    ensures CommandPinGetValue == GetPinValue.Opcode()
    ensures CommandButtonSetMode == SetButtonMode.Opcode()
  {
  }

  /** The client's and the server's default ports are the same. */
  lemma DefaultPortsAgree(program: string, atoi: string -> int)
    ensures ListenPort([program], atoi) == DefaultPort
  {
  }

  /** The hardware call a request should cause, stated on the client's enums. */
  function PeerCall(r: Request): HardwareCall
    requires !r.EndSession?
  {
    match r
    case SetDirection(pin, direction) => PinMode(pin, if direction == Output then ModeOutput else ModeInput)
    case SetValue(pin, value) => DigitalWrite(pin, if value == High then LevelHigh else LevelLow)
    case GetValue(pin) => DigitalRead(pin)
    case SetMode(pin, mode) =>
      PullUpDnControl(pin, match mode case Off => PudOff case PudDown => PudDown case PudUp => PudUp)
  }

  /** The reply a request should receive: the level of a pin read, nothing otherwise. */
  function PeerReply(r: Request, levels: Levels, readCount: nat): seq<byte>
  {
    if r.GetValue? then [LowByte(levels(readCount, r.pin))] else []
  }

  /** No request of `rs` ends the session. */
  predicate NoEnd(rs: seq<Request>)
  {
    rs == [] || (!rs[0].EndSession? && NoEnd(rs[1..]))
  }

  function PeerCalls(rs: seq<Request>): (calls: seq<HardwareCall>)
    requires NoEnd(rs)
    ensures |calls| == |rs|
  {
    if rs == [] then [] else [PeerCall(rs[0])] + PeerCalls(rs[1..])
  }

  /** The number of pin reads among `rs`. */
  function Gets(rs: seq<Request>): nat
  {
    if rs == [] then 0 else (if rs[0].GetValue? then 1 else 0) + Gets(rs[1..])
  }

  /** The replies to the pin reads among `rs`, the first being read number `readCount`. */
  function PeerReplies(rs: seq<Request>, levels: Levels, readCount: nat): (replies: seq<byte>)
    ensures |replies| == Gets(rs)
  {
    if rs == [] then []
    else
      var first := PeerReply(rs[0], levels, readCount);
      first + PeerReplies(rs[1..], levels, readCount + |first|)
  }

  /** Different requests cause different hardware calls. */
  lemma PeerCallInjective(a: Request, b: Request)
    requires !a.EndSession? && !b.EndSession?
    requires PeerCall(a) == PeerCall(b)
    ensures a == b
  {
    match a
    case SetDirection(_, _) =>
    case SetValue(_, _) =>
    case GetValue(_) =>
    case SetMode(_, _) =>
  }

  /** The frame of `r` lies in `input` from `pos` on. */
  predicate RequestAt(input: seq<byte>, pos: nat, r: Request)
  {
    var f := Encode(r);
    && pos + |f| <= |input|
    && input[pos] == f[0]
    && (|f| > 1 ==> input[pos + 1] == f[1])
    && (|f| > 2 ==> input[pos + 2] == f[2])
  }

  /** A frame followed by anything lies at its own start. */
  lemma RequestAtPrefix(pre: seq<byte>, r: Request, rest: seq<byte>)
    ensures RequestAt(pre + Encode(r) + rest, |pre|, r)
  {
  }

  /** The frames of `rs` lie back to back in `input` from `pos` on. */
  predicate FramesAt(input: seq<byte>, pos: nat, rs: seq<Request>)
    decreases |rs|
  {
    if rs == [] then pos <= |input|
    else RequestAt(input, pos, rs[0]) && FramesAt(input, pos + |Encode(rs[0])|, rs[1..])
  }

  lemma {:induction false} FramesAtBound(input: seq<byte>, pos: nat, rs: seq<Request>)
    requires FramesAt(input, pos, rs)
    ensures pos + |EncodeAll(rs)| <= |input|
    decreases |rs|
  {
    if rs != [] {
      FramesAtBound(input, pos + |Encode(rs[0])|, rs[1..]);
    }
  }

  /** The concatenated frames, followed by anything, are frames at their start. */
  lemma {:induction false} EncodeAllFramesAt(pre: seq<byte>, rs: seq<Request>, rest: seq<byte>)
    ensures FramesAt(pre + EncodeAll(rs) + rest, |pre|, rs)
    decreases |rs|
  {
    if rs != [] {
      var f := Encode(rs[0]);
      var input := pre + EncodeAll(rs) + rest;
      assert RequestAt(input, |pre|, rs[0]) by {
        assert input == pre + f + (EncodeAll(rs[1..]) + rest);
        RequestAtPrefix(pre, rs[0], EncodeAll(rs[1..]) + rest);
      }
      assert input == (pre + f) + EncodeAll(rs[1..]) + rest;
      EncodeAllFramesAt(pre + f, rs[1..], rest);
    }
  }

  /** The server decodes one client frame into the call and the reply the request means. */
  lemma {:induction false} ServeFrame(r: Request, input: seq<byte>, pos: nat, levels: Levels, readCount: nat, room: nat)
    requires RequestAt(input, pos, r)
    requires !r.EndSession? && (r.GetValue? ==> room >= 1)
    ensures pos + |Encode(r)| <= |input|
    ensures var reply := PeerReply(r, levels, readCount);
      Serve(input, pos, levels, readCount, room)
        == Then([PeerCall(r)], reply, |Encode(r)|, Serve(input, pos + |Encode(r)|, levels, readCount + |reply|, room - |reply|))
  {
    var f := Encode(r);
    assert Serve(input, pos, levels, readCount, room) == Command(input, pos, levels, readCount, room);
    if r.GetValue? {
      assert Command(input, pos, levels, readCount, room) == PinRead(input, pos, levels, readCount, room);
    } else {
      assert input[pos + 2] == f[2];
      assert Command(input, pos, levels, readCount, room) == PinCommand(input, pos, levels, readCount, room);
    }
  }

  /**
   * Back-to-back frames of requests that do not end the session are decoded
   * one by one into the calls the requests mean, then the server goes on
   * with what follows.
   */
  lemma {:induction false} ServeDecodesFrames(rs: seq<Request>, input: seq<byte>, pos: nat, levels: Levels, readCount: nat, room: nat)
    requires FramesAt(input, pos, rs) && NoEnd(rs) && Gets(rs) <= room
    ensures pos + |EncodeAll(rs)| <= |input|
    ensures Serve(input, pos, levels, readCount, room)
         == Then(PeerCalls(rs), PeerReplies(rs, levels, readCount), |EncodeAll(rs)|,
                 Serve(input, pos + |EncodeAll(rs)|, levels, readCount + Gets(rs), room - Gets(rs)))
  {
    FramesAtBound(input, pos, rs);
    var end, endReads, endRoom := pos + |EncodeAll(rs)|, readCount + Gets(rs), room - Gets(rs);
    ServeExpect(rs, input, pos, levels, readCount, room, end, endReads, endRoom);
    ExpectThen(rs, levels, readCount, Serve(input, end, levels, endReads, endRoom));
  }

  /** What the server logs for the requests `rs`, one frame at a time, followed by the log `tail`. */
  function Expect(rs: seq<Request>, levels: Levels, readCount: nat, tail: SessionLog): SessionLog
    requires NoEnd(rs)
    decreases |rs|
  {
    if rs == [] then tail
    else
      var first := PeerReply(rs[0], levels, readCount);
      Then([PeerCall(rs[0])], first, |Encode(rs[0])|, Expect(rs[1..], levels, readCount + |first|, tail))
  }

  /** Frame by frame, the calls, replies and bytes of `rs` add up to theirs taken together. */
  lemma {:induction false} ExpectThen(rs: seq<Request>, levels: Levels, readCount: nat, tail: SessionLog)
    requires NoEnd(rs)
    ensures Expect(rs, levels, readCount, tail) == Then(PeerCalls(rs), PeerReplies(rs, levels, readCount), |EncodeAll(rs)|, tail)
    decreases |rs|
  {
    if rs == [] {
      assert tail.calls == [] + tail.calls && tail.replies == [] + tail.replies;
    } else {
      var first := PeerReply(rs[0], levels, readCount);
      ListsUnroll(rs, levels, readCount);
      ExpectThen(rs[1..], levels, readCount + |first|, tail);
      ThenThen([PeerCall(rs[0])], first, |Encode(rs[0])|,
               PeerCalls(rs[1..]), PeerReplies(rs[1..], levels, readCount + |first|), |EncodeAll(rs[1..])|, tail);
    }
  }

  /** ServeDecodesFrames frame by frame, with the position, read count and room after the frames given by name. */
  lemma {:induction false} ServeExpect(rs: seq<Request>, input: seq<byte>, pos: nat, levels: Levels, readCount: nat, room: nat,
                                       end: nat, endReads: nat, endRoom: nat)
    requires FramesAt(input, pos, rs) && NoEnd(rs)
    requires end == pos + |EncodeAll(rs)| && endReads == readCount + Gets(rs) && endRoom == room - Gets(rs)
    requires end <= |input|
    ensures Serve(input, pos, levels, readCount, room) == Expect(rs, levels, readCount, Serve(input, end, levels, endReads, endRoom))
    decreases |rs|
  {
    if rs != [] {
      var first := PeerReply(rs[0], levels, readCount);
      CountsUnroll(rs, levels, readCount);
      ServeFrame(rs[0], input, pos, levels, readCount, room);
      ServeExpect(rs[1..], input, pos + |Encode(rs[0])|, levels, readCount + |first|, room - |first|, end, endReads, endRoom);
    }
  }

  /** The first request's share of the pin reads and bytes of a list of requests. */
  lemma CountsUnroll(rs: seq<Request>, levels: Levels, readCount: nat)
    requires rs != [] && NoEnd(rs)
    ensures !rs[0].EndSession? && NoEnd(rs[1..])
    ensures Gets(rs) == |PeerReply(rs[0], levels, readCount)| + Gets(rs[1..])
    ensures |EncodeAll(rs)| == |Encode(rs[0])| + |EncodeAll(rs[1..])|
  {
  }

  /** The first request's share of the calls, replies, pin reads and bytes of a list of requests. */
  lemma ListsUnroll(rs: seq<Request>, levels: Levels, readCount: nat)
    requires rs != [] && NoEnd(rs)
    ensures var first := PeerReply(rs[0], levels, readCount);
      && !rs[0].EndSession? && NoEnd(rs[1..])
      && PeerCalls(rs) == [PeerCall(rs[0])] + PeerCalls(rs[1..])
      && PeerReplies(rs, levels, readCount) == first + PeerReplies(rs[1..], levels, readCount + |first|)
      && Gets(rs) == |first| + Gets(rs[1..])
      && |EncodeAll(rs)| == |Encode(rs[0])| + |EncodeAll(rs[1..])|
  {
  }

  /**
   * The round trip of the wire protocol: a client session of requests
   * closed by the End frame makes the server perform exactly the calls the
   * requests mean, answer every pin read, and stop after the End frame,
   * whatever follows it.
   */
  lemma {:induction false} SessionRoundTrip(rs: seq<Request>, rest: seq<byte>, levels: Levels, room: nat)
    requires NoEnd(rs) && Gets(rs) <= room
    ensures var log := Session(EncodeAll(rs) + Encode(EndSession) + rest, levels, room);
      && log.calls == PeerCalls(rs)
      && log.replies == PeerReplies(rs, levels, 0)
      && log.consumed == |EncodeAll(rs)| + 1
      && log.stop == EndCommand
  {
    var input := EncodeAll(rs) + Encode(EndSession) + rest;
    var k := |EncodeAll(rs)|;
    assert FramesAt(input, 0, rs) by {
      assert input == [] + EncodeAll(rs) + ([CommandEnd] + rest);
      EncodeAllFramesAt([], rs, [CommandEnd] + rest);
    }
    assert input[k] == CommandEnd;
    ServeDecodesFrames(rs, input, 0, levels, 0, room);
    assert Serve(input, k, levels, Gets(rs), room - Gets(rs)) == SessionLog([], [], 1, EndCommand) by {
      assert Serve(input, k, levels, Gets(rs), room - Gets(rs)) == Command(input, k, levels, Gets(rs), room - Gets(rs));
    }
    assert PeerCalls(rs) + [] == PeerCalls(rs) && PeerReplies(rs, levels, 0) + [] == PeerReplies(rs, levels, 0);
  }

  /** A client that disconnects without the End frame ends the session by a closed connection. */
  lemma {:induction false} SessionWithoutEnd(rs: seq<Request>, levels: Levels, room: nat)
    requires NoEnd(rs) && Gets(rs) <= room
    ensures var log := Session(EncodeAll(rs), levels, room);
      && log.calls == PeerCalls(rs)
      && log.replies == PeerReplies(rs, levels, 0)
      && log.consumed == |EncodeAll(rs)|
      && log.stop == ConnectionClosed
  {
    var input := EncodeAll(rs);
    assert FramesAt(input, 0, rs) by {
      assert input == [] + EncodeAll(rs) + [];
      EncodeAllFramesAt([], rs, []);
    }
    ServeDecodesFrames(rs, input, 0, levels, 0, room);
    assert PeerCalls(rs) + [] == PeerCalls(rs) && PeerReplies(rs, levels, 0) + [] == PeerReplies(rs, levels, 0);
  }

  /** Different requests cause different calls, so the calls determine the requests. */
  lemma {:induction false} PeerCallsInjective(rs: seq<Request>, ts: seq<Request>)
    requires NoEnd(rs) && NoEnd(ts)
    requires PeerCalls(rs) == PeerCalls(ts)
    ensures rs == ts
    decreases |rs|
  {
    if rs != [] {
      assert ts != [];
      assert PeerCall(rs[0]) == PeerCalls(rs)[0] == PeerCalls(ts)[0] == PeerCall(ts[0]);
      PeerCallInjective(rs[0], ts[0]);
      assert PeerCalls(rs[1..]) == PeerCalls(rs)[1..] == PeerCalls(ts)[1..] == PeerCalls(ts[1..]);
      PeerCallsInjective(rs[1..], ts[1..]);
      assert rs == [rs[0]] + rs[1..] && ts == [ts[0]] + ts[1..];
    }
  }

  /** An unknown command byte ends the session after one byte, with no hardware call. */
  lemma BadCommandEndsSession(input: seq<byte>, pos: nat, levels: Levels, readCount: nat, room: nat)
    requires pos < |input| && input[pos] > CommandButtonSetMode
    ensures Serve(input, pos, levels, readCount, room) == SessionLog([], [], 1, BadCommand(input[pos]))
  {
    assert Serve(input, pos, levels, readCount, room) == Command(input, pos, levels, readCount, room);
  }

  /** Short operands end the session, having read the rest of the stream, without a hardware call. */
  lemma ShortOperandsCallNothing(input: seq<byte>, pos: nat, levels: Levels, readCount: nat, room: nat)
    requires pos < |input| && CommandPinSetMode <= input[pos] <= CommandButtonSetMode
    requires |input| - pos < (if input[pos] == CommandPinGetValue then 2 else 3)
    ensures Serve(input, pos, levels, readCount, room) == SessionLog([], [], |input| - pos, ShortOperands(input[pos]))
  {
    assert Serve(input, pos, levels, readCount, room) == Command(input, pos, levels, readCount, room);
    if input[pos] == CommandPinGetValue {
      assert Command(input, pos, levels, readCount, room) == PinRead(input, pos, levels, readCount, room);
    } else {
      assert Command(input, pos, levels, readCount, room) == PinCommand(input, pos, levels, readCount, room);
    }
  }

  /**
   * With both operands present, a set-mode, set-value or button-mode command
   * makes one hardware call and moves on to the next command: any non-zero
   * direction or value byte is OUTPUT or HIGH and zero is INPUT or LOW, while
   * the button-mode byte is passed to wiringPi as it came.
   */
  lemma FullOperandsCall(input: seq<byte>, pos: nat, levels: Levels, readCount: nat, room: nat)
    requires pos + 3 <= |input|
    requires input[pos] == CommandPinSetMode || input[pos] == CommandPinSetValue || input[pos] == CommandButtonSetMode
    ensures var pin, arg := input[pos + 1], input[pos + 2];
      var call :=
        if input[pos] == CommandPinSetMode then PinMode(pin, if arg == 0 then ModeInput else ModeOutput)
        else if input[pos] == CommandPinSetValue then DigitalWrite(pin, if arg == 0 then LevelLow else LevelHigh)
        else PullUpDnControl(pin, arg);
      Serve(input, pos, levels, readCount, room) == Then([call], [], 3, Serve(input, pos + 3, levels, readCount, room))
  {
    assert Serve(input, pos, levels, readCount, room) == Command(input, pos, levels, readCount, room);
    assert Command(input, pos, levels, readCount, room) == PinCommand(input, pos, levels, readCount, room);
  }

  /**
   * A pin read with no room for the reply ends the session after the read;
   * with room, exactly one byte, the level's low eight bits, is written
   * before the next command.
   */
  lemma PinReadReply(input: seq<byte>, pos: nat, levels: Levels, readCount: nat, room: nat)
    requires pos + 2 <= |input| && input[pos] == CommandPinGetValue
    ensures var log := Serve(input, pos, levels, readCount, room);
      var pin := input[pos + 1];
      && (room == 0 ==> log == SessionLog([DigitalRead(pin)], [], 2, ShortReply))
      && (room > 0 ==> log == Then([DigitalRead(pin)], [LowByte(levels(readCount, pin))], 2,
                               Serve(input, pos + 2, levels, readCount + 1, room - 1)))
  {
    assert Serve(input, pos, levels, readCount, room) == Command(input, pos, levels, readCount, room);
    assert Command(input, pos, levels, readCount, room) == PinRead(input, pos, levels, readCount, room);
  }
}
