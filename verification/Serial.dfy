/**
 The serial link (serial.c): one state machine that receives a packet byte by byte,
 waits while it is processed, and sends the reply.

 `Step` is the machine on values; `SerialLink` is the C structure, whose transfer methods
 are proved to do exactly that.  `Scratch` is struct mobile_buffer_serial, which lies in
 the union shared with the command layer.
 */
module Serial {
  import opened Bytes

  const DATA_SIZE := 0xFF
  const IDLE_BYTE: byte := 0xD2
  const COMMAND_NULL: byte := 0x0F
  const COMMAND_START: byte := 0x10
  const ERROR_UNKNOWN_COMMAND: byte := 0xF0
  const ERROR_CHECKSUM: byte := 0xF1
  const ERROR_INTERNAL: byte := 0xF2
  const ADAPTER_BLUE: byte := 8

  datatype Phase =
    | Init | Waiting | Header | Data | DataPad | Checksum | Acknowledge | AcknowledgePad | IdleCheck
    | ResponseWaiting | ResponseInit | ResponseStart | ResponseHeader | ResponseData | ResponseDataPad
    | ResponseChecksum | ResponseAcknowledge

  datatype Scratch = Scratch(error: byte, current: byte, dataSize: byte, checksum: nat,
                             header: seq<byte>, footer: seq<byte>)

  datatype Link = Link(phase: Phase, mode32: bool, device: byte, unmetered: bool, buffer: seq<byte>, b: Scratch)

  // What the machine reads of the rest of the adapter: whether a session has begun, and
  // the configured device with its "unmetered" top bit.
  datatype Env = Env(session: bool, config: byte)

  // mobile_commands_exists
  predicate CommandExists(command: byte) {
    0x0F <= command <= 0x1A || 0x21 <= command <= 0x26 || command == 0x28 || command == 0x3F
  }

  // Where `current` may stand in each phase; every array index follows from this.
  predicate CurrentOk(phase: Phase, current: byte, dataSize: byte) {
    match phase
    case Header | ResponseHeader => current < 4
    case Data | ResponseData => current < dataSize
    case DataPad | ResponseDataPad => 1 <= current <= 3
    case Checksum | ResponseChecksum => current < 2
    case AcknowledgePad => 1 <= current <= 2
    case ResponseStart => current <= 1
    case ResponseAcknowledge => current <= 4
    case _ => true
  }

  predicate ScratchOk(b: Scratch) {
    b.checksum < 0x1_0000 && |b.header| == 4 && |b.footer| == 2
  }

  predicate LinkOk(l: Link) {
    && |l.buffer| == DATA_SIZE
    && ScratchOk(l.b)
    && CurrentOk(l.phase, l.b.current, l.b.dataSize)
  }

  datatype Output = Output(link: Link, reply: byte)

  function Idle(l: Link): Output {
    Output(l, IDLE_BYTE)
  }

  function AddToChecksum(checksum: nat, c: byte): (r: nat)
    ensures r < 0x1_0000
  {
    (checksum + c) % 0x1_0000
  }

  // The phase after the last of `done` payload bytes, and its `current`.
  function AfterPayload(l: Link, done: byte, pad: Phase, next: Phase): Link {
    if l.mode32 && done % 4 != 0 then l.(phase := pad, b := l.b.(current := 4 - done % 4))
    else l.(phase := next, b := l.b.(current := 0))
  }

  function ErrorOrEcho(b: Scratch): byte
    requires ScratchOk(b)
  {
    if b.error != 0 then b.error else FlipTop(b.header[0])
  }

  function StepWaiting(l: Link, c: byte): Link {
    if c == 0x99 then l.(phase := Waiting, b := l.b.(current := 1))
    else if c == 0x66 && l.b.current == 1 then
      l.(phase := Header, b := l.b.(current := 0, dataSize := 0, checksum := 0, error := 0))
    else l.(phase := Waiting, b := l.b.(current := 0))
  }

  // The fourth header byte decides; a nonzero third byte or a command outside a session
  // only touches `phase` in passing.
  function StepHeader(l: Link, env: Env, c: byte): (r: Link)
    requires LinkOk(l) && l.phase == Header
    ensures LinkOk(r)
  {
    var b := l.b.(header := l.b.header[l.b.current := c], checksum := AddToChecksum(l.b.checksum, c),
                  current := l.b.current + 1);
    if b.current < 4 then l.(b := b)
    else
      var link := if env.session then l else
        l.(device := env.config % 128, unmetered := env.config >= 128);
      link.(phase := if b.header[3] != 0 then Data else Checksum,
            b := b.(current := 0, dataSize := b.header[3],
                    error := if CommandExists(b.header[0]) then b.error else ERROR_UNKNOWN_COMMAND))
  }

  predicate DeviceByteOk(device: byte, c: byte) {
    device == ADAPTER_BLUE || c == 0x80 || c == 0x81
  }

  predicate Retry(error: byte) {
    error == ERROR_UNKNOWN_COMMAND || error == ERROR_CHECKSUM || error == ERROR_INTERNAL
  }

  // The first byte after the skipped ones; `current` has wrapped round to 255.
  function StepIdleCheck(l: Link, c: byte): Link
    requires ScratchOk(l.b)
  {
    if l.b.header[0] == COMMAND_NULL || l.b.error != 0 || c != 0x4B then
      l.(phase := Waiting, b := l.b.(current := if c == 0x99 then 1 else 255))
    else
      l.(phase := ResponseWaiting, b := l.b.(current := 255))
  }

  function StepResponseAcknowledge(l: Link, c: byte): (o: Output)
    requires LinkOk(l) && l.phase == ResponseAcknowledge
    ensures LinkOk(o.link)
  {
    var b := l.b;
    if b.current == 0 then Output(l.(b := b.(current := 1)), SetTop(l.device))
    else if b.current == 1 then Output(l.(b := b.(current := 2)), 0)
    else
      var caught := if b.current == 2 then b.(error := c) else b;
      if l.mode32 && b.current < 4 then Output(l.(b := caught.(current := b.current + 1)), 0)
      else Idle(l.(phase := if Retry(caught.error) then ResponseStart else Waiting, b := caught.(current := 0)))
  }

  function StepData(l: Link, c: byte): (r: Link)
    requires LinkOk(l) && l.phase == Data
    ensures LinkOk(r)
  {
    var stored := l.(buffer := l.buffer[l.b.current := c],
                     b := l.b.(current := l.b.current + 1, checksum := AddToChecksum(l.b.checksum, c)));
    if l.b.current + 1 >= l.b.dataSize then AfterPayload(stored, l.b.current + 1, DataPad, Checksum) else stored
  }

  function StepChecksum(l: Link, c: byte): (o: Output)
    requires LinkOk(l) && l.phase == Checksum
    ensures LinkOk(o.link)
  {
    var footer := l.b.footer[l.b.current := c];
    if l.b.current == 0 then Idle(l.(b := l.b.(footer := footer, current := 1)))
    else
      var error := if l.b.checksum != BigEndian(footer[0], footer[1]) then ERROR_CHECKSUM else l.b.error;
      Output(l.(phase := Acknowledge, b := l.b.(footer := footer, current := 0, error := error)), SetTop(l.device))
  }

  function StepAcknowledge(l: Link, c: byte): (o: Output)
    requires LinkOk(l) && l.phase == Acknowledge
    ensures LinkOk(o.link)
  {
    if l.mode32 then Output(l.(phase := AcknowledgePad, b := l.b.(current := 2)), ErrorOrEcho(l.b))
    else if !DeviceByteOk(l.device, c) then Idle(l.(phase := Waiting))
    else Output(l.(phase := IdleCheck, b := l.b.(current := 1)), ErrorOrEcho(l.b))
  }

  // The response phases, up to the acknowledgement.
  function StepResponse(l: Link): (o: Output)
    requires LinkOk(l)
    requires l.phase in {ResponseInit, ResponseStart, ResponseHeader, ResponseData, ResponseDataPad, ResponseChecksum}
    ensures LinkOk(o.link)
  {
    var b := l.b;
    match l.phase
    case ResponseInit => Output(l.(phase := ResponseStart, b := b.(current := 1)), 0x99)
    case ResponseStart =>
      if b.current == 0 then Output(l.(b := b.(current := 1)), 0x99)
      else Output(l.(phase := ResponseHeader, b := b.(dataSize := b.header[3], error := 0, current := 0)), 0x66)
    case ResponseHeader =>
      Output(if b.current < 3 then l.(b := b.(current := b.current + 1))
             else l.(phase := if b.dataSize != 0 then ResponseData else ResponseChecksum, b := b.(current := 0)),
             b.header[b.current])
    case ResponseData =>
      Output(if b.current + 1 >= b.dataSize then AfterPayload(l, b.current + 1, ResponseDataPad, ResponseChecksum)
             else l.(b := b.(current := b.current + 1)),
             l.buffer[b.current])
    case ResponseDataPad =>
      Output(l.(phase := if b.current == 1 then ResponseChecksum else ResponseDataPad,
                b := b.(current := b.current - 1)), 0)
    case ResponseChecksum =>
      Output(if b.current == 0 then l.(b := b.(current := 1))
             else l.(phase := ResponseAcknowledge, b := b.(current := 0)),
             b.footer[b.current])
  }

  // mobile_serial_transfer
  function Step(l: Link, env: Env, c: byte): (o: Output)
    requires LinkOk(l)
    ensures LinkOk(o.link)
  {
    var b := l.b;
    match l.phase
    case Init => Idle(StepWaiting(l.(b := b.(current := 0)), c))
    case Waiting => Idle(StepWaiting(l, c))
    case Header => Idle(StepHeader(l, env, c))
    case Data => Idle(StepData(l, c))
    case DataPad =>
      Idle(l.(phase := if b.current == 1 then Checksum else DataPad, b := b.(current := b.current - 1)))
    case Checksum => StepChecksum(l, c)
    case Acknowledge => StepAcknowledge(l, c)
    case AcknowledgePad =>
      Output(if b.current == 1 then l.(phase := IdleCheck) else l.(b := b.(current := 1)), 0)
    case IdleCheck =>
      Idle(if b.current != 0 then l.(b := b.(current := b.current - 1)) else StepIdleCheck(l, c))
    case ResponseWaiting => Idle(l)
    case ResponseAcknowledge => StepResponseAcknowledge(l, c)
    case _ => StepResponse(l)
  }

  // ---------- Runs over a stream of bytes ----------

  // One incoming byte together with what the adapter then looks like.
  datatype Input = Input(env: Env, c: byte)

  // The same surroundings for a whole stream of bytes.
  function Feed(env: Env, s: seq<byte>): (ins: seq<Input>)
    ensures |ins| == |s| && forall i | 0 <= i < |s| :: ins[i] == Input(env, s[i])
  {
    seq(|s|, i requires 0 <= i < |s| => Input(env, s[i]))
  }

  function Run(l: Link, ins: seq<Input>): (r: Link)
    requires LinkOk(l)
    ensures LinkOk(r)
    decreases |ins|
  {
    if ins == [] then l else Run(Step(l, ins[0].env, ins[0].c).link, ins[1..])
  }

  function Replies(l: Link, ins: seq<Input>): (r: seq<byte>)
    requires LinkOk(l)
    ensures |r| == |ins|
    decreases |ins|
  {
    if ins == [] then []
    else
      var o := Step(l, ins[0].env, ins[0].c);
      [o.reply] + Replies(o.link, ins[1..])
  }

  lemma {:induction false} RunAppend(l: Link, a: seq<Input>, b: seq<Input>)
    requires LinkOk(l)
    ensures Run(l, a + b) == Run(Run(l, a), b)
    decreases |a|
  {
    hide Step;
    if a == [] {
      assert a + b == b;
    } else {
      var next := Step(l, a[0].env, a[0].c).link;
      RunAppend(next, a[1..], b);
      assert (a + b)[1..] == a[1..] + b;
    }
  }

  lemma {:induction false} RepliesAppend(l: Link, a: seq<Input>, b: seq<Input>)
    requires LinkOk(l)
    ensures Replies(l, a + b) == Replies(l, a) + Replies(Run(l, a), b)
    decreases |a|
  {
    hide Step;
    if a == [] {
      assert a + b == b;
    } else {
      var o := Step(l, a[0].env, a[0].c);
      RepliesAppend(o.link, a[1..], b);
      assert (a + b)[1..] == a[1..] + b;
      var x, y := Replies(o.link, a[1..]), Replies(Run(o.link, a[1..]), b);
      assert [o.reply] + (x + y) == [o.reply] + x + y;
    }
  }

  // ---------- 32-bit words ----------

  type word = w: int | 0 <= w < 0x1_0000_0000

  // Most significant byte first.
  function Unpack(w: word): (d: seq<byte>)
    ensures |d| == 4
  {
    [w / 256 / 256 / 256, w / 256 / 256 % 256, w / 256 % 256, w % 256]
  }

  function Pack(d: seq<byte>): word
    requires |d| == 4
  {
    Shift(Shift(Shift(d[0], d[1]), d[2]), d[3])
  }

  function Shift(high: nat, low: byte): (r: nat)
    ensures r == 256 * high + low && r / 256 == high && r % 256 == low
  {
    256 * high + low
  }

  lemma PackUnpack(d: seq<byte>)
    requires |d| == 4
    ensures Unpack(Pack(d)) == d
  {
    assert Pack(d) == Shift(Shift(Shift(d[0], d[1]), d[2]), d[3]);
  }

  // The four bytes of a word, all seen in the same surroundings.
  function Bytes4(env: Env, w: word): (ins: seq<Input>)
    ensures |ins| == 4
  {
    var d := Unpack(w);
    [Input(env, d[0]), Input(env, d[1]), Input(env, d[2]), Input(env, d[3])]
  }

  datatype WordOutput = WordOutput(link: Link, reply: word)

  // mobile_serial_transfer_32bit: four byte steps, and the acknowledgement footer.
  function StepWord(l: Link, env: Env, w: word): (o: WordOutput)
    requires LinkOk(l)
    ensures LinkOk(o.link)
  {
    var link := Run(l, Bytes4(env, w));
    if link.phase == Acknowledge then
      WordOutput(link.(phase := IdleCheck, b := link.b.(current := 4)),
                 Pack([SetTop(link.device), ErrorOrEcho(link.b), 0, 0]))
    else
      WordOutput(link, Pack(Replies(l, Bytes4(env, w))))
  }

  // ---------- struct mobile_adapter_serial and struct mobile_buffer_serial ----------

  class SerialLink {
    var phase: Phase
    var mode32: bool
    var device: byte
    var unmetered: bool
    const buffer: array<byte>
    var error: byte
    var current: byte
    var dataSize: byte
    var checksum: nat
    const header: array<byte>
    const footer: array<byte>

    ghost predicate Shaped()
      reads this
    {
      && buffer.Length == DATA_SIZE && header.Length == 4 && footer.Length == 2
      && buffer != header && buffer != footer && header != footer
    }

    ghost function Snapshot(): Link
      reads this, buffer, header, footer
    {
      Link(phase, mode32, device, unmetered, buffer[..],
           Scratch(error, current, dataSize, checksum, header[..], footer[..]))
    }

    ghost predicate Valid()
      reads this, buffer, header, footer
    {
      Shaped() && LinkOk(Snapshot())
    }

    // mobile_serial_init; the memory of the structure is otherwise not initialized.
    constructor ()
      ensures Valid() && fresh(buffer) && fresh(header) && fresh(footer)
      ensures phase == Init && !mode32
    {
      phase, mode32, device, unmetered := Init, false, ADAPTER_BLUE, false;
      buffer := new byte[DATA_SIZE](_ => 0);
      error, current, dataSize, checksum := 0, 0, 0, 0;
      header := new byte[4](_ => 0);
      footer := new byte[2](_ => 0);
    }

    // mobile_serial_transfer
    method Transfer(env: Env, c: byte) returns (r: byte)
      requires Valid()
      modifies this, buffer, header, footer
      ensures Valid()
      ensures Output(Snapshot(), r) == Step(old(Snapshot()), env, c)
    {
      hide Step;
      match phase
      case Init => r := TransferInit(env, c);
      case Waiting => r := TransferWaiting(env, c);
      case Header => r := TransferHeader(env, c);
      case Data => r := TransferData(env, c);
      case DataPad => r := TransferPad(env, c);
      case Checksum => r := TransferChecksum(env, c);
      case Acknowledge => r := TransferAcknowledge(env, c);
      case AcknowledgePad => r := TransferPad(env, c);
      case IdleCheck => r := TransferIdleCheck(env, c);
      case ResponseWaiting => r := TransferIdle(env, c);
      case ResponseInit => r := TransferInit(env, c);
      case ResponseStart => r := TransferResponseStart(env, c);
      case ResponseHeader => r := TransferResponseHeader(env, c);
      case ResponseData => r := TransferResponseData(env, c);
      case ResponseDataPad => r := TransferPad(env, c);
      case ResponseChecksum => r := TransferResponseChecksum(env, c);
      case ResponseAcknowledge => r := TransferResponseAcknowledge(env, c);
    }

    // The two phases that fall through to the next one
    method TransferInit(env: Env, c: byte) returns (r: byte)
      requires Valid() && phase in {Init, ResponseInit}
      modifies this, buffer, header, footer
      ensures Valid() && Output(Snapshot(), r) == Step(old(Snapshot()), env, c)
    {
      current := 0;
      if phase == Init {
        phase := Waiting;
        r := TransferWaiting(env, c);
      } else {
        phase := ResponseStart;
        r := TransferResponseStart(env, c);
      }
    }

    // The three phases that skip padding
    method TransferPad(env: Env, c: byte) returns (r: byte)
      requires Valid() && phase in {DataPad, AcknowledgePad, ResponseDataPad}
      modifies this`current, this`phase
      ensures Valid() && Output(Snapshot(), r) == Step(old(Snapshot()), env, c)
    {
      r := if phase == DataPad then IDLE_BYTE else 0;
      current := current - 1;
      if current == 0 {
        match phase
        case DataPad => phase := Checksum;
        case AcknowledgePad =>
          current := 1;
          phase := IdleCheck;
        case ResponseDataPad => phase := ResponseChecksum;
      }
    }

    method TransferIdle(env: Env, c: byte) returns (r: byte)
      requires Valid() && phase == ResponseWaiting
      ensures Valid() && Output(Snapshot(), r) == Step(old(Snapshot()), env, c)
    {
      r := IDLE_BYTE;
    }

    method TransferWaiting(env: Env, c: byte) returns (r: byte)
      requires Valid() && phase == Waiting
      modifies this
      ensures Valid() && Output(Snapshot(), r) == Step(old(Snapshot()), env, c)
    {
      if c == 0x99 {
        current := 1;
      } else if c == 0x66 && current == 1 {
        dataSize, checksum, error := 0, 0, 0;
        current := 0;
        phase := Header;
      } else {
        current := 0;
      }
      r := IDLE_BYTE;
    }

    method TransferHeader(env: Env, c: byte) returns (r: byte)
      requires Valid() && phase == Header
      modifies this, header
      ensures Valid() && Output(Snapshot(), r) == Step(old(Snapshot()), env, c)
    {
      header[current] := c;
      assert header[..] == old(header[..])[old(current) := c];
      current := current + 1;
      checksum := (checksum + c) % 0x1_0000;
      r := IDLE_BYTE;
      if current >= 4 {
        JudgeHeader(env);
      }
    }

    // The part of the header phase that follows its last byte.
    method JudgeHeader(env: Env)
      requires Shaped()
      modifies this`phase, this`device, this`unmetered, this`error, this`current, this`dataSize
      ensures dataSize == header[3] && current == 0
      ensures phase == if header[3] != 0 then Data else Checksum
      ensures device == if env.session then old(device) else env.config % 128
      ensures unmetered == if env.session then old(unmetered) else env.config >= 128
      ensures error == if CommandExists(header[0]) then old(error) else ERROR_UNKNOWN_COMMAND
    {
      dataSize := header[3];
      if header[2] != 0 {
        current := 0;
        phase := Waiting;
      }
      if !env.session {
        if header[0] != COMMAND_START {
          current := 0;
          phase := Waiting;
        }
        device := env.config % 128;
        unmetered := env.config >= 128;
      }
      if !CommandExists(header[0]) {
        error := ERROR_UNKNOWN_COMMAND;
      }
      current := 0;
      if dataSize != 0 {
        phase := Data;
      } else {
        phase := Checksum;
      }
    }

    method TransferData(env: Env, c: byte) returns (r: byte)
      requires Valid() && phase == Data
      modifies this, buffer
      ensures Valid() && Output(Snapshot(), r) == Step(old(Snapshot()), env, c)
    {
      hide StepHeader, StepChecksum, StepAcknowledge, StepIdleCheck, StepResponse, StepResponseAcknowledge;
      buffer[current] := c;
      assert buffer[..] == old(buffer[..])[old(current) := c];
      current := current + 1;
      checksum := (checksum + c) % 0x1_0000;
      if current >= dataSize {
        if mode32 && current % 4 != 0 {
          current := 4 - current % 4;
          phase := DataPad;
        } else {
          current := 0;
          phase := Checksum;
        }
      }
      r := IDLE_BYTE;
    }

    method TransferChecksum(env: Env, c: byte) returns (r: byte)
      requires Valid() && phase == Checksum
      modifies this, footer
      ensures Valid() && Output(Snapshot(), r) == Step(old(Snapshot()), env, c)
    {
      footer[current] := c;
      assert footer[..] == old(footer[..])[old(current) := c];
      current := current + 1;
      if current >= 2 {
        var inChecksum := BigEndian(footer[0], footer[1]);
        if checksum != inChecksum {
          error := ERROR_CHECKSUM;
        }
        current := 0;
        phase := Acknowledge;
        return SetTop(device);
      }
      r := IDLE_BYTE;
    }

    method TransferAcknowledge(env: Env, c: byte) returns (r: byte)
      requires Valid() && phase == Acknowledge
      modifies this
      ensures Valid() && Output(Snapshot(), r) == Step(old(Snapshot()), env, c)
    {
      if mode32 {
        current := 2;
        phase := AcknowledgePad;
        return if error != 0 then error else FlipTop(header[0]);
      }
      if device != ADAPTER_BLUE && c != 0x80 && c != 0x81 {
        phase := Waiting;
        return IDLE_BYTE;
      }
      current := 1;
      phase := IdleCheck;
      return if error != 0 then error else FlipTop(header[0]);
    }

    method TransferIdleCheck(env: Env, c: byte) returns (r: byte)
      requires Valid() && phase == IdleCheck
      modifies this
      ensures Valid() && Output(Snapshot(), r) == Step(old(Snapshot()), env, c)
    {
      r := IDLE_BYTE;
      // An unsigned char: the decrement wraps round when it tests zero.
      var skipping := current != 0;
      current := if current == 0 then 255 else current - 1;
      if skipping {
        return;
      }
      if header[0] == COMMAND_NULL || error != 0 {
        phase := Waiting;
        if c == 0x99 {
          current := 1;
        }
        return;
      }
      if c != 0x4B {
        phase := Waiting;
        if c == 0x99 {
          current := 1;
        }
        return;
      }
      phase := ResponseWaiting;
    }

    method TransferResponseStart(env: Env, c: byte) returns (r: byte)
      requires Valid() && phase == ResponseStart
      modifies this
      ensures Valid() && Output(Snapshot(), r) == Step(old(Snapshot()), env, c)
    {
      var before := current;
      current := current + 1;
      if before == 0 {
        return 0x99;
      }
      dataSize := header[3];
      error := 0;
      current := 0;
      phase := ResponseHeader;
      r := 0x66;
    }

    method TransferResponseHeader(env: Env, c: byte) returns (r: byte)
      requires Valid() && phase == ResponseHeader
      modifies this
      ensures Valid() && Output(Snapshot(), r) == Step(old(Snapshot()), env, c)
    {
      r := header[current];
      current := current + 1;
      if current >= 4 {
        current := 0;
        if dataSize != 0 {
          phase := ResponseData;
        } else {
          phase := ResponseChecksum;
        }
      }
    }

    method TransferResponseData(env: Env, c: byte) returns (r: byte)
      requires Valid() && phase == ResponseData
      modifies this
      ensures Valid() && Output(Snapshot(), r) == Step(old(Snapshot()), env, c)
    {
      r := buffer[current];
      current := current + 1;
      if current >= dataSize {
        if mode32 && current % 4 != 0 {
          current := 4 - current % 4;
          phase := ResponseDataPad;
        } else {
          current := 0;
          phase := ResponseChecksum;
        }
      }
    }

    method TransferResponseChecksum(env: Env, c: byte) returns (r: byte)
      requires Valid() && phase == ResponseChecksum
      modifies this
      ensures Valid() && Output(Snapshot(), r) == Step(old(Snapshot()), env, c)
    {
      r := footer[current];
      current := current + 1;
      if current >= 2 {
        current := 0;
        phase := ResponseAcknowledge;
      }
    }

    method TransferResponseAcknowledge(env: Env, c: byte) returns (r: byte)
      requires Valid() && phase == ResponseAcknowledge
      modifies this
      ensures Valid() && Output(Snapshot(), r) == Step(old(Snapshot()), env, c)
    {
      if current == 0 {
        current := current + 1;
        return SetTop(device);
      } else if current == 1 {
        current := current + 1;
        return 0;
      } else if current == 2 {
        error := c;
      }
      if mode32 && current < 4 {
        current := current + 1;
        return 0;
      }
      current := 0;
      if error == ERROR_UNKNOWN_COMMAND || error == ERROR_CHECKSUM || error == ERROR_INTERNAL {
        phase := ResponseStart;
        return IDLE_BYTE;
      }
      phase := Waiting;
      return IDLE_BYTE;
    }

    // The loop of mobile_serial_transfer_32bit.
    method TransferBytes(env: Env, ghost ins: seq<Input>, bytes: seq<byte>) returns (d: seq<byte>)
      requires Valid() && |bytes| == |ins| == 4
      requires forall k | 0 <= k < 4 :: ins[k] == Input(env, bytes[k])
      modifies this, buffer, header, footer
      ensures Valid()
      ensures Snapshot() == Run(old(Snapshot()), ins) && d == Replies(old(Snapshot()), ins)
    {
      hide Step, Run, Replies;
      d := bytes;
      ghost var start := Snapshot();
      RunNothing(start);
      for i := 0 to 4
        invariant Valid() && |d| == 4 && forall k | i <= k < 4 :: d[k] == bytes[k]
        invariant Snapshot() == Run(start, ins[..i]) && d[..i] == Replies(start, ins[..i])
      {
        var reply := Transfer(env, d[i]);
        RunSnoc(start, ins[..i], ins[i]);
        assert ins[..i + 1] == ins[..i] + [ins[i]];
        assert d[i := reply][..i + 1] == d[..i] + [reply];
        d := d[i := reply];
      }
      assert ins[..4] == ins && d[..4] == d;
    }

    // mobile_serial_transfer_32bit
    method TransferWord(env: Env, c: word) returns (r: word)
      requires Valid()
      modifies this, buffer, header, footer
      ensures Valid()
      ensures WordOutput(Snapshot(), r) == StepWord(old(Snapshot()), env, c)
    {
      var d := TransferBytes(env, Bytes4(env, c), Unpack(c));
      if phase == Acknowledge {
        d := [SetTop(device), if error != 0 then error else FlipTop(header[0]), 0, 0];
        current := 4;
        phase := IdleCheck;
      }
      r := Pack(d);
    }
  }

  lemma RunNothing(l: Link)
    requires LinkOk(l)
    ensures Run(l, []) == l && Replies(l, []) == []
  {
  }

  lemma RunSnoc(l: Link, ins: seq<Input>, i: Input)
    requires LinkOk(l)
    ensures Run(l, ins + [i]) == Step(Run(l, ins), i.env, i.c).link
    ensures Replies(l, ins + [i]) == Replies(l, ins) + [Step(Run(l, ins), i.env, i.c).reply]
  {
    RunAppend(l, ins, [i]);
    RepliesAppend(l, ins, [i]);
    assert [i][1..] == [];
  }
}
