/**
 Sending a reply (mobile.c:46-76, serial.c:183-269): building the packet, emitting it with
 retransmission, and reading it back; and 32-bit mode against 8-bit mode.
 */
module Reply {
  import opened Bytes
  import opened Serial
  import opened Receiver

  // ---------- The packet ----------

  function ReplyHeader(command: byte, size: byte): (h: seq<byte>)
    ensures |h| == 4
  {
    [SetTop(command), 0, 0, size]
  }

  function Footer(header: seq<byte>, payload: seq<byte>): (f: seq<byte>)
    ensures |f| == 2
  {
    [Sum(header + payload) / 256 % 256, Sum(header + payload) % 256]
  }

  // What packet_create leaves in the link: header, payload and footer, and the other
  // scratch fields as the command layer's use of the same memory left them (`stale`).
  function Created(l: Link, command: byte, payload: seq<byte>, stale: Scratch): Link
    requires LinkOk(l) && |payload| <= DATA_SIZE
  {
    var header := ReplyHeader(command, |payload|);
    l.(buffer := payload + l.buffer[|payload|..],
       b := stale.(header := header, footer := Footer(header, payload)))
  }

  /** The checksum of a reply fits its two bytes: no carry is ever lost. */
  lemma FooterExact(command: byte, payload: seq<byte>)
    requires |payload| <= DATA_SIZE
    ensures var h := ReplyHeader(command, |payload|);
            var f := Footer(h, payload);
            Sum(h + payload) <= 0xFFFF && BigEndian(f[0], f[1]) == Sum(h + payload)
  {
    var h := ReplyHeader(command, |payload|);
    SumAppend(h, payload);
    SumFour(h[0], 0, 0, h[3]);
    FooterOfSum(Sum(h + payload));
  }

  lemma FooterOfSum(sum: nat)
    requires sum < 0x1_0000
    ensures BigEndian(sum / 256 % 256, sum % 256) == sum
  {
    assert sum / 256 % 256 == sum / 256;
  }

  lemma SumFour(a: byte, b: byte, c: byte, d: byte)
    ensures Sum([a, b, c, d]) == a as int + b as int + c as int + d as int
  {
    assert [a, b, c, d][..3] == [a, b, c] && [a, b, c][..2] == [a, b] && [a, b][..1] == [a] && [a][..0] == [];
    assert Sum([a]) == Sum([]) + a;
    assert Sum([a, b]) == Sum([a]) + b;
    assert Sum([a, b, c]) == Sum([a, b]) + c;
  }

  // One of the two summing loops of packet_create.
  method SumBytes(a: array<byte>, n: nat) returns (sum: nat)
    requires n <= a.Length
    ensures sum == Sum(a[..n])
  {
    sum := 0;
    for i := 0 to n
      invariant sum == Sum(a[..i])
    {
      assert a[..i + 1] == a[..i] + [a[i]];
      SumSnoc(a[..i], a[i]);
      sum := sum + a[i];
    }
  }

  // packet_create on the serial structure; `payload` is what the packet points at.
  method PacketCreate(link: SerialLink, command: byte, payload: seq<byte>)
    requires link.Shaped() && |payload| <= DATA_SIZE
    modifies link.header, link.footer, link.buffer
    ensures link.header[..] == ReplyHeader(command, |payload|)
    ensures link.buffer[..] == payload + old(link.buffer[|payload|..])
    ensures link.footer[..] == Footer(link.header[..], payload)
  {
    link.header[0], link.header[1] := SetTop(command), 0;
    link.header[2], link.header[3] := 0, |payload|;
    forall k | 0 <= k < |payload| {
      link.buffer[k] := payload[k];
    }
    var headerSum := SumBytes(link.header, 4);
    var dataSum := SumBytes(link.buffer, |payload|);
    var checksum := headerSum + dataSum;
    assert link.header[..4] == link.header[..] && link.buffer[..|payload|] == payload;
    SumAppend(link.header[..], payload);
    link.footer[0], link.footer[1] := checksum / 256 % 256, checksum % 256;
  }

  // ---------- The transmission ----------

  // Bytes of a reply through its checksum.
  function TransmissionSize(l: Link): nat
    requires LinkOk(l)
  {
    8 + Size(l.b.header) + Pad(l.mode32, Size(l.b.header))
  }

  function TransmissionByte(l: Link, k: nat): byte
    requires LinkOk(l) && k < TransmissionSize(l)
  {
    var n := Size(l.b.header);
    var end := 6 + n + Pad(l.mode32, n);
    if k == 0 then 0x99 else if k == 1 then 0x66
    else if k < 6 then l.b.header[k - 2]
    else if k < 6 + n then l.buffer[k - 6]
    else if k < end then 0
    else l.b.footer[k - end]
  }

  function Transmission(l: Link): (t: seq<byte>)
    requires LinkOk(l)
    ensures |t| == TransmissionSize(l)
  {
    seq(TransmissionSize(l), k requires 0 <= k < TransmissionSize(l) => TransmissionByte(l, k))
  }

  /** On the wire a reply is 0x99 0x66, header, payload, padding and footer. */
  lemma TransmissionParts(l: Link)
    requires LinkOk(l)
    ensures var n := Size(l.b.header);
            Transmission(l) == [0x99, 0x66] + (l.b.header + l.buffer[..n] + Zeros(Pad(l.mode32, n)) + l.b.footer)
  {
    var n := Size(l.b.header);
    var t := [0x99, 0x66] + (l.b.header + l.buffer[..n] + Zeros(Pad(l.mode32, n)) + l.b.footer);
    assert |t| == TransmissionSize(l);
    assert forall k | 0 <= k < |t| :: t[k] == TransmissionByte(l, k);
  }

  /** The link has sent k bytes of its transmission. */
  predicate Sending(l: Link, k: nat)
    requires LinkOk(l)
  {
    var n := Size(l.b.header);
    var end := 6 + n + Pad(l.mode32, n);
    var current := l.b.current;
    if k == 0 then l.phase == ResponseInit || (l.phase == ResponseStart && current == 0)
    else if k == 1 then l.phase == ResponseStart && current == 1
    else if k < 6 then l.phase == ResponseHeader && current == k - 2 && l.b.dataSize == n
    else if k < 6 + n then l.phase == ResponseData && current == k - 6 && l.b.dataSize == n
    else if k < end then l.phase == ResponseDataPad && current == end - k
    else if k < end + 2 then l.phase == ResponseChecksum && current == k - end
    else k == end + 2 && l.phase == ResponseAcknowledge && current == 0
  }

  // What a transmission leaves alone.
  predicate SameReply(a: Link, b: Link) {
    && a.mode32 == b.mode32 && a.device == b.device && a.buffer == b.buffer
    && a.b.header == b.b.header && a.b.footer == b.b.footer
  }

  lemma SameTransmission(a: Link, b: Link)
    requires LinkOk(a) && LinkOk(b) && SameReply(a, b)
    ensures Transmission(a) == Transmission(b)
  {
  }

  lemma {:induction false} SendStep(l: Link, k: nat, env: Env, c: byte)
    requires LinkOk(l) && Sending(l, k) && k < TransmissionSize(l)
    ensures var o := Step(l, env, c);
            o.reply == TransmissionByte(l, k) && Sending(o.link, k + 1) && SameReply(l, o.link)
  {
    var n := Size(l.b.header);
    if k < 6 {
    } else if k < 6 + n {
      SendDataStep(l, k);
    } else {
      assert Step(l, env, c) == StepResponse(l);
    }
  }

  lemma SendDataStep(l: Link, k: nat)
    requires LinkOk(l) && Sending(l, k) && 6 <= k < 6 + Size(l.b.header)
    ensures var o := StepResponse(l);
            o.reply == TransmissionByte(l, k) && Sending(o.link, k + 1) && SameReply(l, o.link)
  {
  }

  lemma {:induction false} SendRun(l: Link, k: nat, ins: seq<Input>)
    requires LinkOk(l) && Sending(l, k) && k + |ins| <= TransmissionSize(l)
    ensures Sending(Run(l, ins), k + |ins|) && SameReply(l, Run(l, ins))
    ensures Emitted(l, k, Replies(l, ins))
    decreases |ins|
  {
    if ins == [] {
    } else {
      hide Step, Sending, Emitted, Run, Replies, SameReply, TransmissionSize, TransmissionByte, LinkOk;
      var init, last := ins[..|ins| - 1], ins[|ins| - 1];
      SendRun(l, k, init);
      assert ins == init + [last];
      RunSnoc(l, init, last);
      SendMore(l, Run(l, init), k, Replies(l, init), last);
    }
  }

  // One more byte of it.
  lemma SendMore(l: Link, m: Link, k: nat, replies: seq<byte>, i: Input)
    requires LinkOk(l) && LinkOk(m) && Sending(m, k + |replies|) && SameReply(l, m) && Emitted(l, k, replies)
    requires k + |replies| < TransmissionSize(l)
    ensures var o := Step(m, i.env, i.c);
            Sending(o.link, k + |replies| + 1) && SameReply(l, o.link) && Emitted(l, k, replies + [o.reply])
  {
    hide Step, Sending, Emitted, SameReply, TransmissionSize, TransmissionByte, LinkOk;
    SameByte(l, m, k + |replies|);
    SendStep(m, k + |replies|, i.env, i.c);
    SameAgain(l, m, Step(m, i.env, i.c).link);
    EmittedSnoc(l, k, replies, TransmissionByte(l, k + |replies|));
  }

  // These are the bytes of the transmission from the k-th on.
  predicate Emitted(l: Link, k: nat, replies: seq<byte>)
    requires LinkOk(l)
  {
    && k + |replies| <= TransmissionSize(l)
    && forall j | 0 <= j < |replies| :: replies[j] == TransmissionByte(l, k + j)
  }

  lemma EmittedSnoc(l: Link, k: nat, replies: seq<byte>, b: byte)
    requires LinkOk(l) && Emitted(l, k, replies)
    requires k + |replies| < TransmissionSize(l) && b == TransmissionByte(l, k + |replies|)
    ensures Emitted(l, k, replies + [b])
  {
    hide TransmissionByte, TransmissionSize;
  }

  lemma SameAgain(a: Link, b: Link, c: Link)
    requires SameReply(a, b) && SameReply(b, c)
    ensures SameReply(a, c)
  {
  }

  lemma SameByte(a: Link, b: Link, k: nat)
    requires LinkOk(a) && LinkOk(b) && SameReply(a, b) && k < TransmissionSize(a)
    ensures TransmissionSize(b) == TransmissionSize(a) && TransmissionByte(b, k) == TransmissionByte(a, k)
  {
  }

  // The bytes after the checksum: the device, padding, and the idle byte.
  function Trailer(l: Link): seq<byte> {
    if l.mode32 then [SetTop(l.device), 0, 0, 0, IDLE_BYTE] else [SetTop(l.device), 0, IDLE_BYTE]
  }

  lemma RunThree(l: Link, a: Input, b: Input, c: Input)
    requires LinkOk(l)
    ensures var x := Step(l, a.env, a.c); var y := Step(x.link, b.env, b.c); var z := Step(y.link, c.env, c.c);
            Run(l, [a, b, c]) == z.link && Replies(l, [a, b, c]) == [x.reply, y.reply, z.reply]
  {
    RunSnoc(l, [], a);
    RunSnoc(l, [a], b);
    RunSnoc(l, [a, b], c);
    assert [] + [a] == [a] && [a] + [b] == [a, b] && [a, b] + [c] == [a, b, c];
  }

  // The input that acknowledges a reply or asks for it again is the third.
  lemma {:induction false} TrailerRun(l: Link, ins: seq<Input>)
    requires LinkOk(l) && l.phase == ResponseAcknowledge && l.b.current == 0 && |ins| == |Trailer(l)|
    ensures Replies(l, ins) == Trailer(l)
    ensures var end := Run(l, ins);
            && SameReply(l, end) && end.b.current == 0
            && end.phase == if Retry(ins[2].c) then ResponseStart else Waiting
  {
    RunThree(l, ins[0], ins[1], ins[2]);
    var three := [ins[0], ins[1], ins[2]];
    if l.mode32 {
      RunSnoc(l, three, ins[3]);
      RunSnoc(l, three + [ins[3]], ins[4]);
      assert ins == three + [ins[3]] + [ins[4]];
    } else {
      assert ins == three;
    }
  }

  // One reply's worth of input, whose third byte after the checksum asks for a retry.
  predicate AsksAgain(l: Link, ins: seq<Input>)
    requires LinkOk(l)
  {
    |ins| == |Transmission(l) + Trailer(l)| && Retry(ins[|Transmission(l)| + 2].c)
  }

  /** One whole reply: from RESPONSE_INIT, or when it is sent again, the link emits exactly
      the transmission and its trailer, whatever it is sent meanwhile, and then waits for
      the next packet unless the third byte after the checksum was 0xF0 to 0xF2. */
  lemma {:induction false} ReplyEmitted(l: Link, ins: seq<Input>)
    requires LinkOk(l) && Sending(l, 0) && |ins| == |Transmission(l) + Trailer(l)|
    ensures Replies(l, ins) == Transmission(l) + Trailer(l)
    ensures var end := Run(l, ins);
            SameReply(l, end) && if AsksAgain(l, ins) then Sending(end, 0) else end.phase == Waiting
  {
    var n := |Transmission(l)|;
    SendRun(l, 0, ins[..n]);
    RunAppend(l, ins[..n], ins[n..]);
    RepliesAppend(l, ins[..n], ins[n..]);
    assert ins == ins[..n] + ins[n..] && Replies(l, ins[..n]) == Transmission(l);
    TrailerRun(Run(l, ins[..n]), ins[n..]);
  }

  function Repeat(s: seq<byte>, times: nat): seq<byte> {
    if times == 0 then [] else s + Repeat(s, times - 1)
  }

  function Flatten(rounds: seq<seq<Input>>): seq<Input> {
    if rounds == [] then [] else rounds[0] + Flatten(rounds[1..])
  }

  lemma SameQuestion(a: Link, b: Link, ins: seq<Input>)
    requires LinkOk(a) && LinkOk(b) && SameReply(a, b)
    ensures AsksAgain(a, ins) == AsksAgain(b, ins) && Trailer(a) == Trailer(b)
  {
    SameTransmission(a, b);
  }

  /** Any number of retries each send the identical frame again. */
  lemma {:induction false} RetriesRepeat(l: Link, rounds: seq<seq<Input>>)
    requires LinkOk(l) && Sending(l, 0)
    requires forall i | 0 <= i < |rounds| :: AsksAgain(l, rounds[i])
    ensures Replies(l, Flatten(rounds)) == Repeat(Transmission(l) + Trailer(l), |rounds|)
    ensures Sending(Run(l, Flatten(rounds)), 0) && SameReply(l, Run(l, Flatten(rounds)))
    decreases |rounds|
  {
    hide Step, Sending, Transmission;
    if rounds != [] {
      var next := Run(l, rounds[0]);
      ReplyEmitted(l, rounds[0]);
      RunAppend(l, rounds[0], Flatten(rounds[1..]));
      RepliesAppend(l, rounds[0], Flatten(rounds[1..]));
      SameTransmission(l, next);
      forall i | 0 <= i < |rounds| - 1 ensures AsksAgain(next, rounds[1..][i]) {
        SameQuestion(l, next, rounds[i + 1]);
      }
      RetriesRepeat(next, rounds[1..]);
    }
  }

  // ---------- Reading a reply back ----------

  // Feeding more bytes of a frame to a link in the middle of one.
  lemma {:induction false} ReceivingRun(l: Link, fr: seq<byte>, env: Env, s: seq<byte>)
    requires LinkOk(l) && Receiving(l, fr)
    requires |fr + s| >= 4 ==> |fr + s| <= Whole(l.mode32, fr + s)
    ensures Receiving(Run(l, Feed(env, s)), fr + s) && Run(l, Feed(env, s)).mode32 == l.mode32
    decreases |s|
  {
    hide Step, Receiving;
    if s == [] {
      assert fr + s == fr;
    } else {
      var init, c := s[..|s| - 1], s[|s| - 1];
      assert s == init + [c] && fr + s == fr + init + [c];
      assert |fr + init| >= 4 ==> (fr + s)[3] == (fr + init)[3];
      ReceivingRun(l, fr, env, init);
      FeedSnoc(env, init, c);
      RunSnoc(l, Feed(env, init), Input(env, c));
      ReceivingStep(Run(l, Feed(env, init)), fr + init, env, c);
    }
  }

  lemma FeedSnoc(env: Env, s: seq<byte>, c: byte)
    ensures Feed(env, s + [c]) == Feed(env, s) + [Input(env, c)]
  {
  }

  // The start of a packet, from a link that waits for one.
  lemma {:induction false} MarkRun(l: Link, env: Env)
    requires LinkOk(l) && l.phase == Waiting
    ensures var next := Run(l, Feed(env, [0x99, 0x66])); Receiving(next, []) && next.mode32 == l.mode32
  {
    var a, b := Input(env, 0x99), Input(env, 0x66);
    assert Feed(env, [0x99, 0x66]) == [a] + [b] && [a] == [] + [a];
    RunSnoc(l, [], a);
    RunSnoc(l, [a], b);
    var next := Run(l, [a] + [b]);
    assert Summed([]) == [] && next.b.header[..0] == [];
  }

  lemma {:induction false} FrameRun(l: Link, env: Env, fr: seq<byte>)
    requires LinkOk(l) && l.phase == Waiting
    requires |fr| >= 4 ==> |fr| <= Whole(l.mode32, fr)
    ensures var end := Run(l, Feed(env, [0x99, 0x66] + fr)); Receiving(end, fr) && end.mode32 == l.mode32
  {
    MarkRun(l, env);
    var mark := Feed(env, [0x99, 0x66]);
    assert Feed(env, [0x99, 0x66] + fr) == mark + Feed(env, fr);
    RunAppend(l, mark, Feed(env, fr));
    ReceivingRun(Run(l, mark), [], env, fr);
    assert [] + fr == fr;
  }

  /** Round trip: what one link emits for a packet, another link in the same mode receives
      as the same header and payload, with a checksum that matches. */
  lemma {:induction false} ReplyRoundTrip(sender: Link, command: byte, payload: seq<byte>, stale: Scratch,
                                          receiver: Link, env: Env)
    requires LinkOk(sender) && |payload| <= DATA_SIZE && ScratchOk(stale)
    requires LinkOk(receiver) && receiver.phase == Waiting && receiver.mode32 == sender.mode32
    requires sender.phase == ResponseInit
    ensures var reply := Created(sender, command, payload, stale);
            && LinkOk(reply)
            && var end := Run(receiver, Feed(env, Transmission(reply)));
               && end.phase == Acknowledge
               && end.b.header == ReplyHeader(command, |payload|)
               && end.buffer[..|payload|] == payload
               && end.b.error != ERROR_CHECKSUM
  {
    var reply, fr := Created(sender, command, payload, stale), ReplyFrame(sender.mode32, command, payload);
    ReplyIsFrame(sender, command, payload, stale);
    hide Run, Transmission, Receiving, ReplyFrame, FrameError, Whole, Created;
    FrameRun(receiver, env, fr);
    ReceivedFrame(Run(receiver, Feed(env, Transmission(reply))), fr);
  }

  // A reply as a frame: header, payload, padding and footer.
  function ReplyFrame(mode32: bool, command: byte, payload: seq<byte>): seq<byte>
    requires |payload| <= DATA_SIZE
  {
    var header := ReplyHeader(command, |payload|);
    header + payload + Zeros(Pad(mode32, |payload|)) + Footer(header, payload)
  }

  lemma ReplyIsFrame(sender: Link, command: byte, payload: seq<byte>, stale: Scratch)
    requires LinkOk(sender) && |payload| <= DATA_SIZE && ScratchOk(stale) && sender.phase == ResponseInit
    ensures var reply, fr := Created(sender, command, payload, stale), ReplyFrame(sender.mode32, command, payload);
            && LinkOk(reply) && Transmission(reply) == [0x99, 0x66] + fr
            && |fr| >= 4 && |fr| == Whole(sender.mode32, fr) && fr[..4] == ReplyHeader(command, |payload|)
            && Size(fr) == |payload| && Summed(fr)[4..] == payload && FrameError(sender.mode32, fr) != ERROR_CHECKSUM
  {
    hide Created, ReplyFrame, Transmission, Sum, Summed, Whole, FrameError;
    ReplyIsSent(sender, command, payload, stale);
    FrameIsWhole(sender.mode32, command, payload);
  }

  lemma ReplyIsSent(sender: Link, command: byte, payload: seq<byte>, stale: Scratch)
    requires LinkOk(sender) && |payload| <= DATA_SIZE && ScratchOk(stale) && sender.phase == ResponseInit
    ensures var reply := Created(sender, command, payload, stale);
            LinkOk(reply) && Transmission(reply) == [0x99, 0x66] + ReplyFrame(sender.mode32, command, payload)
  {
    hide Transmission, Footer, Sum;
    var reply := Created(sender, command, payload, stale);
    TakeAll(payload, sender.buffer[|payload|..]);
    TransmissionParts(reply);
  }

  lemma FrameIsWhole(mode32: bool, command: byte, payload: seq<byte>)
    requires |payload| <= DATA_SIZE
    ensures var fr := ReplyFrame(mode32, command, payload);
            && |fr| >= 4 && |fr| == Whole(mode32, fr) && fr[..4] == ReplyHeader(command, |payload|)
            && Size(fr) == |payload| && Summed(fr)[4..] == payload && FrameError(mode32, fr) != ERROR_CHECKSUM
  {
    hide Footer, Sum, Summed, Whole;
    var header := ReplyHeader(command, |payload|);
    PartsOf(header, payload, Zeros(Pad(mode32, |payload|)), Footer(header, payload), mode32);
    FooterExact(command, payload);
  }

  lemma TakeAll(a: seq<byte>, b: seq<byte>)
    ensures (a + b)[..|a|] == a
  {
  }

  // What Receiving says at the end of a whole frame.
  lemma ReceivedFrame(l: Link, fr: seq<byte>)
    requires LinkOk(l) && Receiving(l, fr) && |fr| >= 4 && |fr| == Whole(l.mode32, fr)
    ensures l.phase == Acknowledge && l.b.header == fr[..4] && l.buffer[..Size(fr)] == Summed(fr)[4..]
    ensures l.b.footer == fr[PadEnd(l.mode32, fr)..] && l.b.error == FrameError(l.mode32, fr)
    ensures l.b.checksum == Sum(Summed(fr)) % 0x1_0000 && l.b.current == 0 && l.b.dataSize == Size(fr)
  {
  }

  // ---------- 32-bit mode against 8-bit mode ----------

  /** The padded 32-bit transfer of a frame leaves the link as the unpadded 8-bit transfer
      does, at the acknowledgement: same header, payload, checksum, footer and error. */
  lemma {:induction false} ModesAgree(l8: Link, l32: Link, env: Env, header: seq<byte>, payload: seq<byte>,
                                      padding: seq<byte>, footer: seq<byte>)
    requires LinkOk(l8) && !l8.mode32 && l8.phase == Waiting
    requires LinkOk(l32) && l32.mode32 && l32.phase == Waiting
    requires |header| == 4 && |payload| == header[3] && |padding| == Pad(true, |payload|) && |footer| == 2
    ensures var a := Run(l8, Feed(env, [0x99, 0x66] + (header + payload + footer)));
            var b := Run(l32, Feed(env, [0x99, 0x66] + (header + payload + padding + footer)));
            && a.phase == b.phase == Acknowledge
            && a.b == b.b && a.b.header == header && a.b.footer == footer
            && a.buffer[..|payload|] == b.buffer[..|payload|] == payload
  {
    var f8, f32 := header + payload + footer, header + payload + padding + footer;
    FrameRun(l8, env, f8);
    FrameRun(l32, env, f32);
    PartsOf(header, payload, [], footer, false);
    PartsOf(header, payload, padding, footer, true);
    assert header + payload + [] + footer == f8;
  }

  lemma PartsOf(header: seq<byte>, payload: seq<byte>, padding: seq<byte>, footer: seq<byte>, mode32: bool)
    requires |header| == 4 && |payload| == header[3] && |padding| == Pad(mode32, |payload|) && |footer| == 2
    ensures var fr := header + payload + padding + footer;
            && fr[..4] == header && Size(fr) == |payload| && |fr| == Whole(mode32, fr)
            && Summed(fr) == header + payload && Summed(fr)[4..] == payload
            && fr[PadEnd(mode32, fr)..] == footer
            && fr[PadEnd(mode32, fr)] == footer[0] && fr[PadEnd(mode32, fr) + 1] == footer[1]
  {
    var fr := header + payload + padding + footer;
    assert Summed(fr) == header + payload;
  }

  // ---------- Word transfers ----------

  function RunWords(l: Link, env: Env, ws: seq<word>): (r: Link)
    requires LinkOk(l)
    ensures LinkOk(r)
    decreases |ws|
  {
    if ws == [] then l else StepWord(RunWords(l, env, ws[..|ws| - 1]), env, ws[|ws| - 1]).link
  }

  function ReplyWords(l: Link, env: Env, ws: seq<word>): (r: seq<word>)
    requires LinkOk(l)
    ensures |r| == |ws|
    decreases |ws|
  {
    if ws == [] then []
    else
      var init := ws[..|ws| - 1];
      ReplyWords(l, env, init) + [StepWord(RunWords(l, env, init), env, ws[|ws| - 1]).reply]
  }

  function UnpackAll(ws: seq<word>): (s: seq<byte>)
    ensures |s| == 4 * |ws|
  {
    if ws == [] then [] else UnpackAll(ws[..|ws| - 1]) + Unpack(ws[|ws| - 1])
  }

  lemma FeedWord(env: Env, s: seq<byte>, w: word)
    ensures Feed(env, s + Unpack(w)) == Feed(env, s) + Bytes4(env, w)
  {
  }

  // Words that do not end in the acknowledgement are just their bytes.
  lemma {:induction false} WordsAreBytes(l: Link, env: Env, ws: seq<word>)
    requires LinkOk(l)
    requires forall k | 0 < k <= |ws| :: Run(l, Feed(env, UnpackAll(ws[..k]))).phase != Acknowledge
    ensures RunWords(l, env, ws) == Run(l, Feed(env, UnpackAll(ws)))
    ensures UnpackAll(ReplyWords(l, env, ws)) == Replies(l, Feed(env, UnpackAll(ws)))
    decreases |ws|
  {
    hide Step, Unpack, Pack;
    if ws == [] {
      assert Feed(env, []) == [];
    } else {
      var init, w := ws[..|ws| - 1], ws[|ws| - 1];
      forall k | 0 < k <= |init| ensures Run(l, Feed(env, UnpackAll(init[..k]))).phase != Acknowledge {
        assert init[..k] == ws[..k];
      }
      WordsAreBytes(l, env, init);
      var before := Feed(env, UnpackAll(init));
      FeedWord(env, UnpackAll(init), w);
      RunAppend(l, before, Bytes4(env, w));
      RepliesAppend(l, before, Bytes4(env, w));
      assert ws[..|ws|] == ws;
      PackUnpack(Replies(Run(l, before), Bytes4(env, w)));
      assert ReplyWords(l, env, ws)[..|init|] == ReplyWords(l, env, init);
    }
  }

  lemma {:induction false} UnpackPrefix(ws: seq<word>, k: nat)
    requires k <= |ws|
    ensures UnpackAll(ws[..k]) == UnpackAll(ws)[..4 * k]
    decreases |ws|
  {
    if k == |ws| {
      assert ws[..k] == ws;
    } else {
      UnpackPrefix(ws[..|ws| - 1], k);
      assert ws[..|ws| - 1][..k] == ws[..k];
    }
  }

  // Within a word-aligned frame no word ends in the acknowledgement phase.
  lemma {:induction false} InnerWord(l: Link, env: Env, fr: seq<byte>, k: nat)
    requires LinkOk(l) && l.mode32 && l.phase == Waiting && |fr| >= 4 && |fr| == Whole(true, fr)
    requires 2 <= k < |fr| + 2
    ensures Run(l, Feed(env, ([0x99, 0x66] + fr)[..k])).phase != Acknowledge
  {
    var part := fr[..k - 2];
    assert ([0x99, 0x66] + fr)[..k] == [0x99, 0x66] + part;
    assert |part| >= 4 ==> part[3] == fr[3];
    FrameRun(l, env, part);
  }

  /** A word-aligned frame in 32-bit mode ends exactly at a word's last byte, so the word
      function alone acknowledges it: its last reply is the device byte and the error or the
      echoed command, it skips the next word whole, and what it leaves is otherwise what the
      byte function would. */
  lemma {:induction false} WordFrame(l: Link, env: Env, fr: seq<byte>, ws: seq<word>)
    requires LinkOk(l) && l.mode32 && l.phase == Waiting && |fr| >= 4 && |fr| == Whole(true, fr)
    requires UnpackAll(ws) == [0x99, 0x66] + fr
    ensures var bytes := Run(l, Feed(env, [0x99, 0x66] + fr));
            && bytes.phase == Acknowledge && bytes.b.error == FrameError(true, fr)
            && RunWords(l, env, ws) == bytes.(phase := IdleCheck, b := bytes.b.(current := 4))
            && ReplyWords(l, env, ws)[|ws| - 1] == Pack([SetTop(bytes.device), ErrorOrEcho(bytes.b), 0, 0])
  {
    hide Step, Unpack, Pack;
    var stream := [0x99, 0x66] + fr;
    var init, w := ws[..|ws| - 1], ws[|ws| - 1];
    forall k | 0 < k <= |init| ensures Run(l, Feed(env, UnpackAll(init[..k]))).phase != Acknowledge {
      UnpackPrefix(init, k);
      UnpackPrefix(ws, |ws| - 1);
      assert stream[..4 * |init|][..4 * k] == stream[..4 * k];
      InnerWord(l, env, fr, 4 * k);
    }
    WordsAreBytes(l, env, init);
    FeedWord(env, UnpackAll(init), w);
    RunAppend(l, Feed(env, UnpackAll(init)), Bytes4(env, w));
    FrameRun(l, env, fr);
    ReceivedFrame(Run(l, Feed(env, stream)), fr);
  }

  /** In 32-bit mode the first transmission of a reply fills whole words. */
  lemma TransmissionAligned(l: Link)
    requires LinkOk(l) && l.mode32
    ensures |Transmission(l)| % 4 == 0
  {
  }

  // ---------- What a reply depends on ----------

  // Two links that differ at most in scratch fields their phase will not look at again.
  predicate Agree(a: Link, b: Link) {
    var p := a.phase;
    && a == b.(b := b.b.(current := a.b.current, dataSize := a.b.dataSize, checksum := a.b.checksum,
        error := a.b.error))
    && (p != Init && p != ResponseInit ==> a.b.current == b.b.current)
    && (p in {Header, Data, DataPad, Checksum, Acknowledge, AcknowledgePad, IdleCheck} ==>
          a.b.checksum == b.b.checksum && a.b.error == b.b.error)
    && (p in {Data, ResponseHeader, ResponseData} ==> a.b.dataSize == b.b.dataSize)
    && (p == ResponseAcknowledge && a.b.current > 2 ==> a.b.error == b.b.error)
  }

  lemma AgreeStep(a: Link, b: Link, env: Env, c: byte)
    requires LinkOk(a) && LinkOk(b) && Agree(a, b)
    ensures var x, y := Step(a, env, c), Step(b, env, c);
            x.reply == y.reply && Agree(x.link, y.link)
  {
    hide Step, Agree, LinkOk;
    if a.phase in {Init, Waiting} {
      AgreeStart(a, b, env, c);
    } else if a.phase == Header {
      AgreeHeader(a, b, env, c);
    } else if a.phase in {ResponseInit, ResponseStart, ResponseHeader, ResponseData, ResponseDataPad,
        ResponseChecksum} {
      AgreeResponse(a, b, env, c);
    } else if a.phase in {Data, DataPad, Checksum} {
      AgreePayload(a, b, env, c);
    } else if a.phase == ResponseAcknowledge {
      AgreeLast(a, b, env, c);
    } else {
      AgreeRest(a, b, env, c);
    }
  }

  lemma AgreeLast(a: Link, b: Link, env: Env, c: byte)
    requires LinkOk(a) && LinkOk(b) && Agree(a, b) && a.phase == ResponseAcknowledge
    ensures var x, y := Step(a, env, c), Step(b, env, c); x.reply == y.reply && Agree(x.link, y.link)
  {
  }

  lemma AgreeRest(a: Link, b: Link, env: Env, c: byte)
    requires LinkOk(a) && LinkOk(b) && Agree(a, b)
    requires a.phase in {Acknowledge, AcknowledgePad, IdleCheck, ResponseWaiting}
    ensures var x, y := Step(a, env, c), Step(b, env, c); x.reply == y.reply && Agree(x.link, y.link)
  {
    hide StepData, StepHeader, StepChecksum, StepResponse, StepResponseAcknowledge;
  }

  lemma AgreeStart(a: Link, b: Link, env: Env, c: byte)
    requires LinkOk(a) && LinkOk(b) && Agree(a, b) && a.phase in {Init, Waiting}
    ensures var x, y := Step(a, env, c), Step(b, env, c); x.reply == y.reply && Agree(x.link, y.link)
  {
    hide StepHeader, StepData, StepChecksum, StepAcknowledge, StepIdleCheck, StepResponse, StepResponseAcknowledge;
  }

  lemma AgreeHeader(a: Link, b: Link, env: Env, c: byte)
    requires LinkOk(a) && LinkOk(b) && Agree(a, b) && a.phase == Header
    ensures var x, y := Step(a, env, c), Step(b, env, c); x.reply == y.reply && Agree(x.link, y.link)
  {
    hide StepWaiting, StepData, StepChecksum, StepAcknowledge, StepIdleCheck, StepResponse, StepResponseAcknowledge;
  }

  lemma AgreePayload(a: Link, b: Link, env: Env, c: byte)
    requires LinkOk(a) && LinkOk(b) && Agree(a, b) && a.phase in {Data, DataPad, Checksum}
    ensures var x, y := Step(a, env, c), Step(b, env, c); x.reply == y.reply && Agree(x.link, y.link)
  {
  }

  lemma AgreeResponse(a: Link, b: Link, env: Env, c: byte)
    requires LinkOk(a) && LinkOk(b) && Agree(a, b)
    requires a.phase in {ResponseInit, ResponseStart, ResponseHeader, ResponseData, ResponseDataPad, ResponseChecksum}
    ensures var x, y := Step(a, env, c), Step(b, env, c); x.reply == y.reply && Agree(x.link, y.link)
  {
    hide Step, Agree, LinkOk;
    if a.phase == ResponseData {
      AgreeResponseData(a, b, env, c);
    } else {
      AgreeAround(a, b, env, c);
    }
  }

  lemma AgreeResponseData(a: Link, b: Link, env: Env, c: byte)
    requires LinkOk(a) && LinkOk(b) && Agree(a, b) && a.phase == ResponseData
    ensures var x, y := Step(a, env, c), Step(b, env, c); x.reply == y.reply && Agree(x.link, y.link)
  {
    hide StepData, StepHeader, StepChecksum, StepAcknowledge, StepIdleCheck, StepResponseAcknowledge;
  }

  lemma AgreeAround(a: Link, b: Link, env: Env, c: byte)
    requires LinkOk(a) && LinkOk(b) && Agree(a, b)
    requires a.phase in {ResponseInit, ResponseStart, ResponseHeader, ResponseDataPad, ResponseChecksum}
    ensures var x, y := Step(a, env, c), Step(b, env, c); x.reply == y.reply && Agree(x.link, y.link)
  {
    hide StepData, StepHeader, StepChecksum, StepAcknowledge, StepIdleCheck, StepResponseAcknowledge, AfterPayload;
  }

  /** Nothing stale is ever sent: from RESPONSE_INIT on, what is emitted depends on the
      header, footer, payload, device, mode and input alone, and not on what the command
      layer left in the other scratch fields. */
  lemma {:induction false} NothingStaleSent(a: Link, b: Link, ins: seq<Input>)
    requires LinkOk(a) && LinkOk(b) && Agree(a, b)
    ensures Replies(a, ins) == Replies(b, ins) && Agree(Run(a, ins), Run(b, ins))
    decreases |ins|
  {
    hide Step, Agree;
    if ins != [] {
      var x, y := Step(a, ins[0].env, ins[0].c), Step(b, ins[0].env, ins[0].c);
      AgreeStep(a, b, ins[0].env, ins[0].c);
      NothingStaleSent(x.link, y.link, ins[1..]);
    }
  }

  lemma {:induction false} StaleScratchUnused(l: Link, command: byte, payload: seq<byte>, s: Scratch, t: Scratch,
                                              ins: seq<Input>)
    requires LinkOk(l) && l.phase == ResponseInit && |payload| <= DATA_SIZE && ScratchOk(s) && ScratchOk(t)
    ensures Replies(Created(l, command, payload, s), ins) == Replies(Created(l, command, payload, t), ins)
  {
    NothingStaleSent(Created(l, command, payload, s), Created(l, command, payload, t), ins);
  }
}
