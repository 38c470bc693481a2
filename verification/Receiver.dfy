/**
 Receiving a packet (serial.c:27-177).  The byte machine is shown to refine a receiver
 that collects a whole frame and judges it once, when it is complete.
 */
module Receiver {
  import opened Bytes
  import opened Serial

  // ---------- Frames ----------

  // Padding after the payload: to a whole number of words in 32-bit mode.
  function Pad(mode32: bool, n: nat): (p: nat)
    ensures p <= 3 && (mode32 ==> (n + p) % 4 == 0)
  {
    if mode32 then (4 - n % 4) % 4 else 0
  }

  // The payload size a header announces: its last byte.
  function Size(fr: seq<byte>): (n: nat)
    requires |fr| >= 4
    ensures n <= DATA_SIZE
  {
    fr[3]
  }

  // Where the payload, and where the padding after it, ends.
  function DataEnd(fr: seq<byte>): nat
    requires |fr| >= 4
  {
    4 + Size(fr)
  }

  function PadEnd(mode32: bool, fr: seq<byte>): nat
    requires |fr| >= 4
  {
    DataEnd(fr) + Pad(mode32, Size(fr))
  }

  // Bytes of a frame from its header through its checksum, once the header is there.
  function Whole(mode32: bool, fr: seq<byte>): nat
    requires |fr| >= 4
  {
    PadEnd(mode32, fr) + 2
  }

  // The header and payload bytes among those received.
  function Summed(fr: seq<byte>): seq<byte> {
    if |fr| < 4 || |fr| <= DataEnd(fr) then fr else fr[..DataEnd(fr)]
  }

  predicate ChecksumOk(mode32: bool, fr: seq<byte>)
    requires |fr| >= 4 && |fr| >= Whole(mode32, fr)
  {
    var at := PadEnd(mode32, fr);
    Sum(Summed(fr)) % 0x1_0000 == BigEndian(fr[at], fr[at + 1])
  }

  function HeaderError(fr: seq<byte>): byte
    requires |fr| >= 4
  {
    if CommandExists(fr[0]) then 0 else ERROR_UNKNOWN_COMMAND
  }

  function FrameError(mode32: bool, fr: seq<byte>): byte
    requires |fr| >= 4 && |fr| >= Whole(mode32, fr)
  {
    if !ChecksumOk(mode32, fr) then ERROR_CHECKSUM else HeaderError(fr)
  }

  // The header is complete: it and the payload so far are in their buffers.
  ghost predicate Kept(l: Link, fr: seq<byte>)
    requires LinkOk(l) && |fr| >= 4
  {
    && l.b.header == fr[..4] && l.b.dataSize == fr[3]
    && l.buffer[..|Summed(fr)| - 4] == Summed(fr)[4..]
  }

  // Which phase the link is in, and how far, after the bytes `fr` of a frame.
  ghost predicate At(l: Link, fr: seq<byte>)
    requires LinkOk(l) && |fr| >= 4
  {
    var padEnd := PadEnd(l.mode32, fr);
    if |fr| < DataEnd(fr) then
      l.phase == Data && l.b.current == |fr| - 4 && l.b.error == HeaderError(fr)
    else if |fr| < padEnd then
      l.phase == DataPad && l.b.current == padEnd - |fr| && l.b.error == HeaderError(fr)
    else if |fr| < padEnd + 2 then
      && l.phase == Checksum && l.b.current == |fr| - padEnd && l.b.error == HeaderError(fr)
      && l.b.footer[..l.b.current] == fr[padEnd..]
    else
      && |fr| == padEnd + 2
      && l.phase == Acknowledge && l.b.current == 0 && l.b.error == FrameError(l.mode32, fr)
      && l.b.footer == fr[padEnd..]
  }

  /** The link has received exactly `fr` of a frame, at most through its checksum. */
  ghost predicate Receiving(l: Link, fr: seq<byte>)
    requires LinkOk(l)
  {
    && l.b.checksum == Sum(Summed(fr)) % 0x1_0000
    && if |fr| < 4 then
         l.phase == Header && l.b.current == |fr| && l.b.header[..|fr|] == fr && l.b.error == 0
       else
         Kept(l, fr) && At(l, fr)
  }

  lemma SumSnoc(s: seq<byte>, c: byte)
    ensures Sum(s + [c]) == Sum(s) + c
  {
    assert (s + [c])[..|s + [c]| - 1] == s;
  }

  lemma ChecksumSnoc(checksum: nat, s: seq<byte>, c: byte)
    requires checksum == Sum(s) % 0x1_0000
    ensures AddToChecksum(checksum, c) == Sum(s + [c]) % 0x1_0000
  {
    SumSnoc(s, c);
  }

  // A byte stored at the end of what has been collected extends it.
  lemma StoreExtends(store: seq<byte>, at: nat, fr: seq<byte>, from: nat, c: byte)
    requires at < |store| && from <= |fr| && store[..at] == fr[from..]
    ensures store[at := c][..at + 1] == (fr + [c])[from..]
  {
  }

  // What a byte of a frame does besides being kept: the device is latched outside a session,
  // and shown when the frame is whole.
  predicate Quiet(l: Link, fr: seq<byte>, env: Env, o: Output) {
    && o.link.mode32 == l.mode32
    && o.link.device == (if |fr| == 3 && !env.session then env.config % 128 else l.device)
    && o.reply == (if o.link.phase == Acknowledge then SetTop(o.link.device) else IDLE_BYTE)
  }

  lemma {:induction false} ReceivingHeader(l: Link, fr: seq<byte>, env: Env, c: byte)
    requires LinkOk(l) && Receiving(l, fr) && |fr| < 4
    ensures Receiving(Step(l, env, c).link, fr + [c])
    ensures Quiet(l, fr, env, Step(l, env, c))
  {
    var all := fr + [c];
    ChecksumSnoc(l.b.checksum, fr, c);
    assert Summed(fr) == fr && Summed(all) == all;
    assert fr[0..] == fr && all[0..] == all;
    StoreExtends(l.b.header, |fr|, fr, 0, c);
    if |all| == 4 {
      HeaderComplete(l, all, env, c);
    }
  }

  lemma HeaderComplete(l: Link, all: seq<byte>, env: Env, c: byte)
    requires LinkOk(l) && l.phase == Header && l.b.current == 3 && l.b.error == 0
    requires |all| == 4 && l.b.header[3 := c] == all
    ensures var next := StepHeader(l, env, c); Kept(next, all) && At(next, all)
  {
    assert all[..4] == all && all[4..] == [];
  }

  lemma {:induction false} ReceivingData(l: Link, fr: seq<byte>, env: Env, c: byte)
    requires LinkOk(l) && |fr| >= 4 && Receiving(l, fr) && |fr| < DataEnd(fr)
    ensures Receiving(Step(l, env, c).link, fr + [c])
    ensures Quiet(l, fr, env, Step(l, env, c))
  {
    var all := fr + [c];
    ChecksumSnoc(l.b.checksum, fr, c);
    assert Summed(fr) == fr && Summed(all) == all;
    DataKept(l, fr, c);
    DataAt(l, fr, c);
  }

  lemma DataKept(l: Link, fr: seq<byte>, c: byte)
    requires LinkOk(l) && |fr| >= 4 && Kept(l, fr) && At(l, fr) && |fr| < DataEnd(fr)
    ensures Kept(StepData(l, c), fr + [c])
  {
    var all := fr + [c];
    assert Summed(fr) == fr && Summed(all) == all;
    StoreExtends(l.buffer, |fr| - 4, fr, 4, c);
    assert all[..4] == fr[..4];
  }

  lemma DataAt(l: Link, fr: seq<byte>, c: byte)
    requires LinkOk(l) && |fr| >= 4 && Kept(l, fr) && At(l, fr) && |fr| < DataEnd(fr)
    ensures At(StepData(l, c), fr + [c])
  {
    var all := fr + [c];
    assert all[3] == fr[3] && all[0] == fr[0] && all[|all|..] == [];
  }

  lemma {:induction false} ReceivingPad(l: Link, fr: seq<byte>, env: Env, c: byte)
    requires LinkOk(l) && |fr| >= 4 && Receiving(l, fr) && DataEnd(fr) <= |fr| < PadEnd(l.mode32, fr)
    ensures Receiving(Step(l, env, c).link, fr + [c])
    ensures Quiet(l, fr, env, Step(l, env, c))
  {
    var next := Step(l, env, c).link;
    var all := fr + [c];
    assert all[..4] == fr[..4] && Summed(all) == Summed(fr);
    assert next.b.footer[..0] == all[|all|..];
  }

  lemma {:induction false} ReceivingChecksum(l: Link, fr: seq<byte>, env: Env, c: byte)
    requires LinkOk(l) && |fr| >= 4 && Receiving(l, fr) && PadEnd(l.mode32, fr) <= |fr| < Whole(l.mode32, fr)
    ensures Receiving(Step(l, env, c).link, fr + [c])
    ensures Quiet(l, fr, env, Step(l, env, c))
  {
    hide StepHeader, StepData, StepAcknowledge, StepIdleCheck, StepResponse, StepResponseAcknowledge, Sum, FrameError;
    var all := fr + [c];
    assert all[..4] == fr[..4] && Summed(all) == Summed(fr);
    StoreExtends(l.b.footer, |fr| - PadEnd(l.mode32, fr), fr, PadEnd(l.mode32, fr), c);
    if |all| == PadEnd(l.mode32, fr) + 2 {
      FooterComplete(l, fr, c);
    }
  }

  lemma FooterComplete(l: Link, fr: seq<byte>, c: byte)
    requires LinkOk(l) && |fr| >= 4 && |fr| + 1 == Whole(l.mode32, fr)
    requires Kept(l, fr) && At(l, fr) && l.b.checksum == Sum(Summed(fr)) % 0x1_0000
    ensures At(StepChecksum(l, c).link, fr + [c])
  {
    var all, at := fr + [c], PadEnd(l.mode32, fr);
    assert all[..4] == fr[..4] && Summed(all) == Summed(fr);
    assert l.b.footer[..1] == fr[at..];
    assert fr[at..] == [fr[at]] && l.b.footer[..1] == [l.b.footer[0]];
    assert l.b.footer[1 := c] == all[at..];
  }

  /** One more byte of a frame, in either mode: it is kept, and nothing else changes but
      the device, which is latched outside a session. */
  lemma {:induction false} ReceivingStep(l: Link, fr: seq<byte>, env: Env, c: byte)
    requires LinkOk(l) && Receiving(l, fr) && (|fr| >= 4 ==> |fr| < Whole(l.mode32, fr))
    ensures Receiving(Step(l, env, c).link, fr + [c]) && Quiet(l, fr, env, Step(l, env, c))
  {
    hide Receiving, Quiet, Step;
    if |fr| < 4 {
      ReceivingHeader(l, fr, env, c);
    } else if |fr| < DataEnd(fr) {
      ReceivingData(l, fr, env, c);
    } else if |fr| < PadEnd(l.mode32, fr) {
      ReceivingPad(l, fr, env, c);
    } else {
      ReceivingChecksum(l, fr, env, c);
    }
  }

  // ---------- The receiver that judges whole frames ----------

  // A whole frame goes on with the device byte, a skipped byte and the idle byte 0x4B; in
  // 32-bit mode with the word of the acknowledgement and the idle byte.
  function Tail(mode32: bool): nat {
    if mode32 then 5 else 3
  }

  function Complete(mode32: bool, fr: seq<byte>): nat
    requires |fr| >= 4
  {
    Whole(mode32, fr) + Tail(mode32)
  }

  predicate GoodFrame(mode32: bool, fr: seq<byte>) {
    && |fr| >= 4 && |fr| == Complete(mode32, fr)
    && CommandExists(fr[0]) && fr[0] != COMMAND_NULL
    && ChecksumOk(mode32, fr)
    && fr[|fr| - 1] == 0x4B
  }

  // Looking for 0x99 0x66 (armed: the last byte was a usable 0x99), collecting a frame,
  // or done: a header and payload have been handed over for processing.
  datatype Mode = Hunting(armed: bool) | Collecting(fr: seq<byte>) | Handed(header: seq<byte>, payload: seq<byte>)

  datatype Receiver = Receiver(mode32: bool, device: byte, mode: Mode)

  // Only 8-bit mode sees the other side's device byte in time to judge it.
  function Judge(mode32: bool, device: byte, fr: seq<byte>): Mode
    requires fr != []
  {
    var c := fr[|fr| - 1];
    if !mode32 && |fr| >= 4 && |fr| == Complete(mode32, fr) - 2 && !DeviceByteOk(device, c) then Hunting(false)
    else if |fr| >= 4 && |fr| == Complete(mode32, fr) then
      if GoodFrame(mode32, fr) then Handed(fr[..4], fr[4..DataEnd(fr)]) else Hunting(c == 0x99)
    else Collecting(fr)
  }

  function Receive(r: Receiver, i: Input): Receiver {
    match r.mode
    case Hunting(armed) =>
      r.(mode := if armed && i.c == 0x66 then Collecting([]) else Hunting(i.c == 0x99))
    case Collecting(fr) =>
      var device := if |fr| == 3 && !i.env.session then i.env.config % 128 else r.device;
      Receiver(r.mode32, device, Judge(r.mode32, device, fr + [i.c]))
    case Handed(_, _) => r
  }

  function ReceiveAll(r: Receiver, ins: seq<Input>): (all: Receiver)
    ensures all.mode32 == r.mode32
    decreases |ins|
  {
    if ins == [] then r else ReceiveAll(Receive(r, ins[0]), ins[1..])
  }

  // The frame and its checksum are in, and so are bytes of what follows.  In 32-bit mode the
  // machine gets through these in two ways, by the byte or by the word that the checksum
  // ended; both leave as many bytes to skip.
  ghost predicate InTail(l: Link, fr: seq<byte>)
    requires LinkOk(l) && |fr| >= 4 && |fr| >= Whole(l.mode32, fr)
  {
    var skip := Complete(l.mode32, fr) - 1 - |fr|;
    && Kept(l, fr) && l.b.error == FrameError(l.mode32, fr)
    && ((l.phase == IdleCheck && l.b.current == skip)
        || (l.mode32 && l.phase == AcknowledgePad && l.b.current == skip - 1))
  }

  // The link as the receiver sees it.
  ghost predicate Refines(l: Link, r: Receiver) {
    && LinkOk(l) && l.mode32 == r.mode32 && l.device == r.device
    && match r.mode
       case Hunting(armed) =>
         (l.phase == Init && !armed) || (l.phase == Waiting && (armed <==> l.b.current == 1))
       case Collecting(fr) =>
         if |fr| < 4 || |fr| < Whole(l.mode32, fr) then Receiving(l, fr)
         else if |fr| == Whole(l.mode32, fr) then Receiving(l, fr) || (l.mode32 && InTail(l, fr))
         else InTail(l, fr)
       case Handed(header, payload) =>
         && l.phase == ResponseWaiting && l.b.header == header
         && |payload| == header[3] && l.buffer[..|payload|] == payload
  }

  lemma KeptSnoc(l: Link, next: Link, fr: seq<byte>, c: byte)
    requires LinkOk(l) && LinkOk(next) && |fr| >= 4 && |fr| >= Whole(l.mode32, fr) && Kept(l, fr)
    requires next.buffer == l.buffer && next.b.header == l.b.header && next.b.dataSize == l.b.dataSize
    ensures Kept(next, fr + [c]) && FrameError(l.mode32, fr + [c]) == FrameError(l.mode32, fr)
  {
    var all := fr + [c];
    assert all[..4] == fr[..4] && Summed(all) == Summed(fr);
  }

  // The acknowledgement's first byte, in a byte transfer.
  lemma RefinesAcknowledge(l: Link, r: Receiver, i: Input)
    requires Refines(l, r) && r.mode.Collecting? && |r.mode.fr| >= 4 && |r.mode.fr| == Whole(l.mode32, r.mode.fr)
    requires Receiving(l, r.mode.fr)
    ensures Refines(Step(l, i.env, i.c).link, Receive(r, i))
  {
    var fr := r.mode.fr;
    assert (fr + [i.c])[..4] == fr[..4];
    KeptSnoc(l, Step(l, i.env, i.c).link, fr, i.c);
  }

  // A byte of the tail that is skipped, or in 8-bit mode judged as the device's.
  lemma RefinesSkip(l: Link, r: Receiver, i: Input)
    requires Refines(l, r) && r.mode.Collecting? && |r.mode.fr| >= 4 && |r.mode.fr| >= Whole(l.mode32, r.mode.fr)
    requires InTail(l, r.mode.fr) && |r.mode.fr| + 1 < Complete(l.mode32, r.mode.fr)
    ensures Refines(Step(l, i.env, i.c).link, Receive(r, i))
  {
    hide Summed, ChecksumOk, FrameError, Kept;
    var fr := r.mode.fr;
    assert (fr + [i.c])[..4] == fr[..4];
    KeptSnoc(l, Step(l, i.env, i.c).link, fr, i.c);
  }

  // The byte that has to be the idle byte.
  lemma RefinesIdle(l: Link, r: Receiver, i: Input)
    requires Refines(l, r) && r.mode.Collecting? && |r.mode.fr| >= 4 && |r.mode.fr| >= Whole(l.mode32, r.mode.fr)
    requires InTail(l, r.mode.fr) && |r.mode.fr| + 1 == Complete(l.mode32, r.mode.fr)
    ensures Refines(Step(l, i.env, i.c).link, Receive(r, i))
  {
    var fr := r.mode.fr;
    var all, next := fr + [i.c], Step(l, i.env, i.c).link;
    assert all[..4] == fr[..4];
    KeptSnoc(l, next, fr, i.c);
    WholeFrame(next, all);
    hide Summed, ChecksumOk, Kept, GoodFrame;
  }

  // What is known of a whole frame by its last byte.
  lemma WholeFrame(l: Link, all: seq<byte>)
    requires LinkOk(l) && |all| >= 4 && |all| == Complete(l.mode32, all) && Kept(l, all)
    ensures l.b.header == all[..4] && l.buffer[..Size(all)] == all[4..DataEnd(all)] && Size(all) == all[..4][3]
    ensures GoodFrame(l.mode32, all)
            <==> FrameError(l.mode32, all) == 0 && all[0] != COMMAND_NULL && all[|all| - 1] == 0x4B
  {
    assert Summed(all)[4..] == all[4..DataEnd(all)];
  }

  lemma RefinesHunting(l: Link, r: Receiver, i: Input)
    requires Refines(l, r) && r.mode.Hunting?
    ensures Refines(Step(l, i.env, i.c).link, Receive(r, i))
  {
    assert Summed([]) == [] && l.b.header[..0] == [];
  }

  // A byte of the frame proper.
  lemma RefinesFrame(l: Link, r: Receiver, i: Input)
    requires Refines(l, r) && r.mode.Collecting? && (|r.mode.fr| >= 4 ==> |r.mode.fr| < Whole(l.mode32, r.mode.fr))
    ensures Refines(Step(l, i.env, i.c).link, Receive(r, i))
  {
    hide Step, Receiving, GoodFrame;
    var fr := r.mode.fr;
    ReceivingStep(l, fr, i.env, i.c);
    assert |fr| >= 4 ==> (fr + [i.c])[..4] == fr[..4];
  }

  lemma TailEnds(l: Link, fr: seq<byte>)
    requires LinkOk(l) && |fr| >= 4 && |fr| >= Whole(l.mode32, fr) && InTail(l, fr)
    ensures |fr| < Complete(l.mode32, fr)
  {
  }

  lemma {:induction false} RefinesStep(l: Link, r: Receiver, i: Input)
    requires Refines(l, r)
    ensures Refines(Step(l, i.env, i.c).link, Receive(r, i))
  {
    match r.mode
    case Hunting(_) =>
      RefinesHunting(l, r, i);
    case Collecting(fr) =>
      hide Step, Receive, InTail, Receiving;
      if |fr| < 4 || |fr| < Whole(l.mode32, fr) {
        RefinesFrame(l, r, i);
      } else if InTail(l, fr) {
        TailEnds(l, fr);
        if |fr| + 1 < Complete(l.mode32, fr) {
          RefinesSkip(l, r, i);
        } else {
          RefinesIdle(l, r, i);
        }
      } else {
        RefinesAcknowledge(l, r, i);
      }
    case Handed(_, _) =>
  }

  /** The byte machine refines the frame receiver, over every stream of bytes, in both
      modes. */
  lemma {:induction false} RunRefines(l: Link, r: Receiver, ins: seq<Input>)
    requires Refines(l, r)
    ensures Refines(Run(l, ins), ReceiveAll(r, ins))
    decreases |ins|
  {
    hide Step, Receive, Refines;
    RefinedMode(l, r);
    if ins != [] {
      RefinesStep(l, r, ins[0]);
      RunRefines(Step(l, ins[0].env, ins[0].c).link, Receive(r, ins[0]), ins[1..]);
    }
  }

  // ---------- Streams of words ----------

  datatype WordInput = WordInput(env: Env, w: word)

  function RunStream(l: Link, ws: seq<WordInput>): (r: Link)
    requires LinkOk(l)
    ensures LinkOk(r)
    decreases |ws|
  {
    if ws == [] then l else RunStream(StepWord(l, ws[0].env, ws[0].w).link, ws[1..])
  }

  // The bytes of a stream of words.
  function StreamBytes(ws: seq<WordInput>): (ins: seq<Input>)
    ensures |ins| == 4 * |ws|
    decreases |ws|
  {
    if ws == [] then [] else Bytes4(ws[0].env, ws[0].w) + StreamBytes(ws[1..])
  }

  // A word that ends in the acknowledgement has it answered at once, which leaves the next
  // word to be skipped.
  lemma RefinesAnswered(l: Link, r: Receiver)
    requires Refines(l, r) && l.mode32 && l.phase == Acknowledge
    ensures Refines(l.(phase := IdleCheck, b := l.b.(current := 4)), r)
  {
    var next := l.(phase := IdleCheck, b := l.b.(current := 4));
    assert r.mode.Collecting? && |r.mode.fr| >= 4;
    assert Kept(next, r.mode.fr) && InTail(next, r.mode.fr);
  }

  lemma {:induction false} RefinesWord(l: Link, r: Receiver, env: Env, w: word)
    requires Refines(l, r) && l.mode32
    ensures Refines(StepWord(l, env, w).link, ReceiveAll(r, Bytes4(env, w)))
  {
    hide Refines, Step, Receive;
    RefinedMode(l, r);
    RunRefines(l, r, Bytes4(env, w));
    var link := Run(l, Bytes4(env, w));
    RefinedMode(link, ReceiveAll(r, Bytes4(env, w)));
    if link.phase == Acknowledge {
      RefinesAnswered(link, ReceiveAll(r, Bytes4(env, w)));
    }
  }

  lemma RefinedMode(l: Link, r: Receiver)
    requires Refines(l, r)
    ensures LinkOk(l) && l.mode32 == r.mode32
  {
  }

  /** The word machine refines the same receiver of bytes, over every stream of words: where
      in a word a frame starts and ends makes no difference. */
  lemma {:induction false} WordsRefine(l: Link, r: Receiver, ws: seq<WordInput>)
    requires Refines(l, r) && l.mode32
    ensures Refines(RunStream(l, ws), ReceiveAll(r, StreamBytes(ws)))
    decreases |ws|
  {
    hide Refines, Receive, StepWord;
    RefinedMode(l, r);
    if ws != [] {
      var first := Bytes4(ws[0].env, ws[0].w);
      RefinesWord(l, r, ws[0].env, ws[0].w);
      RefinedMode(StepWord(l, ws[0].env, ws[0].w).link, ReceiveAll(r, first));
      ReceiveAppend(r, first, StreamBytes(ws[1..]));
      WordsRefine(StepWord(l, ws[0].env, ws[0].w).link, ReceiveAll(r, first), ws[1..]);
    }
  }

  // ---------- Which streams are handed over ----------

  lemma {:induction false} ReceiveAppend(r: Receiver, a: seq<Input>, b: seq<Input>)
    ensures ReceiveAll(r, a + b) == ReceiveAll(ReceiveAll(r, a), b)
    decreases |a|
  {
    if a == [] {
      assert a + b == b;
    } else {
      ReceiveAppend(Receive(r, a[0]), a[1..], b);
      assert (a + b)[1..] == a[1..] + b;
    }
  }

  function Chars(ins: seq<Input>): (s: seq<byte>)
    ensures |s| == |ins|
  {
    seq(|ins|, i requires 0 <= i < |ins| => ins[i].c)
  }

  // A frame is being collected since the place where its start was recognised.
  ghost predicate CollectsSince(r: Receiver, ins: seq<Input>, k: nat) {
    k <= |ins| && ReceiveAll(r, ins[..k]).mode == Collecting([])
  }

  lemma {:induction false} LookBack(r: Receiver, ins: seq<Input>)
    requires r.mode.Hunting?
    ensures var m := ReceiveAll(r, ins).mode;
            match m
            case Hunting(armed) => armed && !r.mode.armed ==> ins != [] && ins[|ins| - 1].c == 0x99
            case Collecting(fr) =>
              && |fr| <= |ins| && CollectsSince(r, ins, |ins| - |fr|) && Chars(ins[|ins| - |fr|..]) == fr
              && (|fr| >= 4 ==> |fr| < Complete(r.mode32, fr))
            case Handed(header, payload) => true
    decreases |ins|
  {
    if ins != [] {
      hide GoodFrame, DeviceByteOk, ReceiveAll, CollectsSince, Chars;
      var init, last := ins[..|ins| - 1], ins[|ins| - 1];
      LookBack(r, init);
      assert ins == init + [last];
      ReceiveNext(r, ins, |ins| - 1);
      assert ins[..|ins|] == ins;
      var before, m := ReceiveAll(r, init), ReceiveAll(r, ins).mode;
      assert ReceiveAll(r, ins) == Receive(before, last);
      if m.Collecting? {
        if before.mode.Collecting? {
          LookBackOne(r, init, last, before.mode.fr);
        } else {
          NewlyCollecting(r, ins);
        }
      }
    } else {
      NewlyCollecting(r, ins);
    }
  }

  lemma NewlyCollecting(r: Receiver, ins: seq<Input>)
    ensures ReceiveAll(r, ins).mode == Collecting([]) ==> CollectsSince(r, ins, |ins|) && Chars(ins[|ins|..]) == []
  {
    assert ins[..|ins|] == ins;
  }

  // A frame that goes on being collected began where it began.
  lemma LookBackOne(r: Receiver, init: seq<Input>, last: Input, fr: seq<byte>)
    requires |fr| <= |init| && CollectsSince(r, init, |init| - |fr|) && Chars(init[|init| - |fr|..]) == fr
    ensures CollectsSince(r, init + [last], |init| - |fr|)
    ensures Chars((init + [last])[|init| - |fr|..]) == fr + [last.c]
  {
    hide ReceiveAll, Chars;
    var k := |init| - |fr|;
    assert (init + [last])[..k] == init[..k] && (init + [last])[k..] == init[k..] + [last];
    CharsSnoc(init[k..], last);
  }

  // Where a frame is first judged.
  function Judged(mode32: bool, fr: seq<byte>): nat
    requires |fr| >= 4
  {
    if mode32 then Complete(mode32, fr) else Complete(mode32, fr) - 2
  }

  // From the start of a frame, its bytes are collected as long as none rejects it.
  lemma {:induction false} CollectFrame(r: Receiver, ins: seq<Input>)
    requires r.mode == Collecting([])
    requires |ins| < 4 || |ins| < Judged(r.mode32, Chars(ins))
    ensures ReceiveAll(r, ins).mode == Collecting(Chars(ins))
    ensures ReceiveAll(r, ins).device ==
            if |ins| >= 4 && !ins[3].env.session then ins[3].env.config % 128 else r.device
    decreases |ins|
  {
    if ins != [] {
      var init, last := ins[..|ins| - 1], ins[|ins| - 1];
      assert Chars(ins) == Chars(init) + [last.c];
      assert |init| >= 4 ==> Chars(init)[3] == Chars(ins)[3];
      CollectFrame(r, init);
      assert ins == init + [last];
      ReceiveAppend(r, init, [last]);
      assert [last][1..] == [];
    } else {
      assert Chars(ins) == [];
    }
  }

  // The device the adapter shows at the end of a frame that starts with device `before`.
  function DeviceOf(before: byte, ins: seq<Input>): byte
    requires |ins| >= 4
  {
    if ins[3].env.session then before else ins[3].env.config % 128
  }

  // A whole frame in place: good, and its device byte accepted if that is judged.
  predicate AcceptedFrame(mode32: bool, device: byte, ins: seq<Input>) {
    && GoodFrame(mode32, Chars(ins))
    && (mode32 || DeviceByteOk(DeviceOf(device, ins), ins[|ins| - 3].c))
  }

  lemma ReceiveNext(r: Receiver, ins: seq<Input>, k: nat)
    requires k < |ins|
    ensures ReceiveAll(r, ins[..k + 1]) == Receive(ReceiveAll(r, ins[..k]), ins[k])
    ensures Chars(ins)[..k + 1] == Chars(ins)[..k] + [ins[k].c]
  {
    assert ins[..k + 1] == ins[..k] + [ins[k]];
    ReceiveAppend(r, ins[..k], [ins[k]]);
    assert [ins[k]][1..] == [];
  }

  // The bytes of a frame after its checksum, up to the idle byte.
  lemma {:induction false} FinishFrame(r: Receiver, ins: seq<Input>)
    requires r.mode == Collecting([])
    requires |ins| >= 4 && |ins| == Complete(r.mode32, Chars(ins)) && AcceptedFrame(r.mode32, r.device, ins)
    ensures ReceiveAll(r, ins).mode == Handed(Chars(ins)[..4], Chars(ins)[4..DataEnd(Chars(ins))])
  {
    hide ReceiveAll, ChecksumOk, CommandExists, DeviceByteOk;
    var n, fr, device := |ins|, Chars(ins), DeviceOf(r.device, ins);
    if r.mode32 {
      assert Chars(ins[..n - 1]) == fr[..n - 1];
      CollectFrame(r, ins[..n - 1]);
    } else {
      assert Chars(ins[..n - 3]) == fr[..n - 3];
      CollectFrame(r, ins[..n - 3]);
      ReceiveNext(r, ins, n - 3);
      assert ReceiveAll(r, ins[..n - 2]) == Receiver(false, device, Collecting(fr[..n - 2]));
      ReceiveNext(r, ins, n - 2);
    }
    assert ReceiveAll(r, ins[..n - 1]) == Receiver(r.mode32, device, Collecting(fr[..n - 1]));
    ReceiveNext(r, ins, n - 1);
    assert ins[..n] == ins && fr[..n] == fr;
  }

  lemma {:induction false} HandedStays(r: Receiver, ins: seq<Input>)
    requires r.mode.Handed?
    ensures ReceiveAll(r, ins) == r
    decreases |ins|
  {
    if ins != [] {
      HandedStays(r, ins[1..]);
    }
  }

  // Bytes of a frame with a payload of n bytes, from its header to the idle byte after it.
  function FrameSize(mode32: bool, n: nat): nat {
    4 + n + Pad(mode32, n) + 2 + Tail(mode32)
  }

  // Where the stream holds a recognised start, an accepted frame after it, and what comes
  // of the frame: its header and its payload.
  ghost predicate HandsOver(r: Receiver, ins: seq<Input>, k: nat, header: seq<byte>, payload: seq<byte>) {
    && CollectsSince(r, ins, k)
    && k + FrameSize(r.mode32, |payload|) <= |ins|
    && var frame := ins[k..k + FrameSize(r.mode32, |payload|)];
       && AcceptedFrame(r.mode32, ReceiveAll(r, ins[..k]).device, frame)
       && header == Chars(frame)[..4] && payload == Chars(frame)[4..4 + |payload|] && |payload| == header[3]
  }

  lemma GoodSize(mode32: bool, ins: seq<Input>)
    requires GoodFrame(mode32, Chars(ins))
    ensures |ins| >= 4 && |ins| == Complete(mode32, Chars(ins))
  {
  }

  lemma {:induction false} HandsOverComplete(r: Receiver, ins: seq<Input>, k: nat, header: seq<byte>,
      payload: seq<byte>)
    requires HandsOver(r, ins, k, header, payload)
    ensures ReceiveAll(r, ins).mode == Handed(header, payload)
  {
    hide ReceiveAll, GoodFrame, ChecksumOk, DeviceByteOk;
    var n := k + FrameSize(r.mode32, |payload|);
    GoodSize(r.mode32, ins[k..n]);
    var start := ReceiveAll(r, ins[..k]);
    assert ins == ins[..k] + (ins[k..n] + ins[n..]);
    ReceiveAppend(r, ins[..k], ins[k..n] + ins[n..]);
    ReceiveAppend(start, ins[k..n], ins[n..]);
    FinishFrame(start, ins[k..n]);
    HandedStays(ReceiveAll(start, ins[k..n]), ins[n..]);
  }

  lemma {:induction false} HandsOverSound(r: Receiver, ins: seq<Input>) returns (k: nat)
    requires r.mode.Hunting? && ReceiveAll(r, ins).mode.Handed?
    ensures var m := ReceiveAll(r, ins).mode; HandsOver(r, ins, k, m.header, m.payload)
    decreases |ins|
  {
    var n := |ins| - 1;
    ReceiveNext(r, ins, n);
    assert ins[..n + 1] == ins;
    var before := ReceiveAll(r, ins[..n]);
    if before.mode.Handed? {
      k := HandsOverSound(r, ins[..n]);
      HandsOverLonger(r, ins, n, k, before.mode.header, before.mode.payload);
    } else {
      LookBack(r, ins[..n]);
      k := n - |before.mode.fr|;
      assert ins[..n][..k] == ins[..k] && ins[..n][k..] == ins[k..n];
      JustHanded(r, ins, n, k);
    }
  }

  // The last byte of the stream completed the frame collected since k.
  lemma JustHanded(r: Receiver, ins: seq<Input>, n: nat, k: nat)
    requires k <= n && n + 1 == |ins| && CollectsSince(r, ins, k)
    requires ReceiveAll(r, ins[..n]).mode == Collecting(Chars(ins[k..n]))
    requires ReceiveAll(r, ins).mode.Handed? && ReceiveAll(r, ins) == Receive(ReceiveAll(r, ins[..n]), ins[n])
    ensures var m := ReceiveAll(r, ins).mode; HandsOver(r, ins, k, m.header, m.payload)
  {
    hide AcceptedFrame, HandsOver, GoodFrame, ReceiveAll, Judge;
    var start, frame := ReceiveAll(r, ins[..k]), ins[k..];
    var fr := Chars(frame);
    assert frame == ins[k..n] + [ins[n]];
    CharsSnoc(ins[k..n], ins[n]);
    assert fr[..|fr| - 1] == Chars(ins[k..n]);
    JudgedGood(r.mode32, ReceiveAll(r, ins).device, fr);
    assert ins[..n] == ins[..k] + frame[..n - k];
    ReceiveAppend(r, ins[..k], frame[..n - k]);
    LastThree(start, frame);
    FrameToTheEnd(r, ins, k);
  }

  lemma CharsSnoc(ins: seq<Input>, i: Input)
    ensures Chars(ins + [i]) == Chars(ins) + [i.c]
  {
  }

  lemma FrameToTheEnd(r: Receiver, ins: seq<Input>, k: nat)
    requires CollectsSince(r, ins, k) && AcceptedFrame(r.mode32, ReceiveAll(r, ins[..k]).device, ins[k..])
    ensures var fr := Chars(ins[k..]); HandsOver(r, ins, k, fr[..4], fr[4..4 + Size(fr)])
  {
    hide ReceiveAll, Receive, ChecksumOk, CommandExists, DeviceByteOk;
    assert ins[k..k + |ins[k..]|] == ins[k..];
  }

  lemma JudgedGood(mode32: bool, device: byte, fr: seq<byte>)
    requires fr != [] && Judge(mode32, device, fr).Handed?
    ensures GoodFrame(mode32, fr) && |fr| == Complete(mode32, fr) == FrameSize(mode32, Size(fr))
    ensures Judge(mode32, device, fr) == Handed(fr[..4], fr[4..4 + Size(fr)])
  {
  }

  lemma HandsOverLonger(r: Receiver, ins: seq<Input>, n: nat, k: nat, header: seq<byte>, payload: seq<byte>)
    requires n <= |ins| && HandsOver(r, ins[..n], k, header, payload)
    ensures HandsOver(r, ins, k, header, payload)
  {
    hide AcceptedFrame, ReceiveAll, FrameSize, Chars;
    var size := FrameSize(r.mode32, |payload|);
    PrefixParts(ins, n, k, k + size);
  }

  lemma PrefixParts<T>(s: seq<T>, n: nat, i: nat, j: nat)
    requires i <= j <= n <= |s|
    ensures s[..n][..i] == s[..i] && s[..n][i..j] == s[i..j]
  {
  }

  // A frame that has just been handed over had its device byte accepted on the way.
  lemma LastThree(start: Receiver, frame: seq<Input>)
    requires start.mode == Collecting([]) && |frame| >= 9 && GoodFrame(start.mode32, Chars(frame))
    requires ReceiveAll(start, frame[..|frame| - 1]).mode == Collecting(Chars(frame)[..|frame| - 1])
    ensures AcceptedFrame(start.mode32, start.device, frame)
  {
    if !start.mode32 {
      var n, fr := |frame|, Chars(frame);
      assert Chars(frame[..n - 3]) == fr[..n - 3];
      CollectFrame(start, frame[..n - 3]);
      ReceiveNext(start, frame, n - 3);
      ReceiveNext(start, frame, n - 2);
    }
  }

  // What the receiver has handed over is what some frame of the stream hands over.
  lemma {:induction false} HandedExactly(r: Receiver, ins: seq<Input>, header: seq<byte>, payload: seq<byte>)
    requires r.mode.Hunting?
    ensures ReceiveAll(r, ins).mode == Handed(header, payload) <==> exists k :: HandsOver(r, ins, k, header, payload)
  {
    var m := ReceiveAll(r, ins).mode;
    if m == Handed(header, payload) {
      var k := HandsOverSound(r, ins);
    }
    forall k | HandsOver(r, ins, k, header, payload) ensures m == Handed(header, payload) {
      HandsOverComplete(r, ins, k, header, payload);
    }
  }

  // The receiver that a link in WAITING refines.
  function ReceiverOf(l: Link): Receiver {
    Receiver(l.mode32, l.device, Hunting(l.b.current == 1))
  }

  // A header and payload wait to be processed.
  predicate Waits(l: Link, header: seq<byte>, payload: seq<byte>) {
    |payload| <= |l.buffer| && l.phase == ResponseWaiting && l.b.header == header && l.buffer[..|payload|] == payload
  }

  /** What the byte machine hands over for processing, exactly: the link reaches
      RESPONSE_WAITING with a header and payload if and only if somewhere after a recognised
      0x99 0x66 the stream holds a frame with that header and payload that names an existing
      command other than the empty one, whose payload and header bytes add up to the checksum
      modulo 65536, and which goes on with an acceptable device byte, any byte, and 0x4B. */
  lemma {:induction false} HandedOverExactly(l: Link, ins: seq<Input>, header: seq<byte>, payload: seq<byte>)
    requires LinkOk(l) && l.phase == Waiting && |header| == 4 && |payload| == header[3]
    ensures Waits(Run(l, ins), header, payload) <==> exists k :: HandsOver(ReceiverOf(l), ins, k, header, payload)
  {
    hide HandsOver, ReceiveAll;
    var r := ReceiverOf(l);
    RunRefines(l, r, ins);
    HandedExactly(r, ins, header, payload);
  }

  /** The same of a stream of words in 32-bit mode, where a frame may start anywhere in a
      word: padding follows the payload, four bytes of any kind the checksum, and then 0x4B. */
  lemma {:induction false} HandedOverInWords(l: Link, ws: seq<WordInput>, header: seq<byte>, payload: seq<byte>)
    requires LinkOk(l) && l.mode32 && l.phase == Waiting && |header| == 4 && |payload| == header[3]
    ensures Waits(RunStream(l, ws), header, payload)
            <==> exists k :: HandsOver(ReceiverOf(l), StreamBytes(ws), k, header, payload)
  {
    hide HandsOver, ReceiveAll, RunStream, StreamBytes;
    var r := ReceiverOf(l);
    WordsRefine(l, r, ws);
    HandedExactly(r, StreamBytes(ws), header, payload);
  }

  // A start is recognised only at 0x99 0x66 (0x99 may have come before the stream).
  lemma {:induction false} StartIsMarked(r: Receiver, ins: seq<Input>, k: nat)
    requires r.mode == Hunting(false) && CollectsSince(r, ins, k)
    ensures k >= 2 && ins[k - 2].c == 0x99 && ins[k - 1].c == 0x66
  {
    if k > 0 {
      ReceiveNext(r, ins, k - 1);
      LookBack(r, ins[..k - 1]);
    }
  }

  // A frame for the header and payload, with a device byte every adapter accepts.
  function FrameFor(header: seq<byte>, payload: seq<byte>, skipped: byte): seq<byte> {
    var sum := Sum(header + payload) % 0x1_0000;
    header + payload + [sum / 256, sum % 256, 0x81, skipped, 0x4B]
  }

  /** Frames that the comments in the source mean to drop are handed over: outside a session
      any command is, and the high byte of the length is never looked at. */
  lemma {:induction false} NothingDropped(l: Link, env: Env, header: seq<byte>, payload: seq<byte>, skipped: byte)
    requires LinkOk(l) && !l.mode32 && l.phase == Waiting && !env.session
    requires |header| == 4 && |payload| == header[3]
    requires CommandExists(header[0]) && header[0] != COMMAND_NULL
    ensures Waits(Run(l, Feed(env, [0x99, 0x66] + FrameFor(header, payload, skipped))), header, payload)
  {
    hide Run, GoodFrame, FrameFor;
    var fr := FrameFor(header, payload, skipped);
    var ins := Feed(env, [0x99, 0x66] + fr);
    var r := ReceiverOf(l);
    ReceiveNext(r, ins, 0);
    ReceiveNext(r, ins, 1);
    assert ins[..0] == [];
    FrameForIsGood(header, payload, skipped);
    assert Chars(ins[2..]) == fr;
    FrameToTheEnd(r, ins, 2);
    HandedOverExactly(l, ins, header, payload);
  }

  lemma FrameForIsGood(header: seq<byte>, payload: seq<byte>, skipped: byte)
    requires |header| == 4 && |payload| == header[3]
    requires CommandExists(header[0]) && header[0] != COMMAND_NULL
    ensures var fr := FrameFor(header, payload, skipped);
            GoodFrame(false, fr) && fr[..4] == header && fr[4..4 + Size(fr)] == payload && fr[|fr| - 3] == 0x81
  {
    assert Summed(FrameFor(header, payload, skipped)) == header + payload;
  }
}
