/**
 The relay client (relay.c): log in to a relay server, ask it for the adapter's own number,
 then call a number or wait for a call, one poll at a time over a byte stream that arrives
 in arbitrary pieces.

 The procedures are written twice: as the polls of the C code (`CallPoll`, `ProcCallPoll`, ...), and
 as `Outcome`, which reads the server's messages off the whole stream.  The class
 `RelayClient` is proved to do the former, and the former to agree with the latter however
 the stream is cut up.
 */
module Relay {
  import opened Bytes
  import opened Sockets

  const PACKET_SIZE := 0x20
  const MAX_NUMBER_SIZE := 16
  const TOKEN_SIZE := 16
  const VERSION: byte := 0
  const COMMAND_CALL: byte := 0
  const COMMAND_WAIT: byte := 1
  const COMMAND_GET_NUMBER: byte := 2

  // The protocol version and "MOBILE".
  const MAGIC: seq<byte> := [VERSION, 77, 79, 66, 73, 76, 69]

  datatype State =
    | Disconnected | Connected | Linked
    | RecvConnect | RecvHandshake | RecvCall | RecvWait | RecvGetNumber

  // struct mobile_adapter_relay, and what has been received into the packet buffer.
  datatype Client = Client(state: State, processing: byte, got: seq<byte>)

  // What the procedures leave behind: the stored token, the numbers reported to the user,
  // the requests sent to the server, and how often the number is still to be asked for
  // when there is time (global.number_fetch_retries).
  datatype Notes = Notes(token: Option<seq<byte>>, own: Option<seq<byte>>, peer: Option<seq<byte>>,
                         requests: seq<seq<byte>>, retries: nat)

  // The client, its notes, what the server has yet to say, and what the host has answered.
  datatype World = World(c: Client, notes: Notes, rest: seq<byte>, said: seq<Said>)

  // The callbacks' answers during one poll: connect, send, and the two receives.
  datatype Answers = Answers(connect: int, send: int, recv: int, more: int)

  datatype Polled = Polled(w: World, rc: int)

  // ---------- Requests ----------

  function HandshakeRequest(token: Option<seq<byte>>): seq<byte> {
    match token
    case None => MAGIC + [0]
    case Some(t) => MAGIC + [1] + t
  }

  const NUMBER_REQUEST: seq<byte> := [VERSION, COMMAND_GET_NUMBER]
  const WAIT_REQUEST: seq<byte> := [VERSION, COMMAND_WAIT]

  function CallRequest(number: seq<byte>): seq<byte>
    requires |number| <= MAX_NUMBER_SIZE
  {
    [VERSION, COMMAND_CALL, |number|] + number
  }

  function Asked(notes: Notes, request: seq<byte>): Notes {
    notes.(requests := notes.requests + [request])
  }

  // The user's own number is known, and need not be asked for again.
  function Learnt(notes: Notes, number: seq<byte>): Notes {
    notes.(own := Some(number), retries := 0)
  }

  // ---------- One poll ----------

  function Hear(w: World, s: Said): World {
    w.(said := w.said + [s])
  }

  // relay_recv: ask for no more than is missing.
  function Receive(w: World, size: nat, offer: int): (p: Polled)
    ensures p.rc > 0 ==> p.rc == size <= |p.w.c.got|
    ensures p.w.c == w.c.(got := p.w.c.got) && p.w.notes == w.notes
    ensures p.w.c.got + p.w.rest == w.c.got + w.rest && w.c.got <= p.w.c.got
  {
    if size > PACKET_SIZE then Polled(w, -1)
    else if |w.c.got| >= size then Polled(w, size)
    else
      var n := Given(w.rest, size - |w.c.got|, offer);
      var heard := Hear(w, RecvSaid(offer));
      if n < 0 then Polled(heard, -1)
      else
        TakenIsKept(w.c.got, w.rest, n);
        var next := heard.(c := w.c.(got := w.c.got + w.rest[..n]), rest := w.rest[n..]);
        Polled(next, if |next.c.got| < size then 0 else size)
  }

  lemma ReceiveTakes(w: World, size: nat, offer: int)
    requires |w.c.got| < size <= PACKET_SIZE
    ensures var n := Given(w.rest, size - |w.c.got|, offer);
            Receive(w, size, offer) ==
            if n < 0 then Polled(Hear(w, RecvSaid(offer)), -1)
            else Polled(Hear(w, RecvSaid(offer)).(c := w.c.(got := w.c.got + w.rest[..n]), rest := w.rest[n..]),
                        if |w.c.got| + n < size then 0 else size)
  {
  }

  lemma TakenIsKept(a: seq<byte>, b: seq<byte>, n: nat)
    requires n <= |b|
    ensures a + b[..n] + b[n..] == a + b && a <= a + b[..n]
  {
    assert b == b[..n] + b[n..];
  }

  // relay_handshake_recv
  function HandshakeRecv(w: World, a: Answers): Polled {
    var p := Receive(w, 8, a.recv);
    var got := p.w.c.got;
    if p.rc <= 0 then p
    else if got[..7] != MAGIC then Polled(p.w, -1)
    else if got[7] == 0 then Polled(p.w, 1)
    else if got[7] == 1 then
      var q := Receive(p.w, 8 + TOKEN_SIZE, a.more);
      if q.rc <= 0 then q
      else Polled(q.w.(notes := q.w.notes.(token := Some(q.w.c.got[8..24]))), 2)
    else Polled(p.w, -1)
  }

  // relay_get_number_recv; the number is left in `number`.
  function GetNumberRecv(w: World, a: Answers): (r: (Polled, seq<byte>))
    ensures r.0.rc > 0 ==> 1 <= |r.1| <= MAX_NUMBER_SIZE
  {
    var p := Receive(w, 3, a.recv);
    var got := p.w.c.got;
    if p.rc <= 0 then (p, [])
    else if got[0] != VERSION || got[1] != COMMAND_GET_NUMBER then (Polled(p.w, -1), [])
    else if got[2] == 0 || got[2] > MAX_NUMBER_SIZE then (Polled(p.w, -1), [])
    else
      var q := Receive(p.w, 3 + Length(got[2]), a.more);
      if q.rc <= 0 then (q, [])
      else (Polled(q.w, 1), q.w.c.got[3..3 + Length(got[2])])
  }

  // relay_call_recv
  function CallRecv(w: World, a: Answers): Polled {
    var p := Receive(w, 3, a.recv);
    var got := p.w.c.got;
    if p.rc <= 0 then p
    else if got[0] != VERSION || got[1] != COMMAND_CALL || got[2] >= 4 then Polled(p.w, -1)
    else Polled(p.w, Length(got[2]) + 1)
  }

  // relay_wait_recv
  function WaitRecv(w: World, a: Answers): (r: (Polled, seq<byte>))
    ensures r.0.rc > 0 ==> 1 <= |r.1| <= MAX_NUMBER_SIZE
  {
    var p := Receive(w, 4, a.recv);
    var got := p.w.c.got;
    if p.rc <= 0 then (p, [])
    else if got[0] != VERSION || got[1] != COMMAND_WAIT || got[2] >= 2 then (Polled(p.w, -1), [])
    else if got[3] == 0 || got[3] > MAX_NUMBER_SIZE then (Polled(p.w, -1), [])
    else
      var q := Receive(p.w, 4 + Length(got[3]), a.more);
      if q.rc <= 0 then (q, [])
      else (Polled(q.w, Length(got[2]) + 1), q.w.c.got[4..4 + Length(got[3])])
  }

  function To(w: World, state: State): World {
    w.(c := w.c.(state := state))
  }

  // The received bytes after a request is written over the same buffer.
  function Overwritten(got: seq<byte>, request: seq<byte>): seq<byte> {
    if |got| <= |request| then request[..|got|] else request + got[|request|..]
  }

  // Send a request and wait for its reply, unless the send gives 0.
  function Request(w: World, request: seq<byte>, state: State, a: Answers): Polled {
    var asked := Hear(w, SendSaid(a.send)).(notes := Asked(w.notes, request));
    if a.send == 0 then Polled(asked.(c := asked.c.(got := Overwritten(asked.c.got, request))), -1)
    else Polled(asked.(c := asked.c.(state := state, got := [])), 0)
  }

  // mobile_relay_connect
  function ConnectPoll(w: World, a: Answers): Polled {
    match w.c.state
    case Disconnected | RecvConnect =>
      var heard := Hear(w, ConnectSaid(a.connect));
      if a.connect == 0 then Polled(To(heard, RecvConnect), 0)
      else if a.connect < 0 then Polled(To(heard, Disconnected), -1)
      else Request(To(heard, RecvConnect), HandshakeRequest(w.notes.token), RecvHandshake, a)
    case RecvHandshake =>
      var p := HandshakeRecv(w, a);
      if p.rc == 0 then p
      else if p.rc < 0 then Polled(To(p.w, Disconnected), -1)
      else Polled(To(p.w, Connected), 1)
    case _ => Polled(w, 1)
  }

  // mobile_relay_get_number
  function NumberPoll(w: World, a: Answers): (r: (Polled, seq<byte>))
    ensures r.0.rc > 0 ==> 1 <= |r.1| <= MAX_NUMBER_SIZE
  {
    match w.c.state
    case Connected => (Request(w, NUMBER_REQUEST, RecvGetNumber, a), [])
    case RecvGetNumber =>
      var (p, number) := GetNumberRecv(w, a);
      if p.rc == 0 then (p, [])
      else if p.rc < 0 then (Polled(To(p.w, Connected), -1), [])
      else (Polled(To(p.w, Connected), 1), number)
    case _ => (Polled(w, -1), [])
  }

  // mobile_relay_call
  function CallPoll(w: World, number: seq<byte>, a: Answers): Polled {
    match w.c.state
    case Connected =>
      if |number| > MAX_NUMBER_SIZE then Polled(w, -1)
      else Request(w, CallRequest(number), RecvCall, a)
    case RecvCall =>
      var p := CallRecv(w, a);
      if p.rc == 0 then p
      else if p.rc < 0 then Polled(To(p.w, Connected), -1)
      else Polled(To(p.w, if p.rc == 1 then Linked else Connected), p.rc)
    case Linked => Polled(w, 1)
    case _ => Polled(w, -1)
  }

  // mobile_relay_wait; once linked it leaves the number alone.
  function WaitPoll(w: World, a: Answers): (r: (Polled, Option<seq<byte>>))
    ensures r.0.rc > 0 && w.c.state != Linked ==> r.1.Some? && 1 <= |r.1.value| <= MAX_NUMBER_SIZE
  {
    match w.c.state
    case Connected => (Request(w, WAIT_REQUEST, RecvWait, a), None)
    case RecvWait =>
      var (p, number) := WaitRecv(w, a);
      if p.rc == 0 then (p, None)
      else if p.rc < 0 then (Polled(To(p.w, Connected), -1), None)
      else (Polled(To(p.w, if p.rc == 1 then Linked else Connected), p.rc), Some(number))
    case Linked => (Polled(w, 1), None)
    case _ => (Polled(w, -1), None)
  }

  function At(w: World, processing: byte): World {
    w.(c := w.c.(processing := processing))
  }

  // PROCESS_CALL_BEGIN and PROCESS_CALL_GET_NUMBER, which falls through from it; the same
  // two stages begin both procedures.  rc is 1 when the last stage is to go on.
  function BeginPoll(w: World, a: Answers): Polled {
    if w.c.processing == 0 then
      var p := ConnectPoll(w, a);
      if p.rc <= 0 then p else OwnPoll(At(p.w, 1), a)
    else if w.c.processing == 1 then OwnPoll(w, a)
    else Polled(w, if w.c.processing == 2 then 1 else -1)
  }

  function OwnPoll(w: World, a: Answers): Polled {
    var (p, number) := NumberPoll(w, a);
    if p.rc <= 0 then p
    else Polled(At(p.w.(notes := Learnt(p.w.notes, number)), 2), 1)
  }

  // mobile_relay_proc_call
  function ProcCallPoll(w: World, number: seq<byte>, a: Answers): Polled {
    var p := BeginPoll(w, a);
    if p.rc <= 0 then p
    else
      var q := CallPoll(p.w, number, a);
      if q.rc == 1 then Polled(q.w.(notes := q.w.notes.(peer := Some(number))), 1) else q
  }

  // mobile_relay_proc_wait
  function ProcWaitPoll(w: World, a: Answers): Polled {
    var p := BeginPoll(w, a);
    if p.rc <= 0 then p
    else
      var (q, number) := WaitPoll(p.w, a);
      if q.rc == 1 then Polled(q.w.(notes := q.w.notes.(peer := number)), 1) else q
  }

  // mobile_relay_proc_init_number, which keeps no stage
  function LearnPoll(w: World, a: Answers): Polled {
    var p := ConnectPoll(w, a);
    if p.rc <= 0 then p
    else
      var (q, number) := NumberPoll(p.w, a);
      if q.rc <= 0 then q else Polled(q.w.(notes := Learnt(q.w.notes, number)), 1)
  }

  // ---------- The protocol, read off the whole stream ----------

  // What a stream begins with: too little to tell, something no server sends, or a message
  // with its result and text, and its size.
  datatype Message = More | Bad(size: nat) | Good(rc: int, text: seq<byte>, size: nat)

  function HandshakeReply(s: seq<byte>): (m: Message)
    ensures m.Bad? || m.Good? ==> m.size <= |s|
  {
    if |s| < 8 then More
    else if s[..7] != MAGIC || s[7] > 1 then Bad(8)
    else if s[7] == 0 then Good(1, [], 8)
    else if |s| < 24 then More
    else Good(2, s[8..24], 24)
  }

  function NumberReply(s: seq<byte>): (m: Message)
    ensures m.Bad? || m.Good? ==> m.size <= |s|
  {
    if |s| < 3 then More
    else if s[..2] != NUMBER_REQUEST || s[2] == 0 || s[2] > MAX_NUMBER_SIZE then Bad(3)
    else if |s| < 3 + Length(s[2]) then More
    else Good(1, s[3..3 + Length(s[2])], 3 + Length(s[2]))
  }

  function CallReply(s: seq<byte>): (m: Message)
    ensures m.Bad? || m.Good? ==> m.size <= |s|
  {
    if |s| < 3 then More
    else if s[..2] != [VERSION, COMMAND_CALL] || s[2] > 3 then Bad(3)
    else Good(Length(s[2]) + 1, [], 3)
  }

  function WaitReply(s: seq<byte>): (m: Message)
    ensures m.Bad? || m.Good? ==> m.size <= |s|
  {
    if |s| < 4 then More
    else if s[..2] != WAIT_REQUEST || s[2] > 1 || s[3] == 0 || s[3] > MAX_NUMBER_SIZE then Bad(4)
    else if |s| < 4 + Length(s[3]) then More
    else Good(Length(s[2]) + 1, s[4..4 + Length(s[3])], 4 + Length(s[3]))
  }

  datatype Procedure = Calling(number: seq<byte>) | Awaiting | Learning

  // How a procedure ends: not yet, or with a result, its notes, and the stream left unread.
  datatype Result = Pending | Final(rc: int, notes: Notes, rest: seq<byte>)

  function LastReply(job: Procedure, s: seq<byte>): (m: Message)
    ensures m.Bad? || m.Good? ==> m.size <= |s|
  {
    if job.Calling? then CallReply(s) else WaitReply(s)
  }

  function Conclude(job: Procedure, notes: Notes, s: seq<byte>): Result {
    match LastReply(job, s)
    case More => Pending
    case Bad(size) => Final(-1, notes, s[size..])
    case Good(rc, text, size) =>
      Final(rc, if rc == 1 then notes.(peer := Some(if job.Calling? then job.number else text)) else notes, s[size..])
  }

  function AskLast(job: Procedure, notes: Notes, s: seq<byte>): Result {
    match job
    case Learning => Final(1, notes, s)
    case Awaiting => Conclude(job, Asked(notes, WAIT_REQUEST), s)
    case Calling(number) =>
      if |number| > MAX_NUMBER_SIZE then Final(-1, notes, s)
      else Conclude(job, Asked(notes, CallRequest(number)), s)
  }

  function Identify(job: Procedure, notes: Notes, s: seq<byte>): Result {
    match NumberReply(s)
    case More => Pending
    case Bad(size) => Final(-1, notes, s[size..])
    case Good(_, text, size) => AskLast(job, Learnt(notes, text), s[size..])
  }

  function Login(job: Procedure, notes: Notes, s: seq<byte>): Result {
    match HandshakeReply(s)
    case More => Pending
    case Bad(size) => Final(-1, notes, s[size..])
    case Good(rc, text, size) =>
      Identify(job, Asked(if rc == 2 then notes.(token := Some(text)) else notes, NUMBER_REQUEST), s[size..])
  }

  /** What comes of a procedure whose server says `s`. */
  function Outcome(job: Procedure, notes: Notes, s: seq<byte>): Result {
    Login(job, Asked(notes, HandshakeRequest(notes.token)), s)
  }

  // ---------- Each receive reads its message ----------

  predicate Faulty(a: Answers) {
    a.connect < 0 || a.send == 0 || a.recv < 0 || a.more < 0
  }

  // What a receive makes of a message that had not come in whole: `m` is what the bytes in
  // hand amount to afterwards, and a message that is whole is all there is in hand.
  predicate Reads(w: World, p: Polled, m: Message, faulty: bool) {
    && p.w.c.got + p.w.rest == w.c.got + w.rest
    && p.w.c == w.c.(got := p.w.c.got)
    && (p.rc == 0 ==> m == More)
    && (p.rc > 0 ==> m.Good? && m.rc == p.rc && m.size == |p.w.c.got|)
    && (p.rc < 0 ==> p.rc == -1 && (faulty || m == Bad(|p.w.c.got|)))
  }

  lemma ReceiveEnds(w: World, size: nat, offer: int)
    requires size <= PACKET_SIZE
    ensures var p := Receive(w, size, offer);
            && (|w.c.got| >= size ==> p == Polled(w, size))
            && (|w.c.got| < size ==>
                 (if p.rc == 0 then |p.w.c.got| < size
                  else if p.rc > 0 then |p.w.c.got| == size
                  else p == Polled(Hear(w, RecvSaid(offer)), -1) && offer < 0))
  {
  }

  lemma {:induction false} HandshakeReads(w: World, a: Answers)
    requires HandshakeReply(w.c.got) == More
    ensures var p := HandshakeRecv(w, a);
            var m := HandshakeReply(p.w.c.got);
            Reads(w, p, m, Faulty(a))
            && p.w.notes == if p.rc == 2 then w.notes.(token := Some(m.text)) else w.notes
  {
    hide Receive;
    var p := Receive(w, 8, a.recv).w;
    ReceiveEnds(w, 8, a.recv);
    ReceiveEnds(p, 24, a.more);
  }

  lemma {:induction false} NumberReads(w: World, a: Answers)
    requires NumberReply(w.c.got) == More
    ensures var (p, number) := GetNumberRecv(w, a);
            var m := NumberReply(p.w.c.got);
            Reads(w, p, m, Faulty(a)) && p.w.notes == w.notes && (p.rc > 0 ==> p.rc == 1 && number == m.text)
  {
    hide Receive;
    var p := Receive(w, 3, a.recv).w;
    ReceiveEnds(w, 3, a.recv);
    if |p.c.got| >= 3 && p.c.got[2] <= MAX_NUMBER_SIZE {
      ReceiveEnds(p, 3 + Length(p.c.got[2]), a.more);
    }
  }

  lemma {:induction false} CallReads(w: World, a: Answers)
    requires CallReply(w.c.got) == More
    ensures var p := CallRecv(w, a);
            Reads(w, p, CallReply(p.w.c.got), Faulty(a)) && p.w.notes == w.notes
  {
    hide Receive;
    ReceiveEnds(w, 3, a.recv);
  }

  lemma {:induction false} WaitReads(w: World, a: Answers)
    requires WaitReply(w.c.got) == More
    ensures var (p, number) := WaitRecv(w, a);
            var m := WaitReply(p.w.c.got);
            Reads(w, p, m, Faulty(a)) && p.w.notes == w.notes && (p.rc > 0 ==> number == m.text)
  {
    hide Receive;
    var p := Receive(w, 4, a.recv).w;
    ReceiveEnds(w, 4, a.recv);
    if |p.c.got| >= 4 && p.c.got[3] <= MAX_NUMBER_SIZE {
      ReceiveEnds(p, 4 + Length(p.c.got[3]), a.more);
    }
  }

  lemma Prefix(got: seq<byte>, rest: seq<byte>, n: nat)
    requires n <= |got|
    ensures (got + rest)[..n] == got[..n]
    ensures forall i | 0 <= i < n :: (got + rest)[i] == got[i]
    ensures n == |got| ==> (got + rest)[n..] == rest
  {
  }

  lemma SliceOf(got: seq<byte>, rest: seq<byte>, i: nat, j: nat)
    requires i <= j <= |got|
    ensures (got + rest)[i..j] == got[i..j]
  {
  }

  // What comes after it does not change a message that can be told already.
  lemma Told(got: seq<byte>, rest: seq<byte>)
    ensures HandshakeReply(got) != More ==> HandshakeReply(got + rest) == HandshakeReply(got)
    ensures CallReply(got) != More ==> CallReply(got + rest) == CallReply(got)
    ensures (got + rest)[|got|..] == rest
  {
    Prefix(got, rest, |got|);
    if |got| >= 3 {
      SliceOf(got, rest, 0, 2);
    }
    if |got| >= 8 {
      SliceOf(got, rest, 0, 7);
    }
    if |got| >= 24 {
      SliceOf(got, rest, 8, 24);
    }
  }

  lemma ToldNumber(got: seq<byte>, rest: seq<byte>)
    requires NumberReply(got) != More
    ensures NumberReply(got + rest) == NumberReply(got)
  {
    Prefix(got, rest, |got|);
    SliceOf(got, rest, 0, 2);
    if |got| >= 3 + Length(got[2]) {
      SliceOf(got, rest, 3, 3 + Length(got[2]));
    }
  }

  lemma ToldWait(got: seq<byte>, rest: seq<byte>)
    requires WaitReply(got) != More
    ensures WaitReply(got + rest) == WaitReply(got)
  {
    Prefix(got, rest, |got|);
    SliceOf(got, rest, 0, 2);
    if |got| >= 4 + Length(got[3]) {
      SliceOf(got, rest, 4, 4 + Length(got[3]));
    }
  }

  // ---------- A procedure reads its messages, however they come ----------

  function Proc(job: Procedure, w: World, a: Answers): Polled {
    match job
    case Calling(number) => ProcCallPoll(w, number, a)
    case Awaiting => ProcWaitPoll(w, a)
    case Learning => LearnPoll(w, a)
  }

  // The stage at which a procedure asks for the number.
  function NumberStage(job: Procedure): byte {
    if job.Learning? then 0 else 1
  }

  // Where a procedure stands between two polls: the message it is reading is not all there.
  predicate Midway(job: Procedure, c: Client) {
    match c.state
    case Disconnected | RecvConnect => c.processing == 0
    case RecvHandshake => c.processing == 0 && HandshakeReply(c.got) == More
    case RecvGetNumber => c.processing == NumberStage(job) && NumberReply(c.got) == More
    case RecvCall => c.processing == 2 && job.Calling? && |job.number| <= MAX_NUMBER_SIZE && CallReply(c.got) == More
    case RecvWait => c.processing == 2 && job.Awaiting? && WaitReply(c.got) == More
    case _ => false
  }

  // What is still to come of the procedure.
  function Ahead(job: Procedure, w: World): Result {
    match w.c.state
    case RecvHandshake => Login(job, w.notes, w.c.got + w.rest)
    case RecvGetNumber => Identify(job, w.notes, w.c.got + w.rest)
    case RecvCall | RecvWait => Conclude(job, w.notes, w.c.got + w.rest)
    case _ => Outcome(job, w.notes, w.rest)
  }

  // A poll has either not changed what is to come, or ended as foreseen, or met a fault.
  predicate Agrees(job: Procedure, w: World, p: Polled, a: Answers) {
    if p.rc == 0 then Midway(job, p.w.c) && Ahead(job, p.w) == Ahead(job, w)
    else Ahead(job, w) == Final(p.rc, p.w.notes, p.w.rest) || (p.rc == -1 && Faulty(a))
  }

  lemma {:induction false} ConnectAgrees(job: Procedure, w: World, a: Answers)
    requires w.c.state in {Disconnected, RecvConnect} && Midway(job, w.c)
    ensures Agrees(job, w, Proc(job, w, a), a)
  {
    assert [] + w.rest == w.rest;
  }

  // A finished handshake goes on to the request for the number in the same poll.
  lemma HandshakePoll(job: Procedure, w: World, a: Answers)
    requires w.c.state == RecvHandshake && w.c.processing == 0 && HandshakeReply(w.c.got) == More
    ensures var p := HandshakeRecv(w, a);
            Proc(job, w, a) == if p.rc == 0 then p
                               else if p.rc < 0 then Polled(To(p.w, Disconnected), -1)
                               else Request(At(To(p.w, Connected), NumberStage(job)), NUMBER_REQUEST,
                                   RecvGetNumber, a)
  {
    hide HandshakeRecv, HandshakeReply, Request, CallPoll, WaitPoll;
    HandshakeReads(w, a);
  }

  lemma {:induction false} HandshakeAgrees(job: Procedure, w: World, a: Answers)
    requires w.c.state == RecvHandshake && Midway(job, w.c)
    ensures Agrees(job, w, Proc(job, w, a), a)
  {
    hide HandshakeRecv, HandshakeReply, Identify, Proc;
    HandshakePoll(job, w, a);
    HandshakeReads(w, a);
    var p := HandshakeRecv(w, a);
    Told(p.w.c.got, p.w.rest);
    assert [] + p.w.rest == p.w.rest;
  }

  lemma {:induction false} NumberAgrees(job: Procedure, w: World, a: Answers)
    requires w.c.state == RecvGetNumber && Midway(job, w.c)
    ensures Agrees(job, w, Proc(job, w, a), a)
  {
    hide GetNumberRecv, NumberReply, AskLast, Proc, Faulty;
    NumberReads(w, a);
    NumberPolled(job, w, a);
    var (p, number) := GetNumberRecv(w, a);
    Told(p.w.c.got, p.w.rest);
    if NumberReply(p.w.c.got) != More {
      ToldNumber(p.w.c.got, p.w.rest);
    }
    if p.rc > 0 {
      LastAsked(job, At(To(p.w, Connected).(notes := Learnt(p.w.notes, number)), 2), a);
    }
  }

  // A number that has been read goes on to the last request in the same poll.
  lemma NumberPolled(job: Procedure, w: World, a: Answers)
    requires w.c.state == RecvGetNumber && w.c.processing == NumberStage(job)
    ensures var (p, number) := GetNumberRecv(w, a);
            var told := To(p.w, Connected).(notes := Learnt(p.w.notes, number));
            Proc(job, w, a) == if p.rc == 0 then p else if p.rc < 0 then Polled(To(p.w, Connected), -1)
                               else if job.Learning? then Polled(told, 1) else Proc(job, At(told, 2), a)
  {
    hide GetNumberRecv, CallPoll, WaitPoll;
  }

  lemma LastAsked(job: Procedure, w: World, a: Answers)
    requires w.c.state == Connected && w.c.processing == 2
    ensures var p := Proc(job, w, a);
            if job.Learning? then AskLast(job, w.notes, w.rest) == Final(1, w.notes, w.rest)
            else if p.rc == 0 then Midway(job, p.w.c) && Ahead(job, p.w) == AskLast(job, w.notes, w.rest)
            else AskLast(job, w.notes, w.rest) == Final(p.rc, p.w.notes, p.w.rest) || (p.rc == -1 && Faulty(a))
  {
    hide Conclude;
    assert [] + w.rest == w.rest;
  }

  lemma {:induction false} LastAgrees(job: Procedure, w: World, a: Answers)
    requires w.c.state in {RecvCall, RecvWait} && Midway(job, w.c)
    ensures Agrees(job, w, Proc(job, w, a), a)
  {
    hide CallRecv, WaitRecv, CallReply, WaitReply;
    match job
    case Calling(_) =>
      CallReads(w, a);
      var p := CallRecv(w, a);
      Told(p.w.c.got, p.w.rest);
    case Awaiting =>
      WaitReads(w, a);
      var p := WaitRecv(w, a).0;
      Told(p.w.c.got, p.w.rest);
      if WaitReply(p.w.c.got) != More {
        ToldWait(p.w.c.got, p.w.rest);
      }
  }

  lemma {:induction false} PollAgrees(job: Procedure, w: World, a: Answers)
    requires Midway(job, w.c)
    ensures Agrees(job, w, Proc(job, w, a), a)
  {
    hide Agrees, Proc;
    match w.c.state
    case Disconnected | RecvConnect => ConnectAgrees(job, w, a);
    case RecvHandshake => HandshakeAgrees(job, w, a);
    case RecvGetNumber => NumberAgrees(job, w, a);
    case RecvCall | RecvWait => LastAgrees(job, w, a);
    case _ =>
  }

  // ---------- Whole procedures ----------

  // Polls until one of them does not give 0, or they run out.
  function Polls(job: Procedure, w: World, polls: seq<Answers>): Polled
    requires Midway(job, w.c)
    decreases |polls|
  {
    if polls == [] then Polled(w, 0)
    else
      var p := Proc(job, w, polls[0]);
      PollAgrees(job, w, polls[0]);
      if p.rc != 0 then p else Polls(job, p.w, polls[1..])
  }

  function SizeOf(m: Message): nat {
    if m.More? then 0 else m.size
  }

  // A message of which only `got` is there is longer than that.
  lemma Longer(got: seq<byte>, rest: seq<byte>)
    ensures HandshakeReply(got) == More && HandshakeReply(got + rest) != More ==>
              |got| < SizeOf(HandshakeReply(got + rest))
    ensures CallReply(got) == More && CallReply(got + rest) != More ==> |got| < SizeOf(CallReply(got + rest))
  {
    Prefix(got, rest, |got|);
    if |got| >= 8 {
      SliceOf(got, rest, 0, 7);
    }
    if |got| >= 3 {
      SliceOf(got, rest, 0, 2);
    }
  }

  lemma LongerNumbers(got: seq<byte>, rest: seq<byte>)
    ensures NumberReply(got) == More && NumberReply(got + rest) != More ==> |got| < SizeOf(NumberReply(got + rest))
    ensures WaitReply(got) == More && WaitReply(got + rest) != More ==> |got| < SizeOf(WaitReply(got + rest))
  {
    Prefix(got, rest, |got|);
    if |got| >= 3 {
      SliceOf(got, rest, 0, 2);
    }
  }

  lemma {:induction false} EndsAfter(job: Procedure, notes: Notes, s: seq<byte>)
    ensures var o := Conclude(job, notes, s);
            o.Final? ==> LastReply(job, s) != More && |o.rest| + SizeOf(LastReply(job, s)) == |s|
    ensures var o := Identify(job, notes, s);
            o.Final? ==> NumberReply(s) != More && |o.rest| + SizeOf(NumberReply(s)) <= |s|
    ensures var o := Login(job, notes, s);
            o.Final? ==> HandshakeReply(s) != More && |o.rest| + SizeOf(HandshakeReply(s)) <= |s|
  {
    hide HandshakeReply, NumberReply, LastReply;
  }

  // A message that is being read still lacks a byte when it ends later.
  lemma {:induction false} StillReading(job: Procedure, w: World)
    requires Midway(job, w.c) && Ahead(job, w).Final?
    ensures |Ahead(job, w).rest| < |w.rest|
  {
    hide HandshakeReply, NumberReply, CallReply, WaitReply, Login, Identify, Conclude;
    match w.c.state
    case Disconnected | RecvConnect =>
      EndsAfter(job, Asked(w.notes, HandshakeRequest(w.notes.token)), w.rest);
      AtLeastOne(w.rest);
    case _ =>
      EndsAfter(job, w.notes, w.c.got + w.rest);
      Longer(w.c.got, w.rest);
      LongerNumbers(w.c.got, w.rest);
  }

  lemma AtLeastOne(s: seq<byte>)
    ensures HandshakeReply(s) != More ==> SizeOf(HandshakeReply(s)) > 0
  {
  }

  /** Chunking independence.  However the server's stream is cut up, and however often
      nothing comes, a procedure without faults ends with the result, the notes and the rest
      of the stream that the stream itself determines; and it has ended exactly when it has
      consumed that much of it. */
  lemma {:induction false} ChunkingIndependent(job: Procedure, w: World, polls: seq<Answers>)
    requires Midway(job, w.c) && forall i | 0 <= i < |polls| :: !Faulty(polls[i])
    ensures var p, o := Polls(job, w, polls), Ahead(job, w);
            && (p.rc != 0 ==> o == Final(p.rc, p.w.notes, p.w.rest))
            && (p.rc == 0 && o.Final? ==> |o.rest| < |p.w.rest|)
    decreases |polls|
  {
    hide Proc, Ahead;
    if polls == [] {
      if Ahead(job, w).Final? {
        StillReading(job, w);
      }
    } else {
      var p := Proc(job, w, polls[0]);
      PollAgrees(job, w, polls[0]);
      if p.rc == 0 {
        ChunkingIndependent(job, p.w, polls[1..]);
      }
    }
  }

  /** A fault can only make a procedure fail: a result of 0 or more is the stream's own. */
  lemma {:induction false} FaultsOnlyFail(job: Procedure, w: World, polls: seq<Answers>)
    requires Midway(job, w.c)
    ensures var p := Polls(job, w, polls);
            if p.rc == 0 then Midway(job, p.w.c) && Ahead(job, p.w) == Ahead(job, w)
            else p.rc == -1 || Ahead(job, w) == Final(p.rc, p.w.notes, p.w.rest)
    decreases |polls|
  {
    hide Proc, Ahead;
    if polls != [] {
      var p := Proc(job, w, polls[0]);
      PollAgrees(job, w, polls[0]);
      if p.rc == 0 {
        FaultsOnlyFail(job, p.w, polls[1..]);
      }
    }
  }

  // ---------- What servers say ----------

  // A handshake is answered in the form of its request.
  function NumberMessage(number: seq<byte>): seq<byte>
    requires 1 <= |number| <= MAX_NUMBER_SIZE
  {
    [VERSION, COMMAND_GET_NUMBER, |number|] + number
  }

  function CallMessage(result: nat): seq<byte>
    requires 1 <= result <= 4
  {
    [VERSION, COMMAND_CALL, result - 1]
  }

  function WaitMessage(result: nat, number: seq<byte>): seq<byte>
    requires 1 <= result <= 2 && 1 <= |number| <= MAX_NUMBER_SIZE
  {
    [VERSION, COMMAND_WAIT, result - 1, |number|] + number
  }

  lemma HandshakeMessageReads(token: Option<seq<byte>>, after: seq<byte>)
    requires token.Some? ==> |token.value| == TOKEN_SIZE
    ensures var s := HandshakeRequest(token) + after;
            && HandshakeReply(s) == (if token.None? then Good(1, [], 8) else Good(2, token.value, 24))
            && s[SizeOf(HandshakeReply(s))..] == after
  {
    var m := HandshakeRequest(token);
    Prefix(m, after, |m|);
    SliceOf(m, after, 0, 7);
    assert m[..7] == MAGIC;
    if token.Some? {
      SliceOf(m, after, 8, 24);
      assert m[8..24] == token.value;
    }
  }

  lemma NumberMessageReads(number: seq<byte>, after: seq<byte>)
    requires 1 <= |number| <= MAX_NUMBER_SIZE
    ensures var s := NumberMessage(number) + after;
            && NumberReply(s) == Good(1, number, 3 + |number|)
            && s[SizeOf(NumberReply(s))..] == after
  {
    var m := NumberMessage(number);
    Prefix(m, after, |m|);
    SliceOf(m, after, 0, 2);
    SliceOf(m, after, 3, 3 + |number|);
    assert m[..2] == NUMBER_REQUEST && m[3..3 + |number|] == number;
  }

  lemma LastMessageReads(result: nat, number: seq<byte>, after: seq<byte>)
    requires 1 <= result <= 4 && 1 <= |number| <= MAX_NUMBER_SIZE
    ensures CallReply(CallMessage(result) + after) == Good(result, [], 3)
    ensures (CallMessage(result) + after)[3..] == after
    ensures result <= 2 ==> WaitReply(WaitMessage(result, number) + after) == Good(result, number, 4 + |number|)
                            && (WaitMessage(result, number) + after)[4 + |number|..] == after
  {
    var c := CallMessage(result);
    Prefix(c, after, 3);
    if result <= 2 {
      var m := WaitMessage(result, number);
      Prefix(m, after, |m|);
      SliceOf(m, after, 0, 2);
      SliceOf(m, after, 4, 4 + |number|);
      assert m[..2] == WAIT_REQUEST && m[4..4 + |number|] == number;
    }
  }

  // What the server says in answer to a whole procedure.
  function Conversation(job: Procedure, token: Option<seq<byte>>, own: seq<byte>, result: nat,
      caller: seq<byte>): seq<byte>
    requires 1 <= |own| <= MAX_NUMBER_SIZE && 1 <= |caller| <= MAX_NUMBER_SIZE
    requires 1 <= result <= if job.Calling? then 4 else if job.Awaiting? then 2 else 1
  {
    HandshakeRequest(token) + (NumberMessage(own) + LastMessage(job, result, caller))
  }

  function LastMessage(job: Procedure, result: nat, caller: seq<byte>): seq<byte>
    requires 1 <= |caller| <= MAX_NUMBER_SIZE
    requires 1 <= result <= if job.Calling? then 4 else if job.Awaiting? then 2 else 1
  {
    match job
    case Calling(_) => CallMessage(result)
    case Awaiting => WaitMessage(result, caller)
    case Learning => []
  }

  // The number of the other party, if a procedure leads to one.
  function Party(job: Procedure, result: nat, caller: seq<byte>, before: Option<seq<byte>>): Option<seq<byte>> {
    if result != 1 || job.Learning? then before else Some(if job.Calling? then job.number else caller)
  }

  // The requests after the one for the number.
  function LastRequests(job: Procedure): seq<seq<byte>>
    requires job.Calling? ==> |job.number| <= MAX_NUMBER_SIZE
  {
    match job
    case Calling(number) => [CallRequest(number)]
    case Awaiting => [WAIT_REQUEST]
    case Learning => []
  }

  // The notes after a server that answers as the protocol says.
  function NotesAfter(job: Procedure, notes: Notes, token: Option<seq<byte>>, own: seq<byte>, result: nat,
      caller: seq<byte>): Notes
    requires job.Calling? ==> |job.number| <= MAX_NUMBER_SIZE
  {
    Notes(if token.Some? then token else notes.token, Some(own), Party(job, result, caller, notes.peer),
          notes.requests + [HandshakeRequest(notes.token)] + [NUMBER_REQUEST] + LastRequests(job), 0)
  }

  lemma LastMessageAhead(job: Procedure, notes: Notes, result: nat, caller: seq<byte>, tunnel: seq<byte>)
    requires 1 <= |caller| <= MAX_NUMBER_SIZE
    requires 1 <= result <= if job.Calling? then 4 else if job.Awaiting? then 2 else 1
    requires job.Calling? ==> |job.number| <= MAX_NUMBER_SIZE
    ensures AskLast(job, notes, LastMessage(job, result, caller) + tunnel)
            == Final(result, notes.(peer := Party(job, result, caller, notes.peer),
                requests := notes.requests + LastRequests(job)), tunnel)
  {
    hide CallReply, WaitReply, CallRequest, CallMessage, WaitMessage;
    LastMessageReads(result, caller, tunnel);
    assert [] + tunnel == tunnel && notes.requests + [] == notes.requests;
  }

  // Its stream leads to its result, and ends where the peer's bytes begin.
  lemma ConversationAhead(job: Procedure, w: World, token: Option<seq<byte>>, own: seq<byte>, result: nat,
                          caller: seq<byte>, tunnel: seq<byte>)
    requires 1 <= |own| <= MAX_NUMBER_SIZE && 1 <= |caller| <= MAX_NUMBER_SIZE
    requires 1 <= result <= if job.Calling? then 4 else if job.Awaiting? then 2 else 1
    requires job.Calling? ==> |job.number| <= MAX_NUMBER_SIZE
    requires token.Some? ==> |token.value| == TOKEN_SIZE
    requires w.c.state == Disconnected && w.c.processing == 0
    requires w.rest == Conversation(job, token, own, result, caller) + tunnel
    ensures Midway(job, w.c) && Ahead(job, w) == Final(result, NotesAfter(job, w.notes, token, own, result,
        caller), tunnel)
  {
    hide HandshakeReply, NumberReply, CallReply, WaitReply, HandshakeRequest, CallRequest,
         NumberMessage, CallMessage, WaitMessage;
    var last := LastMessage(job, result, caller);
    var asked := Asked(w.notes, HandshakeRequest(w.notes.token));
    assert w.rest == HandshakeRequest(token) + (NumberMessage(own) + (last + tunnel));
    var after := NotesAfter(job, w.notes, token, own, result, caller);
    HandshakeMessageReads(token, NumberMessage(own) + (last + tunnel));
    var told := Asked(if token.Some? then asked.(token := token) else asked, NUMBER_REQUEST);
    assert Login(job, asked, w.rest) == Identify(job, told, NumberMessage(own) + (last + tunnel));
    NumberMessageReads(own, last + tunnel);
    assert Identify(job, told, NumberMessage(own) + (last + tunnel)) == AskLast(job, Learnt(told, own),
        last + tunnel);
    LastMessageAhead(job, Learnt(told, own), result, caller, tunnel);
  }

  /** A server that answers as the protocol says, and a peer that then talks at once: any
      faultless procedure that ends has the server's result, has learnt its numbers and
      token, has asked its questions in order, and has left all of the peer's bytes. */
  lemma {:induction false} NothingSwallowed(job: Procedure, w: World, polls: seq<Answers>, token: Option<seq<byte>>,
                                            own: seq<byte>, result: nat, caller: seq<byte>, tunnel: seq<byte>)
    requires 1 <= |own| <= MAX_NUMBER_SIZE && 1 <= |caller| <= MAX_NUMBER_SIZE
    requires 1 <= result <= if job.Calling? then 4 else if job.Awaiting? then 2 else 1
    requires job.Calling? ==> |job.number| <= MAX_NUMBER_SIZE
    requires token.Some? ==> |token.value| == TOKEN_SIZE
    requires w.c.state == Disconnected && w.c.processing == 0
    requires w.rest == Conversation(job, token, own, result, caller) + tunnel
    requires forall i | 0 <= i < |polls| :: !Faulty(polls[i])
    ensures var p := Polls(job, w, polls);
            if p.rc == 0 then |tunnel| < |p.w.rest|
            else
              && p.rc == result && p.w.rest == tunnel
              && p.w.notes == NotesAfter(job, w.notes, token, own, result, caller)
  {
    hide Polls, Ahead, Conversation, NotesAfter;
    ConversationAhead(job, w, token, own, result, caller, tunnel);
    ChunkingIndependent(job, w, polls);
  }

  /** Once it is waiting, a wait only listens: neither a connect nor a send is part of any
      further poll, whatever they would give. */
  lemma ResumedWaitOnlyListens(w: World, a: Answers, connect: int, send: int)
    requires w.c.state == RecvWait && w.c.processing == 2
    ensures ProcWaitPoll(w, a) == ProcWaitPoll(w, a.(connect := connect, send := send))
    ensures ProcWaitPoll(w, a).w.notes.requests == w.notes.requests
  {
    hide Receive;
  }

  // ---------- struct mobile_adapter_relay and struct mobile_buffer_relay ----------

  // Answers of which the first stage took the receives and the second the send.
  ghost function Mixed(first: Answers, second: Answers): Answers {
    Answers(first.connect, second.send, first.recv, first.more)
  }

  // One set of answers serves two stages of a poll: no two that both run take the same.
  lemma MixedServesNumber(w: World, first: Answers, second: Answers)
    requires ConnectPoll(w, first).rc > 0 && w.c.processing == 0
    ensures var a := if w.c.state == RecvHandshake then Mixed(first, second) else second;
            ConnectPoll(w, a) == ConnectPoll(w, first)
            && NumberPoll(At(ConnectPoll(w, a).w, 1), a) == NumberPoll(At(ConnectPoll(w, first).w, 1), second)
  {
    hide GetNumberRecv, NumberReply;
  }

  lemma MixedServesLearn(w: World, first: Answers, second: Answers)
    requires ConnectPoll(w, first).rc > 0
    ensures var a := if w.c.state == RecvHandshake then Mixed(first, second) else second;
            ConnectPoll(w, a) == ConnectPoll(w, first)
            && NumberPoll(ConnectPoll(w, a).w, a) == NumberPoll(ConnectPoll(w, first).w, second)
  {
    hide GetNumberRecv, NumberReply;
  }

  lemma SameReceives(w: World, a: Answers, b: Answers)
    requires a.recv == b.recv && a.more == b.more
    ensures GetNumberRecv(w, a) == GetNumberRecv(w, b) && HandshakeRecv(w, a) == HandshakeRecv(w, b)
  {
  }

  ghost function Joined(w: World, first: Answers, second: Answers): Answers {
    if w.c.processing == 2 then second else Mixed(first, second)
  }

  // A first part that goes on to the last stage in the same poll has taken no send.
  lemma JoinedServesBegin(w: World, first: Answers, second: Answers)
    requires BeginPoll(w, first).rc > 0
    ensures BeginPoll(w, Joined(w, first, second)) == BeginPoll(w, first)
    ensures w.c.processing != 2 ==> BeginPoll(w, first).w.c.state == Connected
  {
    hide GetNumberRecv, HandshakeRecv;
    SameReceives(w, first, Mixed(first, second));
    SameReceives(At(w, 1), first, Mixed(first, second));
  }

  lemma MixedServesLast(w: World, number: seq<byte>, first: Answers, second: Answers)
    requires w.c.state == Connected
    ensures CallPoll(w, number, Mixed(first, second)) == CallPoll(w, number, second)
    ensures WaitPoll(w, Mixed(first, second)) == WaitPoll(w, second)
  {
  }

  // The other party is reported only at the end.
  lemma BeginKeepsPeer(w: World, a: Answers)
    ensures BeginPoll(w, a).w.notes.peer == w.notes.peer
  {
    hide ConnectPoll, NumberPoll;
    ConnectKeepsPeer(w, a);
    NumberKeepsPeer(w, a);
    NumberKeepsPeer(At(ConnectPoll(w, a).w, 1), a);
  }

  lemma ConnectKeepsPeer(w: World, a: Answers)
    ensures ConnectPoll(w, a).w.notes.peer == w.notes.peer
  {
    hide Receive, HandshakeReply;
  }

  lemma NumberKeepsPeer(w: World, a: Answers)
    ensures NumberPoll(w, a).0.w.notes.peer == w.notes.peer
  {
    hide Receive, NumberReply;
  }

  lemma CallKeepsPeer(w: World, number: seq<byte>, a: Answers)
    ensures CallPoll(w, number, a).w.notes == w.notes || CallPoll(w, number, a).w.notes.peer == w.notes.peer
  {
    hide Receive;
  }

  // One set of answers serves a whole poll.
  lemma JoinedServesCall(w: World, number: seq<byte>, first: Answers, second: Answers)
    requires BeginPoll(w, first).rc > 0
    ensures var q := CallPoll(BeginPoll(w, first).w, number, second);
            ProcCallPoll(w, number, Joined(w, first, second))
            == if q.rc == 1 then Polled(q.w.(notes := q.w.notes.(peer := Some(number))), 1) else q
  {
    hide BeginPoll, CallPoll;
    JoinedServesBegin(w, first, second);
    if w.c.processing != 2 {
      MixedServesLast(BeginPoll(w, first).w, number, first, second);
    }
  }

  lemma JoinedServesWait(w: World, first: Answers, second: Answers)
    requires BeginPoll(w, first).rc > 0
    ensures var (q, number) := WaitPoll(BeginPoll(w, first).w, second);
            ProcWaitPoll(w, Joined(w, first, second))
            == if q.rc == 1 then Polled(q.w.(notes := q.w.notes.(peer := number)), 1) else q
  {
    hide BeginPoll, WaitPoll;
    JoinedServesBegin(w, first, second);
    if w.c.processing != 2 {
      MixedServesLast(BeginPoll(w, first).w, [], first, second);
    }
  }

  lemma StaysMidway(job: Procedure, w: World, a: Answers)
    ensures Midway(job, w.c) && Proc(job, w, a).rc == 0 ==> Midway(job, Proc(job, w, a).w.c)
  {
    hide Midway, Proc;
    if Midway(job, w.c) {
      PollAgrees(job, w, a);
    }
  }

  lemma BeginLeaves(w: World, a: Answers)
    requires BeginPoll(w, a).rc > 0 && !(w.c.processing == 2 && w.c.state == Linked)
    ensures BeginPoll(w, a).w.c.state != Linked
  {
    hide GetNumberRecv, HandshakeRecv;
  }

  lemma PartOf(s: seq<byte>, n: nat, i: nat, j: nat)
    requires i <= j <= n <= |s|
    ensures s[..n][i..j] == s[i..j]
  {
  }

  class RelayClient {
    var state: State
    var processing: byte
    var size: nat
    const data: array<byte>
    // config.relay_token and config.relay_token_init
    var token: Option<seq<byte>>
    // global.number_fetch_retries
    var retries: nat
    ghost var requests: seq<seq<byte>>

    ghost predicate Valid()
      reads this`size, this`token
    {
      data.Length == PACKET_SIZE && size <= PACKET_SIZE && (token.Some? ==> |token.value| == TOKEN_SIZE)
    }

    ghost function Now(): Client
      reads this`state, this`processing, this`size, this`token, data
      requires Valid()
    {
      Client(state, processing, data[..size])
    }

    ghost function Seen(host: Host, conn: nat): World
      reads this, data, host
      requires Valid() && host.Valid() && conn < MAX_CONNECTIONS
    {
      World(Now(), Notes(token, host.own, host.peer, requests, retries), host.incoming[conn], host.said)
    }

    // Until it has connected the client may only connect, afterwards only send and receive.
    ghost predicate Ready(host: Host, conn: nat, server: Addr)
      reads this`state, host`sockets
      requires conn < |host.sockets|
    {
      if state in {Disconnected, RecvConnect} then Connectable(host.sockets[conn], server)
      else Streaming(host.sockets[conn])
    }

    ghost predicate Streams(host: Host, conn: nat)
      reads this`state, host`sockets
      requires conn < |host.sockets|
    {
      state !in {Disconnected, RecvConnect} ==> Streaming(host.sockets[conn])
    }

    constructor ()
      ensures Valid() && fresh(data) && state == Disconnected && processing == 0
    {
      data := new byte[PACKET_SIZE];
      state, processing, size, token, retries, requests := Disconnected, 0, 0, None, 3, [];
    }

    // mobile_relay_init
    method Init()
      requires Valid()
      modifies this`state, this`processing
      ensures Valid() && state == Disconnected && processing == 0
    {
      state, processing := Disconnected, 0;
    }

    // relay_recv
    method Recv(host: Host, conn: nat, want: nat) returns (rc: int, ghost offer: int)
      requires Valid() && host.Valid() && conn < MAX_CONNECTIONS && Streaming(host.sockets[conn])
      modifies this`size, data, host`incoming, host`said
      ensures Valid() && host.Valid() && host.Only(conn)
      ensures Polled(Seen(host, conn), rc) == Receive(old(Seen(host, conn)), want, offer)
    {
      offer := 0;
      if want > PACKET_SIZE {
        return -1, offer;
      }
      if size >= want {
        return want, offer;
      }
      rc, offer := RecvMissing(host, conn, want);
    }

    // relay_recv, when something is missing.
    method RecvMissing(host: Host, conn: nat, want: nat) returns (rc: int, ghost offer: int)
      requires Valid() && host.Valid() && conn < MAX_CONNECTIONS && Streaming(host.sockets[conn])
      requires size < want <= PACKET_SIZE
      modifies this`size, data, host`incoming, host`said
      ensures Valid() && host.Valid() && host.Only(conn)
      ensures Polled(Seen(host, conn), rc) == Receive(old(Seen(host, conn)), want, offer)
    {
      hide Receive, Given;
      ghost var before := Seen(host, conn);
      var n, bytes;
      n, bytes, offer := host.Recv(conn, want - size);
      ReceiveTakes(before, want, offer);
      if n < 0 {
        return -1, offer;
      }
      Store(bytes);
      rc := if size < want then 0 else want;
    }

    // What has been received goes after what is there.
    method Store(bytes: seq<byte>)
      requires Valid() && size + |bytes| <= PACKET_SIZE
      modifies this`size, data
      ensures Valid() && size == old(size) + |bytes| && data[..size] == old(data[..size]) + bytes
    {
      ghost var before := data[..size];
      forall i | 0 <= i < |bytes| {
        data[size + i] := bytes[i];
      }
      assert data[..size + |bytes|] == before + bytes;
      size := size + |bytes|;
    }

    // relay_handshake_recv
    method RecvHandshakeReply(host: Host, conn: nat) returns (rc: int, ghost a: Answers)
      requires Valid() && host.Valid() && conn < MAX_CONNECTIONS && Streaming(host.sockets[conn])
      modifies this`size, this`token, data, host`incoming, host`said
      ensures Valid() && host.Valid() && host.Only(conn)
      ensures Polled(Seen(host, conn), rc) == HandshakeRecv(old(Seen(host, conn)), a)
    {
      hide Receive;
      a := Answers(0, 0, 0, 0);
      ghost var offer;
      rc, offer := Recv(host, conn, 8);
      a := a.(recv := offer);
      if rc <= 0 {
        return;
      }
      assert data[..size][..7] == data[..7];
      if data[..7] != MAGIC {
        return -1, a;
      }
      if data[7] == 0 {
        return 1, a;
      } else if data[7] == 1 {
        rc, offer := Recv(host, conn, 8 + TOKEN_SIZE);
        a := a.(more := offer);
        if rc <= 0 {
          return;
        }
        PartOf(data[..], size, 8, 24);
        token := Some(data[8..24]);
        return 2, a;
      } else {
        return -1, a;
      }
    }

    // relay_get_number_recv
    method RecvNumberReply(host: Host, conn: nat) returns (rc: int, number: seq<byte>, ghost a: Answers)
      requires Valid() && host.Valid() && conn < MAX_CONNECTIONS && Streaming(host.sockets[conn])
      modifies this`size, data, host`incoming, host`said
      ensures Valid() && host.Valid() && host.Only(conn)
      ensures (Polled(Seen(host, conn), rc), number) == GetNumberRecv(old(Seen(host, conn)), a)
    {
      hide Receive;
      a, number := Answers(0, 0, 0, 0), [];
      ghost var offer;
      rc, offer := Recv(host, conn, 3);
      a := a.(recv := offer);
      if rc <= 0 {
        return;
      }
      if data[0] != VERSION || data[1] != COMMAND_GET_NUMBER {
        return -1, [], a;
      }
      var length: nat := Length(data[2]);
      if length == 0 || length > MAX_NUMBER_SIZE {
        return -1, [], a;
      }
      rc, offer := Recv(host, conn, 3 + length);
      a := a.(more := offer);
      if rc <= 0 {
        return;
      }
      PartOf(data[..], size, 3, 3 + length);
      return 1, data[3..3 + length], a;
    }

    // relay_call_recv
    method RecvCallReply(host: Host, conn: nat) returns (rc: int, ghost a: Answers)
      requires Valid() && host.Valid() && conn < MAX_CONNECTIONS && Streaming(host.sockets[conn])
      modifies this`size, data, host`incoming, host`said
      ensures Valid() && host.Valid() && host.Only(conn)
      ensures Polled(Seen(host, conn), rc) == CallRecv(old(Seen(host, conn)), a)
    {
      hide Receive;
      a := Answers(0, 0, 0, 0);
      ghost var offer;
      rc, offer := Recv(host, conn, 3);
      a := a.(recv := offer);
      if rc <= 0 {
        return;
      }
      if data[0] != VERSION || data[1] != COMMAND_CALL {
        return -1, a;
      }
      var result: nat := Length(data[2]) + 1;
      if result >= 5 {
        return -1, a;
      }
      rc := result;
    }

    // relay_wait_recv
    method RecvWaitReply(host: Host, conn: nat) returns (rc: int, number: seq<byte>, ghost a: Answers)
      requires Valid() && host.Valid() && conn < MAX_CONNECTIONS && Streaming(host.sockets[conn])
      modifies this`size, data, host`incoming, host`said
      ensures Valid() && host.Valid() && host.Only(conn)
      ensures (Polled(Seen(host, conn), rc), number) == WaitRecv(old(Seen(host, conn)), a)
    {
      hide Receive;
      a, number := Answers(0, 0, 0, 0), [];
      ghost var offer;
      rc, offer := Recv(host, conn, 4);
      a := a.(recv := offer);
      if rc <= 0 {
        return;
      }
      if data[0] != VERSION || data[1] != COMMAND_WAIT {
        return -1, [], a;
      }
      var result: nat := Length(data[2]) + 1;
      if result >= 3 {
        return -1, [], a;
      }
      var length: nat := Length(data[3]);
      if length == 0 || length > MAX_NUMBER_SIZE {
        return -1, [], a;
      }
      rc, offer := Recv(host, conn, 4 + length);
      a := a.(more := offer);
      if rc <= 0 {
        return;
      }
      PartOf(data[..], size, 4, 4 + length);
      return result, data[4..4 + length], a;
    }

    // The relay_*_send functions, from their request on, and what each caller does next:
    // any nonzero result of the send, -1 too, starts the wait for the reply.
    method SendRequest(host: Host, conn: nat, request: seq<byte>, next: State) returns (rc: int, ghost a: Answers)
      requires Valid() && host.Valid() && conn < MAX_CONNECTIONS && Streaming(host.sockets[conn])
      requires |request| <= PACKET_SIZE
      modifies this`size, this`state, this`requests, data, host`accepted, host`said
      ensures Valid() && host.Valid() && host.Only(conn)
      ensures a.connect == 1 && (rc == 0 || rc == -1)
      ensures Polled(Seen(host, conn), rc) == Request(old(Seen(host, conn)), request, next, a)
    {
      ghost var got := data[..size];
      forall i | 0 <= i < |request| {
        data[i] := request[i];
      }
      assert data[..|request|] == request;
      var sent := host.Send(conn, data[..|request|], NoAddr);
      requests := requests + [request];
      a := Answers(1, sent, 0, 0);
      if sent == 0 {
        assert data[..size] == Overwritten(got, request);
        return -1, a;
      }
      size := 0;
      state := next;
      rc := 0;
    }

    // mobile_relay_connect, until the connection is made and the handshake sent
    method Reach(host: Host, conn: nat, server: Addr) returns (rc: int, ghost a: Answers)
      requires Valid() && host.Valid() && conn < MAX_CONNECTIONS && state in {Disconnected, RecvConnect}
      requires Connectable(host.sockets[conn], server)
      modifies this, data, host`sockets, host`incoming, host`accepted, host`said, host`own, host`peer
      ensures Valid() && host.Valid() && host.Only(conn)
      ensures Polled(Seen(host, conn), rc) == ConnectPoll(old(Seen(host, conn)), a)
      ensures rc >= 0 ==> Ready(host, conn, server)
      ensures host.sockets[conn].Tcp? && (rc > 0 ==> Streaming(host.sockets[conn]))
    {
      hide HandshakeRecv;
      a := Answers(0, 0, 0, 0);
      state := RecvConnect;
      rc := host.Connect(conn, server);
      a := a.(connect := rc);
      if rc == 0 {
        return;
      }
      if rc < 0 {
        state := Disconnected;
        return -1, a;
      }
      ghost var connected := rc;
      rc, a := SendRequest(host, conn, HandshakeRequest(token), RecvHandshake);
      a := a.(connect := connected);
    }

    // mobile_relay_connect
    method Connect(host: Host, conn: nat, server: Addr) returns (rc: int, ghost a: Answers)
      requires Valid() && host.Valid() && conn < MAX_CONNECTIONS && Ready(host, conn, server)
      modifies this, data, host`sockets, host`incoming, host`accepted, host`said, host`own, host`peer
      ensures Valid() && host.Valid() && host.Only(conn)
      ensures Polled(Seen(host, conn), rc) == ConnectPoll(old(Seen(host, conn)), a)
      ensures rc >= 0 ==> Ready(host, conn, server)
      ensures host.sockets[conn].Tcp? && (rc > 0 ==> Streaming(host.sockets[conn]))
      ensures old(state) !in {Disconnected, RecvConnect} ==> host.sockets == old(host.sockets)
    {
      a := Answers(0, 0, 0, 0);
      match state
      case Disconnected | RecvConnect =>
        rc, a := Reach(host, conn, server);
      case RecvHandshake =>
        rc, a := RecvHandshakeReply(host, conn);
        if rc == 0 {
          return;
        }
        if rc < 0 {
          state := Disconnected;
          return -1, a;
        }
        state := Connected;
        rc := 1;
      case _ =>
        rc := 1;
    }

    // mobile_relay_get_number
    method GetNumber(host: Host, conn: nat) returns (rc: int, number: seq<byte>, ghost a: Answers)
      requires Valid() && host.Valid() && conn < MAX_CONNECTIONS && Streams(host, conn)
      modifies this, data, host`incoming, host`accepted, host`said
      ensures Valid() && host.Valid() && host.Only(conn)
      ensures (Polled(Seen(host, conn), rc), number) == NumberPoll(old(Seen(host, conn)), a)
      ensures rc >= 0 ==> state in {Connected, RecvGetNumber}
      ensures rc >= 0 ==> Streaming(host.sockets[conn])
    {
      a, number := Answers(0, 0, 0, 0), [];
      match state
      case Connected =>
        rc, a := SendRequest(host, conn, NUMBER_REQUEST, RecvGetNumber);
      case RecvGetNumber =>
        rc, number, a := RecvNumberReply(host, conn);
        if rc == 0 {
          number := [];
          return;
        }
        state := Connected;
        if rc < 0 {
          return -1, [], a;
        }
        rc := 1;
      case _ =>
        rc := -1;
    }

    // mobile_relay_call
    method Call(host: Host, conn: nat, number: seq<byte>) returns (rc: int, ghost a: Answers)
      requires Valid() && host.Valid() && conn < MAX_CONNECTIONS && Streams(host, conn)
      modifies this, data, host`incoming, host`accepted, host`said
      ensures Valid() && host.Valid() && host.Only(conn)
      ensures Polled(Seen(host, conn), rc) == CallPoll(old(Seen(host, conn)), number, a)
      ensures rc >= 0 ==> state !in {Disconnected, RecvConnect}
      ensures rc >= 0 ==> Streaming(host.sockets[conn])
    {
      a := Answers(0, 0, 0, 0);
      match state
      case Connected =>
        if |number| > MAX_NUMBER_SIZE {
          return -1, a;
        }
        rc, a := SendRequest(host, conn, CallRequest(number), RecvCall);
      case RecvCall =>
        rc, a := RecvCallReply(host, conn);
        if rc == 0 {
          return;
        }
        if rc < 0 {
          state := Connected;
          return -1, a;
        }
        state := if rc == 1 then Linked else Connected;
      case Linked =>
        rc := 1;
      case _ =>
        rc := -1;
    }

    // mobile_relay_wait
    method Wait(host: Host, conn: nat) returns (rc: int, number: Option<seq<byte>>, ghost a: Answers)
      requires Valid() && host.Valid() && conn < MAX_CONNECTIONS && Streams(host, conn)
      modifies this, data, host`incoming, host`accepted, host`said
      ensures Valid() && host.Valid() && host.Only(conn)
      ensures (Polled(Seen(host, conn), rc), number) == WaitPoll(old(Seen(host, conn)), a)
      ensures rc >= 0 ==> state !in {Disconnected, RecvConnect}
      ensures rc >= 0 ==> Streaming(host.sockets[conn])
    {
      a, number := Answers(0, 0, 0, 0), None;
      match state
      case Connected =>
        rc, a := SendRequest(host, conn, WAIT_REQUEST, RecvWait);
      case RecvWait =>
        var caller;
        rc, caller, a := RecvWaitReply(host, conn);
        if rc == 0 {
          return;
        }
        if rc < 0 {
          state := Connected;
          return -1, None, a;
        }
        state := if rc == 1 then Linked else Connected;
        number := Some(caller);
      case Linked =>
        rc := 1;
      case _ =>
        rc := -1;
    }

    // Asking for the user's number, which is reported.
    method Introduce(host: Host, conn: nat) returns (rc: int, ghost a: Answers)
      requires Valid() && host.Valid() && conn < MAX_CONNECTIONS && Streams(host, conn)
      modifies this, data, host`incoming, host`accepted, host`said, host`own
      ensures Valid() && host.Valid() && host.Only(conn)
      ensures Polled(Seen(host, conn), rc) == OwnPoll(old(Seen(host, conn)), a)
      ensures rc >= 0 ==> Streaming(host.sockets[conn]) && state in {Connected, RecvGetNumber}
    {
      hide NumberPoll;
      var number;
      rc, number, a := GetNumber(host, conn);
      if rc > 0 {
        host.ReportOwn(Some(number));
        retries := 0;
        processing := 2;
        rc := 1;
      }
    }

    // The first stage of both procedures, which goes on to the second.
    method BeginConnect(host: Host, conn: nat, server: Addr) returns (rc: int, ghost a: Answers)
      requires Valid() && host.Valid() && conn < MAX_CONNECTIONS && Ready(host, conn, server) && processing == 0
      modifies this, data, host`sockets, host`incoming, host`accepted, host`said, host`own, host`peer
      ensures Valid() && host.Valid() && host.Only(conn)
      ensures Polled(Seen(host, conn), rc) == BeginPoll(old(Seen(host, conn)), a)
      ensures rc >= 0 ==> Ready(host, conn, server)
      ensures host.sockets[conn].Tcp?
      ensures old(state) !in {Disconnected, RecvConnect} ==> host.sockets == old(host.sockets)
    {
      hide ConnectPoll, NumberPoll;
      ghost var before := Seen(host, conn);
      rc, a := Connect(host, conn, server);
      if rc <= 0 {
        return;
      }
      processing := 1;
      ghost var first := a;
      rc, a := Introduce(host, conn);
      MixedServesNumber(before, first, a);
      a := if before.c.state == RecvHandshake then Mixed(first, a) else a;
    }

    // The first two stages of both procedures.
    method Begin(host: Host, conn: nat, server: Addr) returns (rc: int, ghost a: Answers)
      requires Valid() && host.Valid() && conn < MAX_CONNECTIONS && Ready(host, conn, server)
      modifies this, data, host`sockets, host`incoming, host`accepted, host`said, host`own, host`peer
      ensures Valid() && host.Valid() && host.Only(conn)
      ensures Polled(Seen(host, conn), rc) == BeginPoll(old(Seen(host, conn)), a)
      ensures rc >= 0 ==> Ready(host, conn, server)
      ensures host.sockets[conn].Tcp?
      ensures old(state) !in {Disconnected, RecvConnect} ==> host.sockets == old(host.sockets)
    {
      if processing == 0 {
        hide BeginPoll;
        rc, a := BeginConnect(host, conn, server);
      } else if processing == 1 {
        hide OwnPoll;
        rc, a := Introduce(host, conn);
      } else {
        a := Answers(0, 0, 0, 0);
        rc := if processing == 2 then 1 else -1;
      }
    }

    /** mobile_relay_proc_call: one poll.  A result of 0 leaves the client midway through the
        same procedure, ready to be polled again. */
    method ProcCall(host: Host, conn: nat, server: Addr, number: seq<byte>) returns (rc: int, ghost a: Answers)
      requires Valid() && host.Valid() && conn < MAX_CONNECTIONS && Ready(host, conn, server)
      requires processing == 2 && state in {RecvCall, Linked} ==> |number| <= MAX_NUMBER_SIZE
      modifies this, data, host`sockets, host`incoming, host`accepted, host`said, host`own, host`peer
      ensures Valid() && host.Valid() && host.Only(conn)
      ensures Polled(Seen(host, conn), rc) == ProcCallPoll(old(Seen(host, conn)), number, a)
      ensures rc == 0 ==> Ready(host, conn, server)
      ensures rc == 0 && old(Midway(Calling(number), Now())) ==> Midway(Calling(number), Now())
      ensures host.sockets[conn].Tcp? && (rc > 0 ==> Streaming(host.sockets[conn]))
      ensures old(state) !in {Disconnected, RecvConnect} ==> host.sockets == old(host.sockets)
    {
      hide BeginPoll, CallPoll, Midway, Joined;
      ghost var before := Seen(host, conn);
      rc, a := Begin(host, conn, server);
      if rc > 0 {
        ghost var first := a;
        rc, a := Call(host, conn, number);
        JoinedServesCall(before, number, first, a);
        a := Joined(before, first, a);
        if rc == 1 {
          host.ReportPeer(Some(number));
        }
      }
      StaysMidway(Calling(number), before, a);
    }

    /** mobile_relay_proc_wait: one poll. */
    method ProcWait(host: Host, conn: nat, server: Addr) returns (rc: int, ghost a: Answers)
      requires Valid() && host.Valid() && conn < MAX_CONNECTIONS && Ready(host, conn, server)
      requires !(processing == 2 && state == Linked)
      modifies this, data, host`sockets, host`incoming, host`accepted, host`said, host`own, host`peer
      ensures Valid() && host.Valid() && host.Only(conn)
      ensures Polled(Seen(host, conn), rc) == ProcWaitPoll(old(Seen(host, conn)), a)
      ensures rc == 0 ==> Ready(host, conn, server) && (old(Midway(Awaiting, Now())) ==> Midway(Awaiting, Now()))
      ensures host.sockets[conn].Tcp? && (rc > 0 ==> Streaming(host.sockets[conn]))
      ensures old(state) !in {Disconnected, RecvConnect} ==> host.sockets == old(host.sockets)
    {
      hide BeginPoll, WaitPoll, Midway, Joined;
      ghost var before := Seen(host, conn);
      rc, a := Begin(host, conn, server);
      if rc > 0 {
        ghost var first := a;
        BeginLeaves(before, first);
        var number;
        rc, number, a := Wait(host, conn);
        JoinedServesWait(before, first, a);
        a := Joined(before, first, a);
        if rc == 1 {
          host.ReportPeer(number);
        }
      }
      StaysMidway(Awaiting, before, a);
    }

    // mobile_relay_proc_init_number: one poll
    method ProcInitNumber(host: Host, conn: nat, server: Addr) returns (rc: int, ghost a: Answers)
      requires Valid() && host.Valid() && conn < MAX_CONNECTIONS && Ready(host, conn, server)
      modifies this, data, host`sockets, host`incoming, host`accepted, host`said, host`own, host`peer
      ensures Valid() && host.Valid() && host.Only(conn)
      ensures Polled(Seen(host, conn), rc) == LearnPoll(old(Seen(host, conn)), a)
      ensures rc == 0 ==> Ready(host, conn, server) && (old(Midway(Learning, Now())) ==> Midway(Learning, Now()))
      ensures host.sockets[conn].Tcp?
    {
      hide ConnectPoll, NumberPoll, Midway;
      ghost var before := Seen(host, conn);
      rc, a := Connect(host, conn, server);
      if rc > 0 {
        ghost var first := a;
        var number;
        rc, number, a := GetNumber(host, conn);
        MixedServesLearn(before, first, a);
        a := if before.c.state == RecvHandshake then Mixed(first, a) else a;
        if rc > 0 {
          host.ReportOwn(Some(number));
          retries := 0;
          rc := 1;
        }
      }
      StaysMidway(Learning, before, a);
    }
  }
}
