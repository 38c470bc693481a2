/**
 The command layer (commands.c, and command_handle in mobile.c): a packet is parsed, then
 polled until it gives a packet to send.

 Every handler of the C code is a method of `Adapter`.  The socket callbacks are those of
 `Host`, whose preconditions are the contract of mobile.h.  In a session they can always be
 met.  Outside one a packet may use a socket that was closed with the last session, or that
 the user's number is being fetched on: there the unchecked callbacks take note of it, and
 `MayHandle` says exactly when it happens.
 */
module Commands {
  import opened Bytes
  import opened Sockets
  import opened Relay
  import opened Fields
  import InetPton
  import DnsName
  import opened DnsMessage

  const START: byte := 0x10
  const END: byte := 0x11
  const TEL: byte := 0x12
  const OFFLINE: byte := 0x13
  const WAIT_CALL: byte := 0x14
  const DATA: byte := 0x15
  const REINIT: byte := 0x16
  const CHECK_STATUS: byte := 0x17
  const CHANGE_CLOCK: byte := 0x18
  const EEPROM_READ: byte := 0x19
  const EEPROM_WRITE: byte := 0x1A
  const DATA_END: byte := 0x1F
  const PPP_CONNECT: byte := 0x21
  const PPP_DISCONNECT: byte := 0x22
  const TCP_CONNECT: byte := 0x23
  const TCP_DISCONNECT: byte := 0x24
  const DNS_REQUEST: byte := 0x28
  const ERROR: byte := 0x6E

  const BLUE := 8
  const GREEN := 10
  const RED := 11
  const YELLOW := 9

  const CONFIG_AREA := 0x100
  const MAX_NUMBER := 0x20
  const DNS_PORT := 53

  // "NINTENDO"
  const NINTENDO: seq<byte> := [78, 73, 78, 84, 69, 78, 68, 79]
  // "EVERYONE HAPPY MOBILE CONNECTION"
  const HAPPY: seq<byte> := [69, 86, 69, 82, 89, 79, 78, 69, 32, 72, 65, 80, 80, 89, 32, 77,
                             79, 66, 73, 76, 69, 32, 67, 79, 78, 78, 69, 67, 84, 73, 79, 78]

  // enum mobile_connection_state
  datatype Line = Idle | Wait | WaitRelay | WaitTimeout | Call | CallRecv | CallIsp | Internet

  // What a suspended command is in the middle of: dialling an address or through the relay,
  // waiting for a call, sending, connecting, or looking up a name on a socket.
  datatype Job = NoJob | Dialling | DiallingRelay | Awaited | Sending
    | Opening(conn: nat, addr: Addr) | Asking(conn: nat, addr: Addr)

  // What happens to the command layer.
  datatype Event =
    | Packet(command: byte, length: byte, payload: seq<byte>, stale: seq<byte>, staleAddr: Addr, device: byte)
    | Poll
    | Settings(dns1: Addr, dns2: Addr, port: nat)
    | SetRelay(addr: Addr)
    | SetToken(token: Option<seq<byte>>)
    | Fetch
    | Drop

  // The commands that may take more than one poll.
  predicate TakesPolls(c: byte) {
    c == TEL || c == WAIT_CALL || c == DATA || c == TCP_CONNECT || c == DNS_REQUEST
  }

  predicate Waitable(s: Line) {
    s in {Idle, Wait, WaitRelay, WaitTimeout}
  }

  // Whether a START packet opens a session.
  predicate Welcome(device: byte, p: seq<byte>) {
    p == HAPPY || (if device == RED then NINTENDO <= p else p == NINTENDO)
  }

  // The part of the configuration that games may read and write, a piece at a time.
  predicate Readable(offset: int, size: int) {
    size <= 0x80 && offset + size <= CONFIG_AREA
  }

  // What TEL wants of the first byte of its packet.
  predicate DialByteOk(device: byte, c: byte) {
    (device == BLUE ==> c == 0) && (device in {GREEN, RED} ==> c in {1, 9})
  }

  function TextOf(s: seq<byte>): string {
    seq(|s|, i requires 0 <= i < |s| => s[i] as char)
  }

  // mobile_is_ipaddr: anything with a colon, or nothing but digits and periods.
  predicate LooksLikeAddress(s: seq<byte>) {
    58 in s || forall c | c in s :: DigitByte(c) || c == 46
  }

  // A DNS server from a packet: none if all zero.
  function ServerOf(host: seq<byte>): (a: Addr)
    requires |host| == 4
  {
    if host == [0, 0, 0, 0] then NoAddr else Addr4(DNS_PORT, host)
  }

  // The address offered in place of an absent server: the user's own, if it is IPv4.
  function Offered(server: Addr, user: Addr): (host: seq<byte>)
    ensures |host| == 4
  {
    if server == NoAddr && user.Addr4? && |user.host| == 4 then user.host else [0, 0, 0, 0]
  }

  // The reply to a request for something that looks like an address already.
  function AddressIn(s: seq<byte>): (ip: seq<byte>)
    ensures |ip| == 4
  {
    match InetPton.Parse4(TextOf(s))
    case Some(host) => host
    case None => [255, 255, 255, 255]
  }

  // What the host answers while `left` bytes are to be sent, and what follows from it: None
  // to go on and receive, otherwise whether there is a reply.
  predicate SendAnswer(left: int, reply: Option<bool>, rc: int, heard: seq<Said>) {
    if left == 0 then reply == None && heard == []
    else if rc < 0 then reply == Some(true) && heard == [SendSaid(rc)]
    else if rc == left then reply == None && heard == [SendSaid(rc)]
    else reply.Some? && heard == [SendSaid(rc), TimerSaid(reply.value)]
  }

  // What it answers to a receive, and whether there is a reply; `quiet` if an internet
  // connection has sent nothing, which is given time to receive something.
  predicate RecvAnswer(stream: seq<byte>, quiet: bool, send: bool, got: int, offer: int, heard: seq<Said>) {
    && got == Given(stream, MAX_TRANSFER, offer)
    && if quiet && got == 0 then heard == [RecvSaid(offer), TimerSaid(send)]
       else send && heard == [RecvSaid(offer)]
  }

  // One poll of DATA: what the receive gave, if there was one; what the send gave and the
  // receive offered; and the host's answers while sending and receiving.
  datatype Exchanged = Exchanged(received: Option<int>, rc: int, offer: int, sending: seq<Said>, receiving: seq<Said>)

  // What the host answers to a query's send, and whether it counts as sent.
  predicate QueryAnswer(fits: bool, ok: bool, heard: seq<Said>) {
    if !fits then !ok && heard == [] else |heard| == 1 && heard[0].SendSaid? && ok == (heard[0].rc != 0)
  }

  // The same with the opening of its socket.
  predicate AskAnswer(fits: bool, ok: bool, heard: seq<Said>) {
    || (heard == [OpenSaid(0, false)] && !ok)
    || (heard != [] && heard[0] == OpenSaid(0, true) && QueryAnswer(fits, ok, heard[1..]))
  }

  // What a receive on the socket of a lookup gives.
  datatype Datagram = Datagram(rc: int, data: seq<byte>, sender: Addr)

  // One later poll of DNS_REQUEST: what was received, what became of it, what the timer
  // said, and what the host answered when the next server was asked.
  datatype LookupPoll = LookupPoll(d: Datagram, rc: int, ip: seq<byte>, late: bool, next: seq<Said>)

  // What mobile_dns_request_recv makes of it: only a packet of the server that was asked
  // counts, and it counts for what Lookup finds in it.
  ghost predicate AnswerGiven(d: Datagram, server: Addr, id: nat, name: seq<byte>, rc: int, ip: seq<byte>) {
    if d.rc <= 0 then rc == d.rc
    else if !SameAddr(server, d.sender) then rc == 0
    else (rc == 1 || rc == -1) && Lookup(d.data, id, name) == if rc == 1 then Address(ip) else NoAddress
  }

  // What a poll's outcome follows from, besides the state before it: whether the timer had
  // passed, results of the relay or the host, and the accounts of the longer commands.
  datatype Report = Report(late: bool, rc: int, a: Answers, e: Exchanged, p: LookupPoll, ok: bool, bytes: seq<byte>)

  ghost function NoReport(): Report {
    Report(false, 0, Answers(0, 0, 0, 0), Exchanged(None, 0, 0, [], []),
           LookupPoll(Datagram(0, [], NoAddr), 0, [], false, []), true, [])
  }

  // What an open socket of an internet session is good for.
  predicate Usable(i: nat, s: Socket, job: Job) {
    if job.Opening? && job.conn == i then Connectable(s, job.addr)
    else if job.Asking? && job.conn == i then Reaches(s, job.addr)
    else Streaming(s)
  }

  // The flags and the sockets of an internet session.
  predicate OnLine(connections: seq<bool>, sockets: seq<Socket>, job: Job)
    requires |connections| == |sockets| == MAX_CONNECTIONS
  {
    && (forall i | 0 <= i < MAX_CONNECTIONS :: connections[i] <==> sockets[i] != Closed)
    && (forall i | 0 <= i < MAX_CONNECTIONS && connections[i] :: Usable(i, sockets[i], job))
  }

  // A socket that a command opens for its job.
  lemma SocketAdded(connections: seq<bool>, sockets: seq<Socket>, conn: nat, s: Socket, job: Job)
    requires |connections| == |sockets| == MAX_CONNECTIONS && OnLine(connections, sockets, NoJob)
    requires conn < MAX_CONNECTIONS && !connections[conn] && (job.Opening? || job.Asking?) && job.conn == conn
    requires s != Closed && Usable(conn, s, job)
    ensures OnLine(connections[conn := true], sockets[conn := s], job)
  {
  }

  // The line and the packet before a poll.
  datatype Was = Was(session: bool, state: Line, connections: seq<bool>, command: byte, length: byte, data: seq<byte>,
                     sockets: seq<Socket>, incoming: seq<seq<byte>>, peer: Option<seq<byte>>)

  // The contents of a packet behind its first byte.
  function Rest(was: Was): seq<byte> {
    if 1 <= was.length as int <= |was.data| then was.data[1..was.length] else []
  }

  lemma MidwayNumber(number: seq<byte>, c: Client)
    requires Midway(Calling(number), c)
    ensures c.state in {RecvCall, Linked} ==> |number| <= MAX_NUMBER_SIZE
  {
  }

  lemma NotLinked(c: Client)
    requires Midway(Awaiting, c)
    ensures c.state != Linked
  {
  }

  lemma AnswerFacts(d: Datagram, server: Addr, id: nat, name: seq<byte>, rc: int, ip: seq<byte>)
    requires AnswerGiven(d, server, id, name, rc, ip)
    ensures rc <= 1 && (rc == 1 ==> |ip| == 4)
  {
  }

  lemma NotTwelve(number: seq<byte>)
    ensures |number| != 12 ==> !SpellsAddress(number)
  {
  }

  lemma OneGroup(s: seq<bool>)
    ensures |s| == 1 ==> s == [s[0]] && (s == [true] || s == [false])
  {
    if |s| == 1 {
      if s[0] {
        assert s == [true];
      } else {
        assert s == [false];
      }
    }
  }

  lemma SentMore(before: seq<byte>, d: seq<byte>, sent: nat, rc: nat, size: nat)
    requires sent + rc <= size < |d|
    ensures before + d[1..1 + sent] + d[1 + sent..1 + size][..rc] == before + d[1..1 + sent + rc]
    ensures before <= before + d[1..1 + sent + rc] <= before + d[1..1 + size]
  {
  }

  lemma CallFacts(w: World, number: seq<byte>, a: Answers)
    ensures var p := ProcCallPoll(w, number, a);
            p.w.notes.peer == if p.rc == 1 then Some(number) else w.notes.peer
  {
    hide BeginPoll, CallPoll;
    BeginKeepsPeer(w, a);
    CallKeepsPeer(BeginPoll(w, a).w, number, a);
  }

  lemma WaitFacts(w: World, a: Answers)
    requires Midway(Awaiting, w.c)
    ensures var p := ProcWaitPoll(w, a);
            && (if p.rc == 1 then p.w.notes.peer.Some? else p.w.notes.peer == w.notes.peer)
            && (w.c.state == RecvWait ==> p.w.notes.requests == w.notes.requests)
  {
    hide Receive;
    if w.c.state == RecvWait {
      ResumedWaitOnlyListens(w, a, 0, 0);
    }
  }

  // A poll of the relay does not change what is to come, and a call or a caller is as foreseen.
  lemma PollForesees(job: Procedure, w: World, a: Answers)
    requires Midway(job, w.c)
    ensures var p := Proc(job, Hear(w, TimerSaid(false)), a);
            && (p.rc == 0 ==> Ahead(job, p.w) == Ahead(job, w))
            && (p.rc == 1 ==> Ahead(job, w) == Final(1, p.w.notes, p.w.rest))
  {
    hide Midway, Proc;
    HeardAhead(job, w, TimerSaid(false));
    PollAgrees(job, Hear(w, TimerSaid(false)), a);
  }

  lemma HeardAhead(job: Procedure, w: World, s: Said)
    ensures Ahead(job, Hear(w, s)) == Ahead(job, w)
  {
  }

  class Adapter {
    const host: Host
    const relay: RelayClient
    const dns: DnsBuffer
    // struct mobile_adapter_commands
    var sessionStarted: bool
    var mode32: bool
    var state: Line
    var connections: seq<bool>
    var dns2Use: bool
    var dns1: Addr
    var dns2: Addr
    // struct mobile_buffer_commands, and global.packet_parsed
    var parsed: bool
    // global.number_fetch_active
    var fetchActive: bool
    var command: byte
    var length: byte
    const data: array<byte>
    var processing: byte
    var processingData: seq<byte>
    var processingAddr: Addr
    // what the commands read of the settings and of the serial side
    var device: byte
    var unmetered: bool
    var configDns1: Addr
    var configDns2: Addr
    var configRelay: Addr
    var configPort: nat
    // dns.id
    var dnsId: nat
    // What this connection had accepted before the DATA command in progress.
    ghost var acceptedBefore: seq<byte>
    // The DNS groups this lookup has sent to (true: DNS2), and the one that last succeeded.
    ghost var asked: seq<bool>
    ghost var lastGood: bool
    // The flags mirror the sockets.  In a session they always do; see `OrderlyExactly`.
    ghost var orderly: bool
    // A command has closed the socket that a number is being fetched on, or polled the relay
    // client that fetches it.  Like `host.broken` this is no program state.
    var clash: bool

    // No call has gone against the socket contract, and no fetch has been interfered with.
    // Where this ends nothing is said of what happens next, and the methods return.
    predicate Sound()
      reads this`clash, host`broken
    {
      !host.broken && !clash
    }

    ghost predicate Shape()
      reads this`connections, this`processingData
      reads host`sockets, host`incoming, host`accepted
      reads relay`size, relay`token, dns`size
    {
      && host.Valid() && relay.Valid() && dns.Valid()
      && data.Length == 0xFF
      && data != relay.data && data != dns.data && relay.data != dns.data
      && |connections| == MAX_CONNECTIONS && |processingData| == 4
    }

    // The sockets of the commands: while a number is being fetched, socket 0 is not theirs.
    function Own(): (own: seq<Socket>)
      reads this`fetchActive, host`sockets
      requires |host.sockets| == MAX_CONNECTIONS
      ensures |own| == MAX_CONNECTIONS && own[1] == host.sockets[1]
    {
      if fetchActive then host.sockets[0 := Closed] else host.sockets
    }

    predicate Mirrored()
      reads this`connections, this`fetchActive, host`sockets
      requires |host.sockets| == |connections| == MAX_CONNECTIONS
    {
      && (connections[0] <==> !fetchActive && host.sockets[0] != Closed)
      && (connections[1] <==> host.sockets[1] != Closed)
    }

    // The contract has been kept, and so have the flags of a session.
    predicate Kept()
      reads this`sessionStarted, this`connections, this`fetchActive, this`clash, host`sockets, host`broken
      requires |host.sockets| == |connections| == MAX_CONNECTIONS
    {
      Sound() && (sessionStarted ==> Mirrored())
    }

    // What is known while a number is being fetched.
    ghost predicate Fetches()
      reads this`configRelay, host`sockets, relay.data, relay`state, relay`processing, relay`size, relay`token
      requires |host.sockets| == MAX_CONNECTIONS && relay.Valid()
    {
      && host.sockets[0].Tcp? && configRelay != NoAddr
      && Midway(Learning, relay.Now()) && relay.Ready(host, 0, configRelay)
    }

    ghost function Number(): seq<byte>
      reads this`length, data
      requires data.Length == 0xFF
    {
      if length == 0 then [] else data[1..length]
    }

    // The address in a TCP_CONNECT packet.
    ghost function Target(): Addr
      reads data
      requires data.Length == 0xFF
    {
      Addr4(BigEndian(data[4], data[5]), data[..4])
    }

    // The job of the command that has been parsed.
    ghost function Current(): Job
      reads this`parsed, this`command, this`processing, this`processingData, this`processingAddr, data
      requires |processingData| == 4 && data.Length == 0xFF
    {
      if !parsed || processing == 0 then NoJob
      else if command == TEL then if processing == 1 then Dialling else DiallingRelay
      else if command == WAIT_CALL then Awaited
      else if command == DATA then Sending
      else if command == TCP_CONNECT then Opening(processingData[0], Target())
      else if command == DNS_REQUEST then Asking(processingData[0], processingAddr)
      else NoJob
    }

    // The connection state, the flags and the sockets agree, with this job in progress.
    ghost predicate LineHolds(job: Job)
      reads this`state, this`connections, this`dns2Use, this`lastGood, this`processingAddr, this`fetchActive
      reads this`configRelay, host`sockets, relay.data, relay`state, relay`processing, relay`size, relay`token
      requires |host.sockets| == |connections| == MAX_CONNECTIONS && relay.Valid()
    {
      && Mirrored() && (fetchActive ==> Fetches())
      && match state
         case Idle => !connections[1] && (connections[0] <==> job in {Dialling, DiallingRelay})
         case Wait => connections == [true, false] && host.sockets[0] == Tcp(false, Listening)
         case WaitRelay => connections == [true, false] && host.sockets[0].Tcp?
                           && Midway(Awaiting, relay.Now()) && relay.Ready(host, 0, processingAddr)
                           && (relay.state == RecvWait || job == Awaited)
         case WaitTimeout | CallIsp => connections == [false, false]
         case Call | CallRecv => connections == [true, false] && Streaming(host.sockets[0])
         case Internet => (forall i | 0 <= i < MAX_CONNECTIONS && connections[i] :: Usable(i, host.sockets[i], job))
                          && dns2Use == lastGood
    }

    // Sending has no socket of its own: the line is as it is without it, and every open
    // socket of a call or an internet session carries a stream.
    lemma JobDone(job: Job)
      requires |host.sockets| == |connections| == MAX_CONNECTIONS && relay.Valid()
      requires LineHolds(job) && (job.Sending? || job.NoJob?)
      ensures LineHolds(NoJob) && (state != WaitRelay ==> LineHolds(Sending))
      ensures state in {Call, CallRecv, Internet} ==>
                forall i | 0 <= i < MAX_CONNECTIONS && connections[i] :: Streaming(host.sockets[i])
    {
    }

    lemma InternetLine(job: Job)
      requires |host.sockets| == |connections| == MAX_CONNECTIONS && relay.Valid() && state == Internet
      requires !fetchActive
      ensures LineHolds(job) <==> OnLine(connections, host.sockets, job) && dns2Use == lastGood
    {
    }

    // In an internet session the favoured group is the one that last worked.
    lemma GoodGroup(job: Job)
      requires |host.sockets| == |connections| == MAX_CONNECTIONS && relay.Valid()
      requires LineHolds(job) && state == Internet
      ensures dns2Use == lastGood
    {
    }

    // The socket of a lookup in progress.
    lemma AskingIs(conn: nat)
      requires |host.sockets| == |connections| == MAX_CONNECTIONS && relay.Valid()
      requires LineHolds(Asking(conn, processingAddr)) && state == Internet && conn < MAX_CONNECTIONS
               && connections[conn]
      ensures Reaches(host.sockets[conn], processingAddr) && dns2Use == lastGood
    {
    }

    // The connection a DATA packet is for.
    ghost function DataConn(): nat
      reads this`state, data
      requires data.Length == 0xFF
    {
      if state == Internet then data[0] else 0
    }

    // What is known of each job between its polls.
    ghost predicate DiallingHolds()
      reads this`state, this`processing, this`length, this`processingAddr, host`sockets
      requires |host.sockets| == MAX_CONNECTIONS
    {
      state == Idle && processing == 1 && length >= 1 && Connectable(host.sockets[0], processingAddr)
    }

    ghost predicate DiallingRelayHolds()
      reads this`state, this`processing, this`length, this`processingAddr, host`sockets, relay.data, data
      reads relay`state, relay`processing, relay`size, relay`token
      requires |host.sockets| == MAX_CONNECTIONS && data.Length == 0xFF && relay.Valid()
    {
      && state == Idle && processing == 2 && length >= 1 && host.sockets[0].Tcp?
      && Midway(Calling(Number()), relay.Now()) && relay.Ready(host, 0, processingAddr)
    }

    ghost predicate SendingHolds()
      reads this`state, this`processing, this`length, this`connections, this`processingData, this`acceptedBefore
      reads host`accepted, data
      requires data.Length == 0xFF && |processingData| == 4 && |connections| == |host.accepted| == MAX_CONNECTIONS
    {
      && state in {Call, CallRecv, Internet} && processing == 1 && DataUsable()
      && processingData[0] < length
      && SentSoFar(DataConn(), acceptedBefore, Length(processingData[0]))
    }

    ghost predicate OnInternet(conn: nat)
      reads this`state, this`processing, this`connections
      requires |connections| == MAX_CONNECTIONS
    {
      state == Internet && processing == 1 && conn < MAX_CONNECTIONS && connections[conn]
    }

    ghost predicate AskingHolds()
      reads this`processingData, this`asked, this`dns2Use, this`dnsId, dns`id, dns`qtype
      requires |processingData| == 4
    {
      processingData[1] < 4 && AskedWell(Length(processingData[1])) && dns.id == dnsId && dns.qtype == QTYPE_A
    }

    ghost predicate JobHolds(job: Job)
      reads this`state, this`processing, this`length, this`processingAddr, this`processingData, this`connections
      reads this`acceptedBefore, this`asked, this`dns2Use, this`dnsId, this`fetchActive, relay.data, data
      reads host`sockets, host`incoming, host`accepted
      reads relay`state, relay`processing, relay`size, relay`token, dns`size, dns`id, dns`qtype
      requires Shape()
    {
      match job
      case NoJob => true
      case Dialling => DiallingHolds()
      case DiallingRelay => DiallingRelayHolds()
      case Awaited => state in {Wait, WaitRelay} && processing == 1
      case Sending => SendingHolds()
      case Opening(conn, _) => OnInternet(conn) && !fetchActive && length >= 6
      case Asking(conn, _) => OnInternet(conn) && !fetchActive && AskingHolds()
    }

    // A DATA packet that names a connection to send on.
    ghost predicate DataUsable()
      reads this`state, this`length, this`connections, data
      requires data.Length == 0xFF && |connections| == MAX_CONNECTIONS
    {
      length >= 1 && DataConn() < MAX_CONNECTIONS && connections[DataConn()]
    }

    // What this connection has accepted: `before`, and so much of the payload.
    ghost predicate SentSoFar(conn: nat, before: seq<byte>, n: nat)
      reads host`accepted, data
      requires data.Length == 0xFF && conn < |host.accepted| && 1 + n <= 0xFF
    {
      host.accepted[conn] == before + data[1..1 + n]
    }

    // This lookup has asked the favoured group at most once, then the other at most once,
    // and its last question went to the address numbered `id`.
    ghost predicate AskedWell(id: nat)
      reads this`asked, this`dns2Use
    {
      asked == [(id >= 2) != dns2Use] || (id >= 2 && asked == [dns2Use, !dns2Use])
    }

    // The flags mirror the sockets, and a session has socket 0 to itself.
    ghost predicate Settled()
      reads this`connections, this`processingData, this`orderly, this`fetchActive, this`sessionStarted, this`clash
      reads host`sockets, host`incoming, host`accepted, host`broken, relay`size, relay`token, dns`size
    {
      Shape() && Sound() && orderly && (sessionStarted ==> !fetchActive)
    }

    // The same, with no number being fetched.
    ghost predicate Alone()
      reads this`connections, this`processingData, this`orderly, this`fetchActive, this`clash
      reads host`sockets, host`incoming, host`accepted, host`broken, relay`size, relay`token, dns`size
    {
      Shape() && Sound() && orderly && !fetchActive
    }

    // Between any two pieces of work.
    ghost predicate Consistent()
      reads this, relay.data, data
      reads host`sockets, host`incoming, host`accepted, host`broken
      reads relay`state, relay`processing, relay`size, relay`token, dns`size, dns`id, dns`qtype
    {
      && (parsed && processing != 0 ==> TakesPolls(command))
      && if orderly then Settled() && LineHolds(Current()) && JobHolds(Current())
         else Shape() && LeftOver() && (parsed ==> processing == 0)
    }

    // Outside a session, with nothing open, but a flag left over from the last session.
    ghost predicate LeftOver()
      reads this`sessionStarted, this`state, this`connections, this`fetchActive, this`clash, this`configRelay
      reads relay.data, host`sockets, host`broken, relay`state, relay`processing, relay`size, relay`token
      requires |host.sockets| == MAX_CONNECTIONS && relay.Valid()
    {
      && Sound() && !sessionStarted && Waitable(state) && connections == [true, false] && Own() == [Closed, Closed]
      && (fetchActive ==> Fetches())
    }

    // TEL places a call, by opening socket 0.
    ghost predicate PlacesCall()
      reads this`device, this`length, this`configRelay, data
      requires data.Length == 0xFF && length >= 1
    {
      var number := Dialled(FirstOf(Number()));
      DialByteOk(device, data[0]) && number !in ISP_NUMBERS && CanCall(number)
    }

    // A name is asked for, and there is a server to be asked, by opening a socket.
    ghost predicate AsksServer()
      reads this`length, this`dns1, this`dns2, this`configDns1, this`configDns2, this`dns2Use, data
      requires data.Length == 0xFF
    {
      !LooksLikeAddress(data[..length]) && exists i | 0 <= i < 4 :: DnsServer(i) != NoAddr
    }

    /** Whether the packet that has been parsed can be handled without breaking the socket
        contract: its command does not close socket 0 because of a flag that was left over,
        nor touch it while a number is being fetched on it, and no session begins with a
        socket open. */
    ghost predicate MayHandle()
      reads this`sessionStarted, this`fetchActive, this`connections, this`state, this`command, this`length
      reads this`device, this`configRelay, this`dns1, this`dns2, this`configDns1, this`configDns2, this`dns2Use
      reads data, host`sockets
      requires |host.sockets| == |connections| == MAX_CONNECTIONS && data.Length == 0xFF
    {
      if command == START then sessionStarted || !Welcome(device, data[..length]) || Own() == [Closed, Closed]
      else if command in {END, REINIT} then Mirrored()
      else if command == TEL then
        !Waitable(state) || length == 0 || (Mirrored() && !(fetchActive && PlacesCall()))
      else if command == WAIT_CALL then
        !Waitable(state) || (!fetchActive && (Mirrored() || state in {Idle, WaitTimeout}))
      else if command == TCP_CONNECT then !(fetchActive && state == Internet && length >= 6)
      else if command == DNS_REQUEST then !(fetchActive && state == Internet && AsksServer())
      else true
    }

    lemma OrderlyExactly()
      requires Consistent()
      ensures orderly <==> Mirrored()
      ensures !orderly ==> connections == [true, false] && Own() == [Closed, Closed] && Waitable(state)
      ensures sessionStarted ==> orderly && !fetchActive
    {
      hide JobHolds, Midway;
      if !orderly {
        assert connections[0] && Own()[0] == Closed;
      }
    }

    /** In a session nothing can go against the contract. */
    lemma InSession()
      requires Consistent() && parsed && sessionStarted
      ensures MayHandle()
    {
      hide Consistent;
      OrderlyExactly();
    }

    lemma FetchSocket()
      requires Consistent()
      ensures Shape() && Sound() && (fetchActive ==> host.sockets[0] != Closed)
    {
      hide Midway, JobHolds;
    }

    // After a command has given its reply.
    ghost predicate Rests()
      reads this, relay.data, data
      reads host`sockets, host`incoming, host`accepted, host`broken
      reads relay`state, relay`processing, relay`size, relay`token, dns`size, dns`id, dns`qtype
    {
      if orderly then Settled() && LineHolds(NoJob) else Shape() && LeftOver()
    }

    // A packet with this command has been parsed.
    ghost predicate Handling(c: byte)
      reads this, relay.data, data
      reads host`sockets, host`incoming, host`accepted, host`broken
      reads relay`state, relay`processing, relay`size, relay`token, dns`size, dns`id, dns`qtype
    {
      Consistent() && parsed && command == c
    }

    // The same, with the flags in order.
    ghost predicate Processing(c: byte)
      reads this, relay.data, data
      reads host`sockets, host`incoming, host`accepted, host`broken
      reads relay`state, relay`processing, relay`size, relay`token, dns`size, dns`id, dns`qtype
    {
      Handling(c) && orderly
    }

    // A reply that leaves all but the packet alone leaves the line in order.
    twostate lemma OnlyReplied()
      requires old(Consistent() && parsed)
      requires old(processing == 0 || command !in {TEL, WAIT_CALL, TCP_CONNECT, DNS_REQUEST})
      requires unchanged(this`sessionStarted, this`orderly, this`fetchActive, this`configRelay, this`state,
               this`connections, this`clash)
      requires unchanged(this`dns2Use, this`lastGood, this`processingAddr, this`processingData, host`sockets,
               host`incoming, host`accepted, host`broken, relay, relay.data, dns)
      ensures Rests()
    {
    }

    lemma LineRests()
      requires Settled() && LineHolds(NoJob)
      ensures Rests()
    {
      hide LineHolds, Shape;
    }

    // What most commands need to know to begin with.
    lemma Buffers()
      requires Consistent()
      ensures data.Length == 0xFF && data != relay.data && data != dns.data
      ensures |connections| == MAX_CONNECTIONS && |processingData| == 4 && host.Valid() && relay.Valid()
    {
    }

    // The line and the packet, as one value.
    ghost function Snapshot(): Was
      reads this`sessionStarted, this`state, this`connections, this`command, this`length, data
      reads host`sockets, host`incoming, host`peer
    {
      Was(sessionStarted, state, connections, command, length, data[..], host.sockets, host.incoming, host.peer)
    }

    // error_packet: the reply names the command, `c`, and the error.
    ghost predicate FailedAs(c: byte, code: byte)
      reads this`command, this`length, data
    {
      data.Length == 0xFF && command == ERROR && length == 2 && data[0] == c && data[1] == code
    }

    ghost predicate FailedFrom(was: Was, code: byte)
      reads this`command, this`length, data
    {
      FailedAs(was.command, code)
    }

    twostate predicate Failed(code: byte)
      reads this`command, this`length, data
    {
      FailedAs(old(command), code)
    }

    // An empty reply.
    ghost predicate AnsweredFrom(was: Was)
      reads this`command, this`length
    {
      command == was.command && length == 0
    }

    twostate predicate Answered()
      reads this`command, this`length
    {
      command == old(command) && length == 0
    }

    // The packet is as it was.
    ghost predicate PacketKept(was: Was)
      reads this`command, this`length, data
    {
      command == was.command && length == was.length && data[..] == was.data
    }

    twostate predicate SamePacket()
      reads this`command, this`length, data
    {
      command == old(command) && length == old(length) && data[..] == old(data[..])
    }

    // The connections are as they were.
    ghost predicate LineKept(was: Was)
      reads this`sessionStarted, this`state, this`connections, host`sockets, host`peer
    {
      && sessionStarted == was.session && state == was.state && connections == was.connections
      && host.sockets == was.sockets && host.peer == was.peer
    }

    twostate predicate SameLine()
      reads this`sessionStarted, this`state, this`connections, host`sockets, host`peer
    {
      && sessionStarted == old(sessionStarted) && state == old(state) && connections == old(connections)
      && host.sockets == old(host.sockets) && host.peer == old(host.peer)
    }

    // A failed call: its error, and nothing open.
    ghost predicate GaveUp(was: Was, code: byte)
      reads this`command, this`length, this`connections, data, host`sockets, host`peer
    {
      && FailedFrom(was, code) && connections == [false, false] && host.sockets == [Closed, Closed]
      && host.peer == was.peer
    }

    // The host has answered this since.
    twostate predicate Heard(news: seq<Said>)
      reads host`said
    {
      host.said == old(host.said) + news
    }

    constructor (host: Host, relay: RelayClient, dns: DnsBuffer)
      requires host.AllClosed() && !host.broken && relay.Valid() && dns.Valid() && relay.data != dns.data
      ensures Consistent() && !sessionStarted && !parsed && orderly
      ensures this.host == host && this.relay == relay && this.dns == dns && fresh(data)
    {
      this.host, this.relay, this.dns := host, relay, dns;
      sessionStarted, mode32, state, connections, dns2Use, fetchActive := false, false, Idle, [false, false],
        false, false;
      orderly, clash := true, false;
      dns1, dns2, parsed, command, length, processing := NoAddr, NoAddr, false, 0, 0, 0;
      processingData, processingAddr, device, unmetered := [0, 0, 0, 0], NoAddr, BLUE, false;
      configDns1, configDns2, configRelay, configPort, dnsId := NoAddr, NoAddr, NoAddr, 1027, 0;
      data := new byte[0xFF];
    }

    method Error(code: byte)
      requires data.Length == 0xFF
      modifies this`command, this`length, data
      ensures Failed(code)
    {
      var was := command;
      command := ERROR;
      data[0], data[1] := was, code;
      length := 2;
    }

    // An error that leaves all but the packet alone.
    method Refuse(code: byte)
      requires Consistent() && parsed && (processing == 0 || command !in {TEL, WAIT_CALL, TCP_CONNECT, DNS_REQUEST})
      modifies this`command, this`length, data
      ensures Rests() && Failed(code)
    {
      Buffers();
      hide Consistent, Rests;
      Error(code);
      OnlyReplied();
    }

    // ---------- Sessions and hanging up ----------

    // do_ppp_disconnect
    method DoPppDisconnect() returns (done: bool)
      requires Shape() && (state == Internet ==> LineHolds(NoJob) || LineHolds(Current()))
      modifies this`state, this`connections, host`sockets
      ensures Shape() && done == (old(state) == Internet)
      ensures if done then state == CallIsp && connections == [false, false] && Own() == [Closed, Closed]
                           && LineHolds(NoJob)
              else state == old(state) && connections == old(connections) && host.sockets == old(host.sockets)
    {
      if state != Internet {
        return false;
      }
      CloseAll();
      state := CallIsp;
      return true;
    }

    // The loop over the connections.
    method CloseAll()
      requires Shape() && Mirrored() && (fetchActive ==> Fetches())
      modifies this`connections, host`sockets
      ensures Shape() && Mirrored() && connections == [false, false] && (fetchActive ==> Fetches())
    {
      hide Midway;
      var conn := 0;
      while conn < MAX_CONNECTIONS
        invariant 0 <= conn <= MAX_CONNECTIONS && Shape() && Mirrored()
        invariant fetchActive ==> host.sockets[0] == old(host.sockets[0])
        invariant forall i | 0 <= i < conn :: !connections[i]
      {
        if connections[conn] {
          assert conn == 0 || conn == 1;
          host.Close(conn);
          connections := connections[conn := false];
        }
        conn := conn + 1;
      }
    }

    // do_offline
    method DoOffline() returns (done: bool)
      requires Shape() && (Waitable(state) || LineHolds(NoJob) || LineHolds(Current()))
      modifies this`state, this`connections, host`sockets, host`peer
      ensures Shape() && done == (old(state) in {Call, CallRecv, CallIsp, Internet})
      ensures if done then state == Idle && connections == [false, false] && Own() == [Closed, Closed]
                           && LineHolds(NoJob) && host.peer == None
              else state == old(state) && connections == old(connections) && host.sockets == old(host.sockets)
                   && host.peer == old(host.peer)
    {
      var _ := DoPppDisconnect();
      if state != Call && state != CallRecv && state != CallIsp {
        return false;
      }
      host.ReportPeer(None);
      if connections[0] {
        host.Close(0);
        connections := connections[0 := false];
      }
      state := Idle;
      return true;
    }

    // A line on which no call is up: nothing but socket 0 can be open, or left marked.
    ghost predicate HungUp()
      reads this`connections, this`processingData, this`orderly, this`fetchActive, this`clash, this`state
      reads this`configRelay, relay.data, relay`state, relay`processing
      reads host`sockets, host`incoming, host`accepted, host`broken, relay`size, relay`token, dns`size
    {
      && Shape() && Sound() && Waitable(state) && !connections[1] && host.sockets[1] == Closed
      && (fetchActive ==> Fetches())
      && if !connections[0] then orderly && Own()[0] == Closed && state in {Idle, WaitTimeout}
         else orderly == (!fetchActive && host.sockets[0] != Closed)
    }

    /** do_end_session: no socket of the commands survives it, whatever it interrupts.  A socket
        left by waiting or dialling is closed but stays marked in `connections`, which only the
        next session clears; it is closed once more if it was left so before. */
    method DoEndSession()
      requires Shape() && Sound() && if orderly then LineHolds(Current()) else LeftOver()
      modifies this`state, this`connections, this`sessionStarted, this`mode32, this`orderly, this`clash
      modifies host`sockets, host`peer, host`broken
      ensures SessionEnded(old(orderly))
      ensures if old(state) in {Call, CallRecv, CallIsp, Internet}
              then state == Idle && connections == [false, false] && host.peer == None
              else state == old(state) && connections == old(connections) && host.peer == old(host.peer)
    {
      HangUp();
      CloseLeft();
    }

    // What do_end_session leaves, on a line that was in order or not.
    ghost predicate SessionEnded(wasOrderly: bool)
      reads this`connections, this`processingData, this`orderly, this`fetchActive, this`clash, this`state
      reads this`sessionStarted, this`mode32, this`configRelay, relay.data, relay`state, relay`processing
      reads this`dns2Use, this`lastGood, this`processingAddr
      reads host`sockets, host`incoming, host`accepted, host`broken, relay`size, relay`token, dns`size
    {
      && Shape() && Own() == [Closed, Closed] && !sessionStarted && !mode32
      && orderly == Mirrored() == !connections[0] && Waitable(state) && !connections[1]
      && host.broken == (!wasOrderly && !fetchActive) && clash == (!wasOrderly && fetchActive)
      && (fetchActive ==> clash == (host.sockets[0] == Closed))
      && (Sound() ==> if orderly then LineHolds(NoJob) else LeftOver())
    }

    // Its do_offline
    method HangUp()
      requires Shape() && Sound() && if orderly then LineHolds(Current()) else LeftOver()
      modifies this`state, this`connections, host`sockets, host`peer
      ensures HungUp()
      ensures if old(state) in {Call, CallRecv, CallIsp, Internet}
              then state == Idle && connections == [false, false] && host.peer == None
              else state == old(state) && connections == old(connections) && host.peer == old(host.peer)
    {
      var _ := DoOffline();
    }

    // The rest of it
    method CloseLeft()
      requires HungUp()
      modifies this`sessionStarted, this`mode32, this`orderly, this`clash, host`sockets, host`broken
      ensures SessionEnded(old(orderly))
    {
      if connections[0] {
        clash := fetchActive;
        host.CloseUnchecked(0);
      }
      sessionStarted, mode32 := false, false;
      orderly := !connections[0];
    }

    // mobile_number_fetch_cancel
    method NumberFetchCancel()
      requires host.Valid()
      modifies this`fetchActive, host`sockets, host`broken
      ensures host.Valid() && !fetchActive && host.sockets == old(Own())
      ensures host.broken == (old(host.broken) || old(fetchActive && host.sockets[0] == Closed))
    {
      if fetchActive {
        host.CloseUnchecked(0);
        fetchActive := false;
      }
    }

    /** do_start_session: a session has socket 0 to itself, but what is open stays open, and
        nothing says so any more. */
    method DoStartSession()
      requires Shape()
      modifies this`state, this`connections, this`sessionStarted, this`fetchActive, this`orderly
      modifies host`sockets, host`broken
      ensures Shape() && sessionStarted && state == Idle && connections == [false, false] && !fetchActive
      ensures host.sockets == old(Own()) && orderly == Mirrored()
      ensures Mirrored() <==> old(Own()) == [Closed, Closed]
      ensures host.broken == (old(host.broken) || old(fetchActive && host.sockets[0] == Closed))
      ensures Sound() && Mirrored() ==> Rests()
    {
      sessionStarted := true;
      state := Idle;
      connections := [false, false];
      NumberFetchCancel();
      orderly := Mirrored();
    }

    /** mobile_commands_reset, and mobile_reset's hold on the parsed packet: outside a session a
        command that is dropped leaves its socket as it is. */
    method Reset()
      requires Consistent()
      modifies this`state, this`connections, this`sessionStarted, this`mode32, this`parsed, this`orderly, this`clash
      modifies host`sockets, host`peer, host`broken
      ensures Shape() && Sound() && !sessionStarted && !parsed
      ensures Consistent() <==> old(sessionStarted || !orderly || LineHolds(NoJob))
      ensures if old(sessionStarted) then Own() == [Closed, Closed] else host.sockets == old(host.sockets)
    {
      if sessionStarted {
        DoEndSession();
      }
      parsed := false;
    }

    // What comes of START.
    twostate predicate Started()
      reads this`sessionStarted, this`state, this`connections, this`device, this`fetchActive, this`command
      reads this`length, data, host`sockets, host`peer
      requires data.Length == 0xFF && |old(host.sockets)| == MAX_CONNECTIONS
    {
      if old(sessionStarted) then Failed(1) && SameLine() && fetchActive == old(fetchActive)
      else if Welcome(device, old(data[..length])) then
        && command == old(command) && data[..] == old(data[..]) && sessionStarted && state == Idle
        && connections == [false, false] && host.sockets == old(Own()) && !fetchActive
        && length == if old(data[..length]) == HAPPY then 32 else 8
      else Failed(2) && SameLine() && fetchActive == old(fetchActive)
    }

    // command_start
    method Start()
      requires Handling(START)
      modifies this`sessionStarted, this`state, this`connections, this`command, this`length, this`fetchActive
      modifies this`orderly, data, host`sockets, host`broken
      ensures Shape() && Sound() && Started()
      ensures Mirrored() || !sessionStarted <==> old(MayHandle())
      ensures old(MayHandle()) ==> Rests()
    {
      FetchSocket();
      OrderlyExactly();
      hide Consistent, Rests;
      if sessionStarted {
        Refuse(1);
      } else {
        StartNew();
      }
    }

    // The same outside a session
    method StartNew()
      requires Handling(START) && !sessionStarted && Shape() && Sound()
      modifies this`sessionStarted, this`state, this`connections, this`command, this`length, this`fetchActive
      modifies this`orderly, data, host`sockets, host`broken
      ensures Shape() && Sound() && Started()
      ensures Mirrored() || !sessionStarted <==> old(MayHandle())
      ensures old(MayHandle()) ==> Rests()
    {
      FetchSocket();
      hide Consistent, Rests;
      var welcome := Greeted();
      if welcome {
        DoStartSession();
      } else {
        Refuse(2);
      }
    }

    // The greeting in a START packet; what follows it does not matter to a red adapter.
    method Greeted() returns (yes: bool)
      requires data.Length == 0xFF
      modifies this`length
      ensures yes == Welcome(device, data[..old(length)])
      ensures length == if yes && data[..old(length)] != HAPPY then 8 else old(length)
    {
      if length == 32 && data[..32] == HAPPY {
        return true;
      }
      if device != RED {
        if length != 8 {
          return false;
        }
      } else {
        if length < 8 {
          return false;
        }
        assert data[..length][..8] == data[..8];
      }
      yes := data[..8] == NINTENDO;
      if yes {
        length := 8;
      }
    }

    // What comes of END.
    twostate predicate Ended()
      reads this`sessionStarted, this`mode32, this`fetchActive, this`command, this`length, host`sockets, host`peer
      requires |host.sockets| == MAX_CONNECTIONS
    {
      Answered() && !sessionStarted && !mode32 && Own() == [Closed, Closed] && PartyLeft()
    }

    // Hanging up a call, or leaving the internet, reports that there is no other party.
    twostate predicate PartyLeft()
      reads host`peer
    {
      host.peer == if old(state) in {Call, CallRecv, CallIsp, Internet} then None else old(host.peer)
    }

    lemma EndsWell()
      requires Consistent() && parsed && command in {END, REINIT}
      ensures Shape() && Sound() && (if orderly then LineHolds(Current()) else LeftOver())
      ensures orderly <==> MayHandle()
    {
      hide JobHolds, Midway;
      OrderlyExactly();
    }

    /** command_end.  Outside a session it closes socket 0 once more if a flag is left over: then
        the contract is broken, or a fetch loses its socket. */
    method End()
      requires Handling(END)
      modifies this`sessionStarted, this`mode32, this`state, this`connections, this`length, this`orderly, this`clash
      modifies host`sockets, host`peer, host`broken
      ensures Shape() && Ended()
      ensures Waitable(state)
              && connections[0] == (old(state) !in {Call, CallRecv, CallIsp, Internet} && old(connections)[0])
      ensures (Sound() <==> old(MayHandle())) && (clash ==> fetchActive) && (Sound() ==> Rests())
    {
      EndsWell();
      DoEndSession();
      length := 0;
    }

    // What comes of REINIT.
    twostate predicate Reinitialised()
      reads this`sessionStarted, this`mode32, this`state, this`connections, this`command, this`length
      reads host`sockets, host`peer
    {
      && Answered() && sessionStarted && !mode32 && state == Idle && connections == [false, false]
      && host.sockets == [Closed, Closed] && PartyLeft()
    }

    // command_reinit
    method Reinit()
      requires Handling(REINIT)
      modifies this`sessionStarted, this`mode32, this`state, this`connections, this`length, this`fetchActive
      modifies this`orderly, this`clash, host`sockets, host`peer, host`broken
      ensures Shape() && Reinitialised()
      ensures (Sound() <==> old(MayHandle())) && (!old(fetchActive) ==> !clash) && (Sound() ==> Rests())
    {
      EndsWell();
      hide Consistent, Rests, LineHolds, LeftOver, MayHandle;
      Restart();
      length := 0;
    }

    method Restart()
      requires Shape() && Sound() && if orderly then LineHolds(Current()) else LeftOver()
      modifies this`sessionStarted, this`mode32, this`state, this`connections, this`fetchActive, this`orderly
      modifies this`clash, host`sockets, host`peer, host`broken
      ensures Shape() && sessionStarted && !mode32 && state == Idle && connections == [false, false]
      ensures host.sockets == [Closed, Closed] && PartyLeft()
      ensures (Sound() <==> old(orderly)) && (!old(fetchActive) ==> !clash) && (Sound() ==> Rests())
    {
      DoEndSession();
      hide LineHolds, LeftOver, Rests;
      DoStartSession();
    }

    // What comes of OFFLINE.
    twostate predicate WentOffline()
      reads this`sessionStarted, this`state, this`connections, this`fetchActive, this`command, this`length, data
      reads host`sockets, host`peer
      requires data.Length == 0xFF && |host.sockets| == MAX_CONNECTIONS
    {
      if old(state) in {Call, CallRecv, CallIsp, Internet} then
        && Answered() && state == Idle && connections == [false, false] && Own() == [Closed, Closed]
        && host.peer == None
      else Failed(1) && SameLine()
    }

    // command_offline
    method Offline()
      requires Handling(OFFLINE)
      modifies this`state, this`connections, this`command, this`length, data, host`sockets, host`peer
      ensures Rests() && host.Valid() && WentOffline()
    {
      HangsUp();
      hide Consistent, Rests, LineHolds;
      var done := DoOffline();
      if !done {
        Error(1);
        OnlyReplied();
        return;
      }
      length := 0;
      LineRests();
    }

    // A line that is not waiting is in order.
    lemma HangsUp()
      requires Consistent() && parsed && command !in {TEL, WAIT_CALL, TCP_CONNECT, DNS_REQUEST}
      ensures Shape()
      ensures Waitable(state) || (Settled() && LineHolds(NoJob) && Mirrored())
    {
      hide JobHolds, Midway;
    }

    // What comes of PPP_DISCONNECT.
    twostate predicate LoggedOut()
      reads this`sessionStarted, this`state, this`connections, this`fetchActive, this`command, this`length, data
      reads host`sockets, host`peer
      requires data.Length == 0xFF && |host.sockets| == MAX_CONNECTIONS
    {
      if old(state) == Internet then
        Answered() && state == CallIsp && connections == [false, false] && Own() == [Closed, Closed]
      else Failed(1) && SameLine()
    }

    // command_ppp_disconnect
    method PppDisconnect()
      requires Handling(PPP_DISCONNECT)
      modifies this`state, this`connections, this`command, this`length, data, host`sockets
      ensures Rests() && host.Valid() && LoggedOut()
    {
      HangsUp();
      hide Consistent, Rests, LineHolds;
      var done := DoPppDisconnect();
      if !done {
        Error(1);
        OnlyReplied();
        return;
      }
      length := 0;
      LineRests();
    }

    // What comes of CHANGE_CLOCK.
    twostate predicate ClockSet()
      reads this`mode32, this`sessionStarted, this`state, this`connections, this`command, this`length, data
      reads host`sockets, host`peer
      requires data.Length == 0xFF
    {
      && SameLine()
      && if old(length) >= 1 && old(data[0]) in {0, 1} then Answered() && mode32 == (old(data[0]) == 1)
         else Failed(2) && mode32 == old(mode32)
    }

    // command_change_clock
    method ChangeClock()
      requires Handling(CHANGE_CLOCK)
      modifies this`mode32, this`command, this`length, data
      ensures Rests() && ClockSet()
    {
      Buffers();
      hide Consistent, Rests;
      if length < 1 || (data[0] != 0 && data[0] != 1) {
        Refuse(2);
        return;
      }
      mode32 := data[0] == 1;
      length := 0;
      OnlyReplied();
    }

    // ---------- Calling ----------

    // Keeps what can be dialled of the first 0x20 characters of the number, in place.
    method FilterNumber()
      requires Shape() && length >= 1
      modifies this`length, data
      ensures length == |Number()| + 1 && Number() == Dialled(FirstOf(old(data[1..length])))
      ensures |Number()| <= MAX_DIALLED
    {
      ghost var all := data[1..length];
      var w: nat := 1;
      var i := 0;
      var count: int := length - 1;
      while i < count && i < MAX_DIALLED
        invariant 0 <= i <= count && i <= MAX_DIALLED && 1 <= w <= i + 1
        invariant data[1..w] == Dialled(all[..i])
        invariant forall k | i < k < 0xFF :: data[k] == old(data[k])
      {
        var c := data[i + 1];
        assert c == all[i] && all[..i + 1][..i] == all[..i];
        if Dialable(c) {
          data[w] := c;
          w := w + 1;
          assert data[1..w] == data[1..w - 1] + [c];
        }
        i := i + 1;
      }
      assert all[..i] == FirstOf(all);
      data[w] := 0;
      length := w;
    }

    // Whether the number is an internet provider's.
    method IsIspNumber() returns (yes: bool)
      requires Shape() && length >= 1
      ensures yes <==> Number() in ISP_NUMBERS
    {
      var i := 0;
      while i < |ISP_NUMBERS|
        invariant 0 <= i <= |ISP_NUMBERS|
        invariant forall k | 0 <= k < i :: Number() != ISP_NUMBERS[k]
      {
        if length as int - 1 == |ISP_NUMBERS[i]| && data[1..length] == ISP_NUMBERS[i] {
          return true;
        }
        i := i + 1;
      }
      return false;
    }

    // There is a way to call this number: the relay, or the address that it spells.
    ghost predicate CanCall(number: seq<byte>)
      reads this`configRelay
    {
      configRelay != NoAddr || SpellsAddress(number)
    }

    // What the host answers to it.
    ghost function PlaceSaid(number: seq<byte>, send: bool): seq<Said>
      reads this`configRelay
    {
      if CanCall(number) then [OpenSaid(0, !send)] else []
    }

    // The call to `number` that later polls are to make.
    ghost predicate DialledOn(number: seq<byte>)
      reads this`configRelay, this`configPort, this`processing, this`processingAddr, this`connections, this`length
      reads data
    {
      && data.Length == 0xFF && CanCall(number) && Number() == number && connections == [true, false]
      && processing == (if configRelay == NoAddr then 1 else 2)
      && processingAddr == if configRelay != NoAddr then configRelay else Addr4(configPort, SpelledAddress(number))
    }

    // What comes of dialling a number that is not a provider's, with the command `c`.
    ghost predicate Placed(c: byte, number: seq<byte>, send: bool)
      reads this`configRelay, this`configPort, this`processing, this`processingAddr, this`connections
      reads this`fetchActive, this`command, this`length, data, host`sockets, host`peer
      requires |host.sockets| == MAX_CONNECTIONS
    {
      if send then FailedAs(c, 3) && Own() == [Closed, Closed]
      else command == c && DialledOn(number)
    }

    // About to dial, from a line that is idle.
    ghost predicate ToDial()
      reads this`connections, this`state, this`orderly, this`fetchActive, this`parsed, this`command, this`processing
      reads this`processingData, this`sessionStarted, this`clash
      reads host`sockets, host`incoming, host`accepted, host`broken, relay`size, relay`token, dns`size
    {
      && Settled() && connections == [false, false] && state == Idle && Own() == [Closed, Closed]
      && (fetchActive ==> host.sockets[0] != Closed) && parsed && command == TEL && processing == 0
    }

    // Where the call to `number` is to go, and at what stage of processing it is made.
    ghost predicate CallGoes(number: seq<byte>, stage: byte)
      reads this`configRelay, this`configPort, this`processingAddr
    {
      && CanCall(number) && stage == (if configRelay == NoAddr then 1 else 2)
      && processingAddr == if configRelay != NoAddr then configRelay else Addr4(configPort, SpelledAddress(number))
    }

    // With nothing open, an idle line is in order.
    lemma IdleRests()
      requires Settled() && connections == [false, false] && Own() == [Closed, Closed] && (fetchActive ==> Fetches())
      requires state in {Idle, CallIsp, WaitTimeout}
      ensures Rests()
    {
    }

    // A call that is up is in order.
    lemma CallRests()
      requires Alone() && connections == [true, false] && state in {Call, CallRecv}
      requires Streaming(host.sockets[0]) && host.sockets[1] == Closed
      ensures Rests()
    {
    }

    // What is known while the line is being dialled.
    ghost predicate Dials()
      reads this`connections, this`state, this`orderly, this`fetchActive, this`parsed, this`command, this`processing
      reads this`length, this`processingData, this`processingAddr, this`clash, data, relay.data
      reads host`sockets, host`incoming, host`accepted, host`broken
      reads relay`state, relay`processing, relay`size, relay`token, dns`size, dns`id, dns`qtype
    {
      && Alone() && parsed && command == TEL && length >= 1
      && connections == [true, false] && state == Idle && host.sockets[1] == Closed && host.sockets[0].Tcp?
      && (processing == 1 || processing == 2)
      && (processing == 1 ==> Connectable(host.sockets[0], processingAddr))
      && (processing == 2 ==> Midway(Calling(Number()), relay.Now()) && relay.Ready(host, 0, processingAddr))
    }

    lemma DialsExactly()
      requires parsed && command == TEL && processing != 0
      ensures Processing(TEL) ==> Dials()
      ensures Dials() ==> Consistent()
    {
    }

    lemma CallOpened(stage: byte)
      requires Alone() && parsed && command == TEL && length >= 1 && processing == stage
      requires connections == [true, false] && state == Idle && processingAddr != NoAddr
      requires host.sockets == [Tcp(processingAddr.Addr6?, Fresh), Closed]
      requires stage == 1 || (stage == 2 && relay.state == Disconnected && relay.processing == 0)
      ensures Consistent()
    {
    }

    /** Opens socket 0 towards processing_addr; the call itself is made by later polls.  The
        socket must not be the one of a fetch. */
    method OpenCall(stage: byte) returns (send: bool)
      requires ToDial() && length >= 1 && CallGoes(Number(), stage)
      requires stage == 1 || (stage == 2 && relay.state == Disconnected && relay.processing == 0)
      modifies this`connections, this`processing, this`command, this`length, data, host`sockets, host`incoming
      modifies host`accepted, host`said, host`broken
      ensures Shape() && !clash && (Sound() <==> !fetchActive)
      ensures Sound() ==> if send then Rests() else Consistent() && command == TEL
      ensures Sound() ==> Heard([OpenSaid(0, !send)]) && Placed(TEL, old(Number()), send) && state == Idle
                          && host.peer == old(host.peer)
    {
      hide Consistent, Rests, SpellsAddress, SpelledAddress;
      var ok := host.OpenUnchecked(0, false, processingAddr.Addr6?, 0);
      if host.broken {
        return true;
      }
      if !ok {
        Error(3);
        IdleRests();
        return true;
      }
      connections := connections[0 := true];
      processing := stage;
      CallOpened(stage);
      return false;
    }

    // The end of command_tel_begin: through the relay if there is one, else to the address
    // that the number spells.
    method PlaceCall() returns (send: bool)
      requires ToDial() && length >= 1 && (fetchActive ==> Fetches())
      modifies this`processingAddr, this`connections, this`processing, this`command, this`length
      modifies data, host`sockets, host`incoming, host`accepted, host`said, host`broken, relay`state, relay`processing
      ensures Shape() && !clash && (Sound() <==> !(fetchActive && CanCall(old(Number()))))
      ensures Sound() ==> if send then Rests() else Consistent() && command == TEL
      ensures Sound() ==> Heard(PlaceSaid(old(Number()), send)) && Placed(TEL, old(Number()), send)
                          && state == Idle && host.peer == old(host.peer)
    {
      hide SpellsAddress, SpelledAddress, Consistent, Rests, DialledOn;
      ghost var number := Number();
      if configRelay != NoAddr {
        processingAddr := configRelay;
        relay.Init();
        send := OpenCall(2);
        return;
      }
      if length == 1 + 3 * 4 {
        var spelled := ParsePhoneAddr(data, 1);
        if spelled.Some? {
          processingAddr := Addr4(configPort, spelled.value);
          send := OpenCall(1);
          return;
        }
      }
      NotTwelve(number);
      Error(3);
      IdleRests();
      send := true;
    }

    // What comes of dialling a number, and what the host answers.
    ghost predicate DialDone(c: byte, number: seq<byte>, send: bool)
      reads this`configRelay, this`configPort, this`processing, this`processingAddr, this`connections, this`state
      reads this`fetchActive, this`command, this`length, data, host`sockets, host`peer
      requires |host.sockets| == MAX_CONNECTIONS
    {
      if number in ISP_NUMBERS then
        && send && command == c && length == 0 && state == CallIsp && Own() == [Closed, Closed]
        && host.peer == Some(number)
      else state == Idle && Placed(c, number, send)
    }

    ghost function DialSaid(number: seq<byte>, send: bool): seq<Said>
      reads this`configRelay
    {
      if number in ISP_NUMBERS then [] else PlaceSaid(number, send)
    }

    // An internet provider's number connects at once.
    method CallProvider()
      requires ToDial() && length >= 1 && Number() in ISP_NUMBERS && (fetchActive ==> Fetches())
      modifies this`length, this`state, host`peer
      ensures Rests() && Shape() && DialDone(TEL, old(Number()), true)
    {
      hide Rests;
      if length as int - 1 <= MAX_NUMBER {
        host.ReportPeer(Some(data[1..length]));
      }
      state := CallIsp;
      length := 0;
      IdleRests();
    }

    // The middle of command_tel_begin
    method Dial() returns (send: bool)
      requires ToDial() && length >= 1 && (fetchActive ==> Fetches())
      modifies this`processingAddr, this`connections, this`processing, this`command, this`length, this`state
      modifies data, host`sockets, host`incoming, host`accepted, host`said, host`peer, host`broken
      modifies relay`state, relay`processing
      ensures var number := Dialled(FirstOf(old(Number())));
              && Shape() && !clash && (Sound() <==> !(fetchActive && number !in ISP_NUMBERS && CanCall(number)))
              && (Sound() ==> if send then Rests() else Consistent() && command == TEL)
              && (Sound() ==> Heard(DialSaid(number, send)) && DialDone(TEL, number, send))
              && (Sound() && number !in ISP_NUMBERS ==> host.peer == old(host.peer))
    {
      hide Dialled, FirstOf, Consistent, Rests, PlaceSaid, Placed;
      FilterNumber();
      var isp := IsIspNumber();
      if isp {
        CallProvider();
        send := true;
      } else {
        send := PlaceCall();
      }
    }

    // What comes of the first poll of TEL.
    twostate predicate TelBegun(send: bool)
      reads this`sessionStarted, this`configRelay, this`configPort, this`processing, this`processingAddr
      reads this`connections, this`state, this`command, this`length, this`device, this`fetchActive, data, host
      requires data.Length == 0xFF && |host.sockets| == MAX_CONNECTIONS
    {
      if !Waitable(old(state)) then send && Failed(1) && SameLine() && Heard([])
      else if old(length) == 0 then send && Failed(2) && SameLine() && Heard([])
      else if !DialByteOk(device, old(data[0])) then
        send && Failed(2) && state == Idle && Own() == [Closed, Closed] && host.peer == old(host.peer) && Heard([])
      else
        && (Dialled(FirstOf(old(Number()))) !in ISP_NUMBERS ==> host.peer == old(host.peer))
        && Heard(DialSaid(Dialled(FirstOf(old(Number()))), send))
        && DialDone(old(command), Dialled(FirstOf(old(Number()))), send)
    }

    /** Closing what WAIT_CALL may have left, as the flag of socket 0 has it.  If the flag is one
        that was left over, the contract is broken, or a fetch loses its socket. */
    method LeaveWait()
      requires HungUp()
      modifies this`connections, this`state, this`orderly, this`clash, host`sockets, host`broken
      ensures Shape() && connections == [false, false] && Own() == [Closed, Closed] && state == Idle && orderly
      ensures (Sound() <==> old(orderly)) && (clash ==> fetchActive)
      ensures Sound() && fetchActive ==> host.sockets == old(host.sockets)
    {
      if connections[0] {
        clash := fetchActive;
        host.CloseUnchecked(0);
        connections := connections[0 := false];
      }
      state := Idle;
      orderly := true;
    }

    lemma BeforeDialling()
      requires Handling(TEL) && processing == 0
      ensures Shape() && Sound() && (orderly <==> Mirrored()) && (sessionStarted ==> !fetchActive)
      ensures Waitable(state) ==> HungUp()
    {
      OrderlyExactly();
    }

    // command_tel_begin
    method TelBegin() returns (send: bool)
      requires Handling(TEL) && processing == 0
      modifies this`processingAddr, this`connections, this`processing, this`command, this`length, this`state
      modifies this`orderly, this`clash
      modifies data, host`sockets, host`incoming, host`accepted, host`said, host`peer, host`broken
      modifies relay`state, relay`processing
      ensures Shape() && (Sound() <==> old(MayHandle())) && (clash ==> fetchActive) && (old(orderly) ==> orderly)
      ensures Sound() ==> (if send then Rests() else Consistent() && command == TEL) && TelBegun(send)
    {
      hide PlacesCall, TelBegun, Rests, Consistent;
      BeforeDialling();
      if !Waitable(state) || length < 1 {
        RefuseTel();
        send := true;
      } else {
        send := HangUpAndDial();
      }
    }

    method RefuseTel()
      requires Handling(TEL) && processing == 0 && Shape() && (!Waitable(state) || length < 1)
      modifies this`command, this`length, data
      ensures Rests() && Shape() && TelBegun(true)
    {
      hide Rests, Consistent;
      if !Waitable(state) {
        Refuse(1);
      } else {
        Refuse(2);
      }
    }

    // The rest of it
    method HangUpAndDial() returns (send: bool)
      requires HungUp() && (sessionStarted ==> !fetchActive) && parsed && command == TEL && processing == 0
      requires length >= 1
      modifies this`processingAddr, this`connections, this`processing, this`command, this`length, this`state
      modifies this`orderly, this`clash
      modifies data, host`sockets, host`incoming, host`accepted, host`said, host`peer, host`broken
      modifies relay`state, relay`processing
      ensures Shape() && (Sound() <==> old(orderly && !(fetchActive && PlacesCall()))) && (clash ==> fetchActive)
      ensures orderly && (Sound() ==> (if send then Rests() else Consistent() && command == TEL) && TelBegun(send))
    {
      hide Midway, Dialled, FirstOf, DialByteOk, DialDone, DialSaid, Rests, Consistent;
      LeaveWait();
      if !Sound() {
        return true;
      }
      if DialByteOk(device, data[0]) {
        send := Dial();
      } else {
        Error(2);
        IdleRests();
        send := true;
      }
    }

    // Hanging up on a failed call.
    method GiveUpCall(code: byte)
      requires Shape() && Mirrored() && connections == [true, false]
      modifies this`connections, this`command, this`length, data, host`sockets
      ensures Shape() && GaveUp(old(Snapshot()), code)
    {
      host.Close(0);
      connections := connections[0 := false];
      Error(code);
    }

    // What comes of an attempt to connect that gave rc.
    ghost predicate TelIpDone(was: Was, send: bool, rc: int)
      reads this`command, this`length, this`connections, this`state, data, host`sockets, host`peer
    {
      if rc == 0 then !send && PacketKept(was) && state == Idle && host.peer == was.peer
      else if rc < 0 then send && GaveUp(was, 3) && state == Idle
      else send && AnsweredFrom(was) && state == Call && host.peer == Reported(was)
    }

    // The number that is reported when a call to an address is connected.
    ghost function Reported(was: Was): Option<seq<byte>> {
      if |Rest(was)| <= MAX_NUMBER then Some(Rest(was)) else was.peer
    }

    // command_tel_ip
    method TelIp() returns (send: bool, ghost rc: int)
      requires Dials() && processing == 1
      modifies this`connections, this`command, this`length, this`state, data, host`sockets, host`said, host`peer
      ensures Shape() && Sound() && if send then Rests() else Consistent() && command == TEL
      ensures Heard([ConnectSaid(rc)]) && TelIpDone(old(Snapshot()), send, rc)
    {
      hide Consistent, Rests;
      assert Mirrored();
      var connected := host.Connect(0, processingAddr);
      rc := connected;
      if connected == 0 {
        DialsExactly();
        return false, rc;
      }
      if connected < 0 {
        GiveUpCall(3);
        IdleRests();
        return true, rc;
      }
      CallUp();
      return true, rc;
    }

    // The call to an address is connected, and its number is reported.
    method CallUp()
      requires Alone() && connections == [true, false] && length >= 1
      requires Streaming(host.sockets[0]) && host.sockets[1] == Closed
      modifies this`length, this`state, host`peer
      ensures Rests() && AnsweredFrom(old(Snapshot())) && state == Call && host.peer == Reported(old(Snapshot()))
    {
      hide Rests;
      assert data[1..length] == Rest(Snapshot());
      if length as int - 1 <= MAX_NUMBER {
        host.ReportPeer(Some(data[1..length]));
      }
      state := Call;
      length := 0;
      CallRests();
    }

    // What comes of a poll of the relay that gave rc.
    ghost predicate TelRelayDone(was: Was, send: bool, rc: int)
      reads this`command, this`length, this`connections, this`state, data, host`sockets, host`peer
    {
      if rc == 0 then !send && PacketKept(was) && state == Idle && host.peer == was.peer
      else if rc == 1 then send && AnsweredFrom(was) && state == Call && host.peer == Some(Rest(was))
      else send && GaveUp(was, if rc == 3 || rc == 4 then 0 else 3) && state == Idle
    }

    // command_tel_relay
    method TelRelay() returns (send: bool, ghost rc: int, ghost a: Answers)
      requires Dials() && processing == 2
      modifies this`connections, this`command, this`length, this`state, data, host, relay, relay.data
      ensures Shape() && Sound() && if send then Rests() else Consistent() && command == TEL
      ensures Polled(relay.Seen(host, 0), rc) == ProcCallPoll(old(relay.Seen(host, 0)), Rest(old(Snapshot())), a)
      ensures TelRelayDone(old(Snapshot()), send, rc)
    {
      hide Consistent, Rests, Midway, ProcCallPoll, TelRelayDone;
      var number := data[1..length];
      ghost var was := Snapshot();
      assert number == Rest(Snapshot());
      ghost var before := relay.Seen(host, 0);
      var result;
      MidwayNumber(number, relay.Now());
      result, a := relay.ProcCall(host, 0, processingAddr, number);
      rc := result;
      CallFacts(before, number, a);
      send := InterpretCall(was, result);
      if !send {
        DialsExactly();
      }
    }

    // The end of command_tel_relay, after a poll of the relay that gave `result`.
    method InterpretCall(ghost was: Was, result: int) returns (send: bool)
      requires Alone() && connections == [true, false] && state == Idle
      requires PacketKept(was) && host.peer == if result == 1 then Some(Rest(was)) else was.peer
      requires host.sockets[0].Tcp? && host.sockets[1] == Closed && (result > 0 ==> Streaming(host.sockets[0]))
      modifies this`connections, this`command, this`length, this`state, data, host`sockets
      ensures Shape() && (send ==> Rests()) && send == (result != 0)
      ensures !send ==> SameLine() && SamePacket()
      ensures TelRelayDone(was, send, result)
    {
      hide Rests;
      if result == 0 {
        return false;
      }
      if result != 1 {
        GiveUpCall(if result == 3 || result == 4 then 0 else 3);
        IdleRests();
        return true;
      }
      state := Call;
      length := 0;
      CallRests();
      return true;
    }

    // Whether a minute has passed since the call was begun, in which case it is given up.
    method CallTooLate() returns (late: bool)
      requires Shape() && Mirrored() && connections == [true, false]
      modifies this`connections, this`command, this`length, data, host`sockets, host`said
      ensures Shape() && Heard([TimerSaid(late)])
      ensures if late then GaveUp(old(Snapshot()), 3) else Snapshot() == old(Snapshot())
    {
      late := host.TimePassed();
      if late {
        GiveUpCall(3);
      }
    }

    /** What comes of a poll of TEL: at first the number is dialled; afterwards the timer is
        asked, and unless it has passed, the address or the relay. */
    twostate predicate TelDone(send: bool, late: bool, rc: int, a: Answers)
      reads this`sessionStarted, this`configRelay, this`configPort, this`processing, this`processingAddr
      reads this`connections, this`state, this`command, this`length, this`device, this`fetchActive
      reads data, host, relay, relay.data
      requires data.Length == 0xFF && host.Valid() && relay.Valid() && old(host.Valid() && relay.Valid())
    {
      if old(processing) == 0 then TelBegun(send)
      else if old(processing) == 1 then
        if late then Heard([TimerSaid(true)]) && send && GaveUp(old(Snapshot()), 3) && state == Idle
        else Heard([TimerSaid(false), ConnectSaid(rc)]) && TelIpDone(old(Snapshot()), send, rc)
      else RelayCallPolled(old(Snapshot()), old(relay.Seen(host, 0)), send, late, rc, a)
    }

    // What comes of a poll of a call through the relay.
    ghost predicate RelayCallPolled(was: Was, before: World, send: bool, late: bool, rc: int, a: Answers)
      reads this`command, this`length, this`connections, this`state, data, host, relay, relay.data
      requires host.Valid() && relay.Valid()
    {
      if late then host.said == before.said + [TimerSaid(true)] && send && GaveUp(was, 3) && state == Idle
      else
        && Polled(relay.Seen(host, 0), rc) == ProcCallPoll(Hear(before, TimerSaid(false)), Rest(was), a)
        && TelRelayDone(was, send, rc)
    }

    // command_tel
    method Tel() returns (send: bool, ghost late: bool, ghost rc: int, ghost a: Answers)
      requires Handling(TEL)
      modifies this`processingAddr, this`connections, this`processing, this`command, this`length, this`state
      modifies this`orderly, this`clash, data, host, relay, relay.data
      ensures Shape() && (clash ==> fetchActive)
      ensures Sound() <==> old(processing != 0 || MayHandle())
      ensures Sound() ==> if send then Rests() else Consistent() && command == TEL
      ensures old(orderly) ==> orderly
      ensures Sound() ==> TelDone(send, late, rc, a) && (old(processing) != 0 ==> processing == old(processing))
    {
      hide Consistent, Rests, MayHandle, TelBegun, TelIpDone, TelRelayDone, RelayCallPolled;
      late, rc, a := false, 0, Answers(0, 0, 0, 0);
      if processing == 0 {
        send := TelBegin();
      } else {
        UnderWay();
        DialsExactly();
        send, late, rc, a := PollTel();
      }
    }

    // A command is only suspended with the flags in order.
    lemma UnderWay()
      requires Consistent() && parsed && processing != 0
      ensures Settled()
    {
    }

    // The later polls of command_tel.
    method PollTel() returns (send: bool, ghost late: bool, ghost rc: int, ghost a: Answers)
      requires Dials()
      modifies this`connections, this`command, this`length, this`state, data, host, relay, relay.data
      ensures Shape() && if send then Rests() else Consistent() && command == TEL
      ensures Sound() && !clash && TelDone(send, late, rc, a)
    {
      hide Consistent, Rests, Midway, ProcCallPoll, TelBegun, TelIpDone, TelRelayDone;
      rc, a := 0, Answers(0, 0, 0, 0);
      var passed := CallTooLate();
      late := passed;
      if passed {
        IdleRests();
        send := true;
      } else if processing == 1 {
        send, rc := TelIp();
      } else {
        send, rc, a := TelRelay();
      }
    }

    // ---------- Waiting for a call ----------

    // A wait that goes on: all but what the line says.
    ghost predicate Waits()
      reads this`connections, this`orderly, this`fetchActive, this`parsed, this`command, this`processing
      reads this`processingData, this`clash, host`sockets, host`incoming, host`accepted, host`broken
      reads relay`size, relay`token, dns`size
    {
      Alone() && parsed && command == WAIT_CALL && processing == 1
    }

    lemma WaitsExactly()
      ensures Consistent() && Waits() && state in {Wait, WaitRelay} ==> LineHolds(Awaited)
      ensures Waits() && state in {Wait, WaitRelay} && LineHolds(Awaited) ==> Consistent()
      ensures Consistent() && orderly && parsed && command == WAIT_CALL && processing == 1 ==> Waits()
    {
    }

    /** A wait is to be taken up or begun, where the line may also be one that has a flag left
        over, or on which a number is being fetched. */
    ghost predicate Resumes()
      reads this`connections, this`orderly, this`fetchActive, this`parsed, this`command, this`processing
      reads this`processingData, this`processingAddr, this`clash, this`state, this`sessionStarted, this`dns2Use
      reads this`lastGood, this`configRelay, relay.data
      reads host`sockets, host`incoming, host`accepted, host`broken
      reads relay`state, relay`processing, relay`size, relay`token, dns`size
    {
      && Shape() && Sound() && (sessionStarted ==> !fetchActive)
      && parsed && command == WAIT_CALL && processing == 1 && state in {Idle, Wait, WaitRelay}
      && if orderly then LineHolds(if state == Idle then NoJob else Awaited) else LeftOver()
    }

    lemma ResumesExactly()
      requires Resumes()
      ensures orderly && state != Idle ==> Waits() && LineHolds(Awaited) && connections == [true, false]
                                           && host.sockets[0] != Closed && host.sockets[1] == Closed
      ensures orderly && state == Idle ==> connections == [false, false] && Own() == [Closed, Closed]
      ensures !orderly ==> connections == [true, false] && Own() == [Closed, Closed] && !sessionStarted
      ensures fetchActive ==> host.sockets[0].Tcp? && host.sockets[0].stage != Listening
                              && relay.state != RecvWait
    {
    }

    // Nothing is open after a failed wait, and the next one waits out the timer first.
    ghost predicate TimedOut(connections: seq<bool>)
      reads this`state, this`connections, host`sockets
    {
      state == WaitTimeout && this.connections == connections && host.sockets == [Closed, Closed]
    }

    // About to begin to wait, with nothing open.
    ghost predicate Begins()
      reads this`connections, this`orderly, this`fetchActive, this`parsed, this`command, this`processing
      reads this`processingData, this`clash, this`state, this`sessionStarted
      reads host`sockets, host`incoming, host`accepted, host`broken, relay`size, relay`token, dns`size
    {
      && Shape() && Sound() && parsed && command == WAIT_CALL && processing == 1 && state == Idle
      && Own() == [Closed, Closed] && (fetchActive ==> host.sockets[0] != Closed)
      && if orderly then connections == [false, false] else connections == [true, false] && !sessionStarted
    }

    lemma BeginsExactly()
      requires Resumes() && state == Idle
      ensures Begins()
    {
      hide Midway;
    }

    // About to open the socket for it.
    ghost predicate ToWait()
      reads this`connections, this`state, this`fetchActive, this`processingData, this`clash
      reads host`sockets, host`incoming, host`accepted, host`broken, relay`size, relay`token, dns`size
    {
      && Shape() && Sound() && Own() == [Closed, Closed] && connections[1] == false && state == WaitTimeout
      && (fetchActive ==> host.sockets[0] != Closed)
    }

    // Listens for a call to socket 0, on the user's port.
    method Listen() returns (ok: bool, ghost bound: bool)
      requires ToWait()
      modifies this`connections, this`state, host`sockets, host`incoming, host`accepted, host`said, host`broken
      ensures Shape() && (Sound() <==> !fetchActive) && old(host.said) <= host.said
      ensures Sound() && ok ==> state == Wait && connections == [true, false] && LineHolds(Awaited)
      ensures Sound() && !ok ==> TimedOut(old(connections))
      ensures Sound() && ok ==> bound
      ensures Sound() ==>
                Heard(if bound then [OpenSaid(configPort, true), ListenSaid(ok)] else [OpenSaid(configPort, false)])
    {
      ok := host.OpenUnchecked(0, false, false, configPort);
      bound := ok;
      if ok && !host.broken {
        ok := host.Listen(0);
        if ok {
          connections := connections[0 := true];
          state := Wait;
        } else {
          host.Close(0);
        }
      }
    }

    // Opens socket 0 to wait for a call through the relay.
    method WaitAtRelay() returns (ok: bool)
      requires ToWait() && configRelay != NoAddr
      modifies this`connections, this`state, this`processingAddr, host`sockets, host`incoming, host`accepted
      modifies host`said, host`broken, relay`state, relay`processing
      ensures Shape() && (Sound() <==> !fetchActive) && processingAddr == configRelay && old(host.said) <= host.said
      ensures Sound() && ok ==> state == WaitRelay && connections == [true, false] && LineHolds(Awaited)
      ensures Sound() && !ok ==> TimedOut(old(connections))
      ensures Sound() ==> Heard([OpenSaid(0, ok)])
    {
      processingAddr := configRelay;
      relay.Init();
      ok := host.OpenUnchecked(0, false, processingAddr.Addr6?, 0);
      if ok && !host.broken {
        connections := connections[0 := true];
        state := WaitRelay;
      }
    }

    // What comes of beginning to wait: through the relay if there is one, else by listening.
    ghost predicate WaitBegun(was: Was, send: bool, bound: bool)
      reads this`configRelay, this`processingAddr, this`connections, this`state, this`command
      reads this`length, data, host`sockets, host`peer
    {
      && host.peer == was.peer && (configRelay == NoAddr && !bound ==> send)
      && (configRelay != NoAddr && !send ==> processingAddr == configRelay)
      && if send then FailedFrom(was, 0) && TimedOut(was.connections)
         else PacketKept(was) && connections == [true, false]
              && state == if configRelay != NoAddr then WaitRelay else Wait
    }

    // What the host answers to it.
    ghost function WaitSaid(send: bool, bound: bool): seq<Said>
      reads this`configRelay, this`configPort
    {
      if configRelay != NoAddr then [OpenSaid(0, !send)]
      else if bound then [OpenSaid(configPort, true), ListenSaid(!send)] else [OpenSaid(configPort, false)]
    }

    // Opens that socket, as command_wait_call_begin does.
    method OpenWait() returns (ok: bool, ghost bound: bool)
      requires ToWait()
      modifies this`connections, this`state, this`processingAddr, host`sockets, host`incoming, host`accepted
      modifies host`said, host`broken, relay`state, relay`processing
      ensures Shape() && (Sound() <==> !fetchActive) && old(host.said) <= host.said
      ensures Sound() && !ok ==> TimedOut(old(connections))
      ensures Sound() && ok ==>
                && connections == [true, false] && LineHolds(Awaited)
                && state == if configRelay != NoAddr then WaitRelay else Wait
      ensures Sound() ==> Heard(WaitSaid(!ok, bound)) && (configRelay == NoAddr && ok ==> bound)
      ensures configRelay != NoAddr ==> processingAddr == configRelay
    {
      hide LineHolds;
      if configRelay != NoAddr {
        ok := WaitAtRelay();
        bound := ok;
      } else {
        ok, bound := Listen();
      }
    }

    // command_wait_call_begin.  Socket 0 must not be the one of a fetch.
    method WaitCallBegin() returns (send: bool, ghost bound: bool)
      requires Begins()
      modifies this`processingAddr, this`connections, this`command, this`length, this`state, this`orderly
      modifies data, host`sockets, host`incoming, host`accepted, host`said, host`broken, relay`state, relay`processing
      ensures Shape() && !clash && (Sound() <==> !fetchActive) && old(host.said) <= host.said
      ensures old(orderly) ==> orderly
      ensures Sound() ==> if send then Rests() else Consistent() && command == WAIT_CALL
      ensures Sound() ==> Heard(WaitSaid(send, bound)) && WaitBegun(old(Snapshot()), send, bound)
    {
      hide LineHolds, LeftOver, Consistent, Rests, WaitSaid;
      state := WaitTimeout;
      var ok;
      ok, bound := OpenWait();
      send := !ok;
      if Sound() {
        EndBegin(ok, old(connections));
      }
    }

    // The end of command_wait_call_begin: a line with a flag left over is in order again.
    method EndBegin(ok: bool, ghost was: seq<bool>)
      requires Shape() && Sound() && !fetchActive && parsed && command == WAIT_CALL && processing == 1
      requires if ok then connections == [true, false] && LineHolds(Awaited) && state in {Wait, WaitRelay}
               else TimedOut(was) && if orderly then was == [false, false] else was == [true, false] && !sessionStarted
      modifies this`command, this`length, this`orderly, data
      ensures Shape() && Sound() && if ok then Consistent() && SamePacket() else Rests() && Failed(0)
      ensures old(orderly) ==> orderly
    {
      hide LineHolds, LeftOver, Consistent, Rests;
      if ok {
        orderly := true;
        WaitsExactly();
      } else {
        Error(0);
        TimedOutRests(was);
      }
    }

    lemma TimedOutRests(was: seq<bool>)
      requires Shape() && Sound() && !fetchActive && TimedOut(was)
      requires if orderly then was == [false, false] else was == [true, false] && !sessionStarted
      ensures Rests()
    {
    }

    // What comes of asking for a caller, of whom there was one if `send`.
    ghost predicate WaitIpDone(was: Was, send: bool)
      reads this`sessionStarted, this`connections, this`state, this`command, this`length, data, host`sockets
      reads host`peer
    {
      if send then AnsweredFrom(was) && state == CallRecv && host.peer == was.peer
        else LineKept(was) && PacketKept(was)
    }

    // command_wait_call_ip.  The socket must be the one that listens.
    method WaitCallIp() returns (send: bool)
      requires Resumes() && state == Wait
      modifies this`length, this`state, host`sockets, host`said, host`broken
      ensures Shape() && !clash && (Sound() <==> orderly) && old(host.said) <= host.said
      ensures Sound() ==> if send then Rests() else Consistent()
      ensures Sound() ==> Heard([AcceptSaid(send)]) && WaitIpDone(old(Snapshot()), send)
    {
      ResumesExactly();
      assert orderly ==> host.sockets == [Tcp(false, Listening), Closed] && connections == [true, false];
      hide Consistent, Rests;
      var ok := host.AcceptUnchecked(0);
      if host.broken {
        return false;
      }
      if !ok {
        WaitsExactly();
        return false;
      }
      state := CallRecv;
      length := 0;
      CallRests();
      return true;
    }

    // What comes of a poll of the relay that gave rc.
    ghost predicate WaitRelayDone(was: Was, send: bool, rc: int)
      reads this`connections, this`state, this`command, this`length, data, host`sockets, host`peer
    {
      if rc == 0 then !send && PacketKept(was) && state == WaitRelay && host.peer == was.peer
      else if rc == 1 then send && AnsweredFrom(was) && state == CallRecv && host.peer.Some?
      else send && GaveUp(was, 3) && state == WaitTimeout
    }

    // A resumed wait only listens: it never connects or asks again.
    ghost predicate OnlyListens(was: Was, before: World)
      reads relay`requests, host`sockets, host`peer
    {
      relay.requests == before.notes.requests && (host.sockets == [Closed, Closed] || host.sockets == was.sockets)
    }

    // command_wait_call_relay.  The socket must be open, and the relay client not fetching.
    method WaitCallRelay() returns (send: bool, ghost rc: int, ghost a: Answers)
      requires Resumes() && state == WaitRelay
      modifies this`connections, this`command, this`length, this`state, this`clash, data, host, relay, relay.data
      ensures Shape() && (clash ==> fetchActive) && (Sound() <==> orderly) && (!orderly ==> Heard([]))
      ensures Sound() ==> if send then Rests() else Consistent() && command == WAIT_CALL
      ensures Sound() ==> Polled(relay.Seen(host, 0), rc) == ProcWaitPoll(old(relay.Seen(host, 0)), a)
      ensures Sound() ==> WaitRelayDone(old(Snapshot()), send, rc)
      ensures Sound() && old(relay.state) == RecvWait ==> OnlyListens(old(Snapshot()), old(relay.Seen(host, 0)))
    {
      ResumesExactly();
      hide Midway, ProcWaitPoll, Consistent, Rests, OnlyListens, WaitRelayDone;
      send, rc, a := false, 0, Answers(0, 0, 0, 0);
      if fetchActive {
        clash := true;
      } else if host.sockets[0] == Closed {
        host.UseClosed(0);
      } else {
        RelayWaitsExactly();
        send, rc, a := PollRelay();
      }
    }

    // A wait at the relay.
    ghost predicate RelayWaits()
      reads this`connections, this`orderly, this`fetchActive, this`parsed, this`command, this`processing
      reads this`processingData, this`processingAddr, this`clash, this`state, relay.data
      reads host`sockets, host`incoming, host`accepted, host`broken
      reads relay`state, relay`processing, relay`size, relay`token, dns`size
    {
      && Waits() && state == WaitRelay && connections == [true, false] && host.sockets[1] == Closed
      && host.sockets[0].Tcp? && Midway(Awaiting, relay.Now()) && relay.Ready(host, 0, processingAddr)
    }

    lemma RelayWaitsExactly()
      requires Waits() && state == WaitRelay
      ensures LineHolds(Awaited) <==> RelayWaits()
      ensures RelayWaits() ==> Consistent()
    {
      hide Midway;
    }

    method PollRelay() returns (send: bool, ghost rc: int, ghost a: Answers)
      requires RelayWaits()
      modifies this`connections, this`command, this`length, this`state, data, host, relay, relay.data
      ensures Shape() && Sound() && if send then Rests() else Consistent() && command == WAIT_CALL
      ensures Polled(relay.Seen(host, 0), rc) == ProcWaitPoll(old(relay.Seen(host, 0)), a)
      ensures WaitRelayDone(old(Snapshot()), send, rc)
      ensures old(relay.state) == RecvWait ==> OnlyListens(old(Snapshot()), old(relay.Seen(host, 0)))
    {
      hide Midway, ProcWaitPoll, Consistent, Rests, LineHolds;
      ghost var before := relay.Seen(host, 0);
      NotLinked(before.c);
      var result;
      result, a := relay.ProcWait(host, 0, processingAddr);
      rc := result;
      WaitFacts(before, a);
      send := InterpretWait(result);
      if !send {
        RelayWaitsExactly();
      }
    }

    // The end of command_wait_call_relay, after a poll of the relay that gave `result`.
    method InterpretWait(result: int) returns (send: bool)
      requires Waits() && connections == [true, false] && state == WaitRelay && host.sockets[0].Tcp?
               && host.sockets[1] == Closed
      requires result > 0 ==> Streaming(host.sockets[0])
      requires result == 1 ==> host.peer.Some?
      modifies this`connections, this`command, this`length, this`state, data, host`sockets
      ensures Shape() && (send ==> Rests()) && WaitRelayDone(old(Snapshot()), send, result)
      ensures !send ==> SameLine() && SamePacket()
      ensures host.sockets == [Closed, Closed] || host.sockets == old(host.sockets)
    {
      hide Rests;
      if result == 0 {
        return false;
      }
      if result != 1 {
        state := WaitTimeout;
        GiveUpCall(3);
        IdleRests();
        return true;
      }
      state := CallRecv;
      length := 0;
      CallRests();
      return true;
    }

    // What comes of a poll in WAIT_RELAY: when the timer has passed, a wait that has not got
    // as far as listening is given up, and any other is left for the next command.
    ghost predicate WaitRelayPolled(was: Was, before: World, send: bool, late: bool, rc: int, a: Answers)
      reads this`sessionStarted, this`connections, this`state, this`command, this`length, data, host, relay
      reads relay.data
      requires host.Valid() && relay.Valid()
    {
      && (before.c.state == RecvWait ==> OnlyListens(was, before))
      && if late then
           && relay.Seen(host, 0) == Hear(before, TimerSaid(true)) && send
           && if before.c.state == RecvWait then FailedFrom(was, 0) && LineKept(was)
             else GaveUp(was, 3) && state == Idle
         else
           && Polled(relay.Seen(host, 0), rc) == ProcWaitPoll(Hear(before, TimerSaid(false)), a)
           && WaitRelayDone(was, send, rc)
    }

    // The WAIT_RELAY case of command_wait_call.
    method PollWaitRelay() returns (send: bool, ghost late: bool, ghost rc: int, ghost a: Answers)
      requires Resumes() && state == WaitRelay
      modifies this`connections, this`command, this`length, this`state, this`orderly, this`clash
      modifies data, host, relay, relay.data
      ensures Shape() && (clash ==> fetchActive) && (old(orderly) ==> orderly)
      ensures Sound() <==> old(orderly) || (late && old(relay.state) == RecvWait)
      ensures !old(orderly) ==> HeardTimer(late)
      ensures Sound() ==> if send then Rests() else Consistent() && command == WAIT_CALL
      ensures Sound() ==> WaitRelayPolled(old(Snapshot()), old(relay.Seen(host, 0)), send, late, rc, a)
    {
      hide ProcWaitPoll, WaitRelayDone, LineHolds, Midway, Consistent, Rests;
      rc, a := 0, Answers(0, 0, 0, 0);
      var passed := host.TimePassed();
      late := passed;
      if passed {
        LeaveRelay();
        send := true;
      } else {
        send, rc, a := WaitCallRelay();
      }
    }

    // The first that the host has answered is what its timer says.
    twostate predicate HeardTimer(passed: bool)
      reads host`said
    {
      |old(host.said)| < |host.said| && host.said[|old(host.said)|] == TimerSaid(passed)
    }

    // A wait at the relay whose time is over: unless it listens it is given up.
    method LeaveRelay()
      requires Resumes() && state == WaitRelay
      modifies this`connections, this`command, this`length, this`state, this`orderly, this`clash
      modifies data, host`sockets, host`broken
      ensures Shape() && (clash ==> fetchActive) && (Sound() <==> old(orderly) || relay.state == RecvWait)
      ensures old(orderly) ==> orderly
      ensures Sound() ==> Rests() && RelayLeft(old(Snapshot()))
    {
      ResumesExactly();
      hide Midway, Rests, RelayLeft;
      if relay.state != RecvWait {
        GiveUpWait();
      } else {
        WaitedRests();
        KeepWait();
      }
    }

    // What comes of that.
    ghost predicate RelayLeft(was: Was)
      reads this`sessionStarted, this`connections, this`command, this`length, this`state, data, host`sockets
      reads host`peer, relay`state
    {
      if relay.state == RecvWait then FailedFrom(was, 0) && LineKept(was) else GaveUp(was, 3) && state == Idle
    }

    method KeepWait()
      requires Shape() && Rests() && relay.state == RecvWait
      modifies this`command, this`length, data
      ensures Shape() && Rests() && RelayLeft(old(Snapshot()))
    {
      hide Midway;
      Error(0);
    }

    // Giving it up closes its socket, as the flag has it.
    method GiveUpWait()
      requires Shape() && Sound() && connections == [true, false] && host.sockets[1] == Closed
      requires relay.state != RecvWait
      requires if orderly then !fetchActive && host.sockets[0] != Closed else fetchActive || host.sockets[0] == Closed
      modifies this`connections, this`command, this`length, this`state, this`orderly, this`clash
      modifies data, host`sockets, host`broken
      ensures Shape() && orderly && (clash ==> fetchActive) && (Sound() <==> old(orderly))
      ensures Sound() ==> Rests() && RelayLeft(old(Snapshot()))
    {
      hide Rests;
      state := Idle;
      clash := fetchActive;
      host.CloseUnchecked(0);
      connections, orderly := connections[0 := false], true;
      Error(3);
      if Sound() {
        IdleRests();
      }
    }

    // Waiting for calls is not a job of the command that began it.
    lemma WaitedRests()
      requires Resumes() && (state == Wait || (state == WaitRelay && relay.state == RecvWait))
      ensures Rests()
    {
      hide Midway;
    }

    // What comes of a poll in WAIT.
    ghost predicate WaitPolled(was: Was, send: bool, late: bool)
      reads this`sessionStarted, this`connections, this`state, this`command, this`length, data, host`sockets
      reads host`peer
    {
      if late then send && FailedFrom(was, 0) && LineKept(was) else WaitIpDone(was, send)
    }

    // The WAIT case of command_wait_call.
    method PollWait() returns (send: bool, ghost late: bool)
      requires Resumes() && state == Wait
      modifies this`command, this`length, this`state, data, host`sockets, host`said, host`broken
      ensures Shape() && !clash && HeardTimer(late) && (Sound() <==> orderly || late)
      ensures Sound() ==> if send then Rests() else Consistent() && command == WAIT_CALL
      ensures Sound() ==> Heard(if late then [TimerSaid(true)] else [TimerSaid(false), AcceptSaid(send)])
                          && WaitPolled(old(Snapshot()), send, late)
    {
      WaitedRests();
      hide LineHolds, LeftOver, Consistent, Rests;
      var passed := host.TimePassed();
      late := passed;
      if passed {
        Error(0);
        return true, late;
      }
      send := WaitCallIp();
    }

    /** What comes of a poll of WAIT_CALL: it is refused in a call; a wait that has timed out
        is sat out first; otherwise the wait goes on as the line has it, or begins. */
    ghost predicate WaitDone(was: Was, before: World, first: bool, send: bool, late: bool, rc: int, a: Answers)
      reads this`sessionStarted, this`configRelay, this`configPort, this`processingAddr, this`connections, this`state
      reads this`command, this`length, data, host, relay, relay.data
      requires host.Valid() && relay.Valid()
    {
      if !Waitable(was.state) then send && FailedFrom(was, 1) && LineKept(was) && host.said == before.said
      else if was.state == WaitTimeout && first then
        (!send && PacketKept(was) && LineKept(was) && host.said == before.said + [TimerSaid(false)])
        || (WaitBegun(was.(state := Idle), send, late)
            && host.said == before.said + [TimerSaid(true)] + WaitSaid(send, late))
      else if was.state == Wait then
        WaitPolled(was, send, late)
        && host.said == before.said + if late then [TimerSaid(true)] else [TimerSaid(false), AcceptSaid(send)]
      else if was.state == WaitRelay then WaitRelayPolled(was, before, send, late, rc, a)
      else WaitBegun(was.(state := Idle), send, late) && host.said == before.said + WaitSaid(send, late)
    }

    // The switch of command_wait_call: going on with whatever the line is waiting for
    method ResumeWait() returns (send: bool, ghost late: bool, ghost rc: int, ghost a: Answers)
      requires Resumes()
      modifies this`processingAddr, this`connections, this`command, this`length, this`state, this`orderly, this`clash
      modifies data, host, relay, relay.data
      ensures Shape() && (clash ==> fetchActive) && (old(orderly) ==> orderly)
      ensures Sound() <==> old(!fetchActive && (orderly || state == Idle))
                           || (old(state == Wait) && HeardTimer(true))
                           || (old(state == WaitRelay && relay.state == RecvWait) && HeardTimer(true))
      ensures old(state) == Idle ==> old(host.said) <= host.said
      ensures Sound() ==> if send then Rests() else Consistent() && command == WAIT_CALL
      ensures Sound() ==> WaitDone(old(Snapshot()), old(relay.Seen(host, 0)), false, send, late, rc, a)
    {
      ResumesExactly();
      hide LineHolds, LeftOver, WaitBegun, WaitPolled, WaitRelayPolled, WaitSaid, Consistent, Rests;
      late, rc, a := false, 0, Answers(0, 0, 0, 0);
      match state
      case Wait =>
        send, late := PollWait();
      case WaitRelay =>
        send, late, rc, a := PollWaitRelay();
      case Idle =>
        BeginsExactly();
        send, late := WaitCallBegin();
    }

    lemma WaitBegins()
      requires Handling(WAIT_CALL)
      ensures host.Valid() && relay.Valid() && (!Waitable(state) ==> processing == 0) && (orderly <==> Mirrored())
      ensures processing != 0 ==> Resumes() && orderly && !fetchActive
    {
      OrderlyExactly();
    }

    // A wait is taken up, or begun anew once the time of a failed one is over.
    method StartWait()
      requires Handling(WAIT_CALL) && Waitable(state) && processing == 0
      modifies this`processing, this`state
      ensures Resumes() && state == if old(state) == WaitTimeout then Idle else old(state)
    {
      hide Midway;
      if state == WaitTimeout {
        state := Idle;
      }
      processing := 1;
    }

    /** A WAIT_CALL that does no harm although the line is not in order: it waits for the timer,
        or only finds that its time is over. */
    twostate predicate Forgiven()
      reads host`said
    {
      || (old(state == WaitTimeout) && HeardTimer(false))
      || (old(state == Wait) && HeardTimer(true))
      || (old(state == WaitRelay && relay.state == RecvWait) && HeardTimer(true))
    }

    // command_wait_call
    method WaitCall() returns (send: bool, ghost late: bool, ghost rc: int, ghost a: Answers)
      requires Handling(WAIT_CALL)
      modifies this`processingAddr, this`connections, this`processing, this`command, this`length, this`state
      modifies this`orderly, this`clash, data, host, relay, relay.data
      ensures Shape() && (clash ==> fetchActive) && (old(orderly) ==> orderly)
      ensures Sound() <==> old(processing != 0 || MayHandle()) || Forgiven()
      ensures Sound() ==> if send then Rests() else Consistent() && command == WAIT_CALL
      ensures Sound() ==>
                WaitDone(old(Snapshot()), old(relay.Seen(host, 0)), old(processing) == 0, send, late, rc, a)
    {
      WaitBegins();
      hide LineHolds, LeftOver, Consistent, Rests, WaitDone;
      if !Waitable(state) {
        late, rc, a := RefuseWait();
        send := true;
      } else if processing == 0 {
        send, late, rc, a := BeginWait();
      } else {
        send, late, rc, a := ResumeWait();
      }
    }

    method RefuseWait() returns (ghost late: bool, ghost rc: int, ghost a: Answers)
      requires Handling(WAIT_CALL) && !Waitable(state) && processing == 0 && host.Valid() && relay.Valid()
      modifies this`command, this`length, data
      ensures Rests() && Shape() && Sound()
      ensures WaitDone(old(Snapshot()), old(relay.Seen(host, 0)), true, true, late, rc, a)
    {
      FetchSocket();
      hide Consistent, Rests;
      late, rc, a := false, 0, Answers(0, 0, 0, 0);
      Refuse(1);
    }

    // The first poll of command_wait_call
    method BeginWait() returns (send: bool, ghost late: bool, ghost rc: int, ghost a: Answers)
      requires Handling(WAIT_CALL) && Waitable(state) && processing == 0 && host.Valid() && relay.Valid()
      modifies this`processingAddr, this`connections, this`processing, this`command, this`length, this`state
      modifies this`orderly, this`clash, data, host, relay, relay.data
      ensures Shape() && (clash ==> fetchActive) && (old(orderly) ==> orderly)
      ensures Sound() <==> old(!fetchActive && (orderly || state in {Idle, WaitTimeout})) || Forgiven()
      ensures Sound() ==> if send then Rests() else Consistent() && command == WAIT_CALL
      ensures Sound() ==> WaitDone(old(Snapshot()), old(relay.Seen(host, 0)), true, send, late, rc, a)
    {
      hide LineHolds, LeftOver, Consistent, Rests, WaitBegun, WaitPolled, WaitRelayPolled, WaitSaid, Resumes;
      if state == WaitTimeout {
        send, late, rc, a := SitOut();
      } else {
        StartWait();
        send, late, rc, a := ResumeWait();
      }
    }

    // After a wait that has timed out the next one begins only when the timer has passed.
    method SitOut() returns (send: bool, ghost late: bool, ghost rc: int, ghost a: Answers)
      requires Handling(WAIT_CALL) && state == WaitTimeout && processing == 0 && host.Valid() && relay.Valid()
      modifies this`processingAddr, this`connections, this`processing, this`command, this`length, this`state
      modifies this`orderly, this`clash, data, host, relay, relay.data
      ensures Shape() && (clash ==> fetchActive) && (old(orderly) ==> orderly)
      ensures Sound() <==> !old(fetchActive) || HeardTimer(false)
      ensures Sound() ==> if send then Rests() else Consistent() && command == WAIT_CALL
      ensures Sound() ==> WaitDone(old(Snapshot()), old(relay.Seen(host, 0)), true, send, late, rc, a)
    {
      FetchSocket();
      hide LineHolds, LeftOver, Consistent, Rests, WaitBegun, WaitPolled, WaitRelayPolled, WaitSaid, Resumes;
      send, late, rc, a := false, false, 0, Answers(0, 0, 0, 0);
      var passed := host.TimePassed();
      if passed {
        send, late := WaitAnew();
      }
    }

    method WaitAnew() returns (send: bool, ghost bound: bool)
      requires Handling(WAIT_CALL) && state == WaitTimeout && processing == 0 && host.Valid() && relay.Valid()
      modifies this`processingAddr, this`connections, this`processing, this`command, this`length, this`state
      modifies this`orderly, this`clash, data, host, relay, relay.data
      ensures Shape() && (clash ==> fetchActive) && (old(orderly) ==> orderly)
      ensures (Sound() <==> !old(fetchActive)) && old(host.said) <= host.said
      ensures Sound() ==> if send then Rests() else Consistent() && command == WAIT_CALL
      ensures Sound() ==> WaitBegun(old(Snapshot()).(state := Idle), send, bound) && Heard(WaitSaid(send, bound))
    {
      hide LineHolds, LeftOver, Consistent, Rests, WaitBegun, WaitPolled, WaitRelayPolled, WaitSaid, Resumes;
      StartWait();
      ghost var rc, a;
      send, bound, rc, a := ResumeWait();
    }

    // ---------- Transferring data ----------

    // Whether it has taken too long to send the payload.
    method SendTooLate() returns (late: bool)
      requires data.Length == 0xFF
      modifies this`command, this`length, data, host`said
      ensures Heard([TimerSaid(late)])
      ensures if late then FailedFrom(old(Snapshot()), 0) else PacketKept(old(Snapshot()))
    {
      late := host.TimePassed();
      if late {
        Error(0);
      }
    }

    // The sending part of command_data.  None when everything has been accepted and it is
    // time to receive; otherwise whether there is a reply.  `rc` is what the send gave.
    method SendPayload(conn: nat, ghost before: seq<byte>)
      returns (reply: Option<bool>, ghost rc: int, ghost heard: seq<Said>)
      requires Shape() && conn < MAX_CONNECTIONS && Streaming(host.sockets[conn])
      requires processingData[0] < length && SentSoFar(conn, before, Length(processingData[0]))
      modifies this`processingData, this`command, this`length, data, host`accepted, host`said
      ensures Shape() && before <= host.accepted[conn] <= before + old(data[1..length])
      ensures LineKept(old(Snapshot()))
      ensures if reply == Some(true) then FailedFrom(old(Snapshot()), 0)
              else Snapshot() == old(Snapshot()) && processingData[0] < length
                   && SentSoFar(conn, before, Length(processingData[0]))
      ensures reply == None ==> SentSoFar(conn, before, length - 1)
      ensures Heard(heard) && SendAnswer(old(length - 1 - Length(processingData[0])), reply, rc, heard)
      ensures heard != [] && rc >= 0 ==> processingData[0] as int == old(processingData[0]) as int + rc
    {
      rc, heard := 0, [];
      SentMore(before, data[..], Length(processingData[0]), 0, length - 1);
      if length as int - 1 > Length(processingData[0]) {
        reply, rc, heard := SendRest(conn, before);
      } else {
        reply := None;
      }
    }

    // The same while there is something left to send.
    method SendRest(conn: nat, ghost before: seq<byte>)
      returns (reply: Option<bool>, ghost rc: int, ghost heard: seq<Said>)
      requires Shape() && conn < MAX_CONNECTIONS && Streaming(host.sockets[conn])
      requires Length(processingData[0]) < length as int - 1 && SentSoFar(conn, before, Length(processingData[0]))
      modifies this`processingData, this`command, this`length, data, host`accepted, host`said
      ensures Shape() && before <= host.accepted[conn] <= before + old(data[1..length])
      ensures LineKept(old(Snapshot()))
      ensures if reply == Some(true) then FailedFrom(old(Snapshot()), 0)
              else Snapshot() == old(Snapshot()) && processingData[0] < length
                   && SentSoFar(conn, before, Length(processingData[0]))
      ensures reply == None ==> SentSoFar(conn, before, length - 1)
      ensures Heard(heard) && SendAnswer(old(length - 1 - Length(processingData[0])), reply, rc, heard)
      ensures heard != [] && rc >= 0 ==> processingData[0] as int == old(processingData[0]) as int + rc
    {
      var sentSize: nat, sendSize: nat := Length(processingData[0]), length - 1;
      SentMore(before, data[..], sentSize, 0, sendSize);
      var sent := host.Send(conn, data[1 + sentSize..1 + sendSize], NoAddr);
      rc := sent;
      if sent < 0 {
        Error(0);
        return Some(true), rc, [SendSaid(sent)];
      }
      SentMore(before, data[..], sentSize, sent, sendSize);
      ghost var timed;
      reply, timed := NoteSent(sentSize + sent);
      heard := [SendSaid(sent)] + timed;
    }

    // So much of the payload has been sent: is that all of it, or does it take too long?
    method NoteSent(sentSize: nat) returns (reply: Option<bool>, ghost timed: seq<Said>)
      requires Shape() && sentSize < length as int
      modifies this`processingData, this`command, this`length, data, host`said
      ensures Shape() && LineKept(old(Snapshot())) && Length(processingData[0]) == sentSize
      ensures if reply == Some(true) then FailedFrom(old(Snapshot()), 0) else Snapshot() == old(Snapshot())
      ensures if sentSize == old(length) as int - 1 then reply == None && timed == []
              else reply.Some? && timed == [TimerSaid(reply.value)]
      ensures Heard(timed)
    {
      processingData := processingData[0 := sentSize];
      if length as int - 1 > sentSize {
        var late := SendTooLate();
        reply, timed := Some(late), [TimerSaid(late)];
      } else {
        reply, timed := None, [];
      }
    }

    // What becomes of a receive that gave `got`.
    ghost predicate Received(was: Was, conn: nat, send: bool, got: int)
      reads this`sessionStarted, this`state, this`connections, this`command, this`length, data, host`incoming
      reads host`sockets, host`peer
      requires data.Length == 0xFF && conn < MAX_CONNECTIONS && got <= MAX_TRANSFER
      requires |host.incoming| == |was.incoming| == |was.connections| == MAX_CONNECTIONS && |was.data| == 0xFF
      requires got <= |was.incoming[conn]|
    {
      && (!send ==> PacketKept(was))
      && (send && got >= 0 ==>
            && command == was.command && length == got + 1 && data[0] == was.data[0]
            && data[1..length] == was.incoming[conn][..got])
      && host.incoming[conn] == (if got >= 0 then was.incoming[conn][got..] else was.incoming[conn])
      && (got != -2 ==> LineKept(was))
      // the other side has gone: on the internet the connection ends with this reply
      && (got == -2 ==>
            && length == 1 && data[0] == was.data[0]
            && command == (if state == Internet then DATA_END else was.command)
            && connections == (if state == Internet then was.connections[conn := false] else was.connections))
      && (got == -10 ==> PacketKept(was))
      && (got < 0 && got != -2 && got != -10 ==> FailedFrom(was, 0))
    }

    // The receiving part of command_data; `got` is what the socket answers.
    method ReceiveData(conn: nat) returns (send: bool, ghost got: int, ghost offer: int, ghost heard: seq<Said>)
      requires Shape() && LineHolds(NoJob) && state in {Call, CallRecv, Internet} && length >= 1
      requires conn < MAX_CONNECTIONS && connections[conn] && Streaming(host.sockets[conn])
      modifies this`connections, this`command, this`length, data, host`sockets, host`incoming, host`said
      ensures Shape() && LineHolds(NoJob)
      ensures Heard(heard) && RecvAnswer(old(host.incoming)[conn], state == Internet && old(length) == 1, send,
              got, offer, heard)
      ensures Received(old(Snapshot()), conn, send, got) && state == old(state)
      ensures !send ==> SameLine() && SamePacket()
    {
      hide LineHolds, Given, Received;
      ghost var was := Snapshot();
      var recvSize, bytes;
      recvSize, bytes, offer := host.Recv(conn, MAX_TRANSFER);
      got := recvSize;
      ghost var timed;
      send, timed := InterpretReceive(was, conn, recvSize, bytes);
      heard := [RecvSaid(offer)] + timed;
    }

    // What becomes of the result of the receive.
    method InterpretReceive(ghost was: Was, conn: nat, recvSize: int, bytes: seq<byte>)
      returns (send: bool, ghost heard: seq<Said>)
      requires Shape() && LineHolds(NoJob) && state in {Call, CallRecv, Internet} && length >= 1
      requires conn < MAX_CONNECTIONS && connections[conn] && PacketKept(was) && LineKept(was)
               && |was.incoming| == MAX_CONNECTIONS
      requires recvSize <= MAX_TRANSFER && recvSize <= |was.incoming[conn]|
      requires 0 <= recvSize ==> bytes == was.incoming[conn][..recvSize]
      requires host.incoming[conn] == if 0 <= recvSize then was.incoming[conn][recvSize..] else was.incoming[conn]
      modifies this`connections, this`command, this`length, data, host`sockets, host`said
      ensures Shape() && LineHolds(NoJob) && state == old(state) && Heard(heard)
      ensures if state == Internet && old(length) == 1 && recvSize == 0 then heard == [TimerSaid(send)]
              else send && heard == []
      ensures Received(was, conn, send, recvSize)
      ensures !send ==> SameLine() && SamePacket()
    {
      hide LineHolds;
      var internet := state == Internet;
      heard := [];
      if recvSize == -2 {
        PeerGone(conn);
        return true, heard;
      }
      if recvSize == -10 {
        return true, heard;
      }
      if recvSize < 0 {
        Error(0);
        return true, heard;
      }
      send := StoreReceived(bytes, internet);
      if internet && old(length) == 1 && recvSize == 0 {
        heard := heard + [TimerSaid(send)];
      }
    }

    // The other side has disconnected: on the internet that ends the connection.
    method PeerGone(conn: nat)
      requires Shape() && LineHolds(NoJob) && state in {Call, CallRecv, Internet}
      requires conn < MAX_CONNECTIONS && connections[conn]
      modifies this`connections, this`command, this`length, host`sockets
      ensures Shape() && LineHolds(NoJob) && length == 1
      ensures command == (if state == Internet then DATA_END else old(command))
      ensures connections == (if state == Internet then old(connections)[conn := false] else old(connections))
    {
      if state == Internet {
        host.Close(conn);
        connections := connections[conn := false];
        command := DATA_END;
      }
      length := 1;
    }

    // What was received is the reply, unless an internet connection that sent nothing is to
    // be given a second to say something.
    method StoreReceived(bytes: seq<byte>, internet: bool) returns (send: bool)
      requires data.Length == 0xFF && |bytes| <= MAX_TRANSFER && length >= 1
      modifies this`length, data, host`said
      ensures data[0] == old(data[0])
      ensures if send then length == |bytes| + 1 && data[1..length] == bytes
              else length == old(length) && data[..] == old(data[..])
      ensures if internet && old(length) == 1 && bytes == [] then Heard([TimerSaid(send)]) else send && Heard([])
    {
      forall i | 0 <= i < |bytes| {
        data[1 + i] := bytes[i];
      }
      if internet && length == 1 && bytes == [] {
        var late := host.TimePassed();
        if !late {
          return false;
        }
      }
      length := |bytes| + 1;
      assert data[1..length] == bytes;
      return true;
    }

    /** command_data.  However the sends are cut up over the polls, what has been accepted is
        always a prefix of the payload; nothing is received, and no success reported, before
        it is the whole payload. */
    method Data() returns (send: bool, ghost e: Exchanged)
      requires Handling(DATA)
      modifies this`processing, this`processingData, this`connections, this`command, this`length, this`acceptedBefore
      modifies data, host`sockets, host`incoming, host`accepted, host`said
      ensures if send then Rests() else Consistent() && command == DATA && processing == 1
      ensures state == old(state)
      ensures DataDone(send, e)
    {
      Buffers();
      hide Consistent, Rests, DataDone;
      if state != Call && state != CallRecv && state != Internet {
        e := RefuseData(1);
        return true, e;
      }
      if length < 1 {
        e := RefuseData(0);
        return true, e;
      }
      var conn: nat := if state == Internet then Length(data[0]) else 0;
      if conn >= MAX_CONNECTIONS || !connections[conn] {
        e := RefuseData(0);
        return true, e;
      }
      send, e := Transfer(conn);
    }

    method RefuseData(code: byte) returns (ghost e: Exchanged)
      requires Handling(DATA) && host.Valid() && |connections| == MAX_CONNECTIONS && |processingData| == 4
      requires data.Length == 0xFF
      requires if state !in {Call, CallRecv, Internet} then code == 1 else !DataUsable() && code == 0
      modifies this`command, this`length, data
      ensures Rests() && host.Valid() && DataDone(true, e)
    {
      hide Consistent, Rests, Exchanging;
      e := Exchanged(None, 0, 0, [], []);
      Refuse(code);
    }

    // command_data, for a connection it can be sent on.
    method Transfer(conn: nat) returns (send: bool, ghost e: Exchanged)
      requires Handling(DATA) && state in {Call, CallRecv, Internet} && data.Length == 0xFF
               && |connections| == MAX_CONNECTIONS
      requires DataUsable() && conn == DataConn() && host.Valid() && |processingData| == 4
      modifies this`processing, this`processingData, this`connections, this`command, this`length, this`acceptedBefore
      modifies data, host`sockets, host`incoming, host`accepted, host`said
      ensures if send then Rests() else Consistent() && command == DATA && processing == 1
      ensures state == old(state) && host.Valid() && DataDone(send, e)
    {
      hide Consistent, Rests, LineHolds, SendingHolds, Exchanging;
      StartSending(conn);
      send, e := Exchange(conn);
      SendingSettled(send);
    }

    method StartSending(conn: nat)
      requires Handling(DATA) && state in {Call, CallRecv, Internet} && data.Length == 0xFF
               && |connections| == MAX_CONNECTIONS
      requires DataUsable() && conn == DataConn() && host.Valid() && |processingData| == 4
      modifies this`processing, this`processingData, this`acceptedBefore
      ensures Settled() && LineHolds(NoJob) && SendingHolds()
      ensures acceptedBefore == if old(processing) == 0 then host.accepted[conn] else old(acceptedBefore)
      ensures Length(processingData[0]) == if old(processing) == 0 then 0 else old(Length(processingData[0]))
    {
      DataGoesOn();
      hide Consistent, LineHolds, SendingHolds;
      if processing == 0 {
        BeginSending(conn);
      }
    }

    lemma SendingSettled(send: bool)
      requires Settled() && parsed && LineHolds(NoJob)
      requires !send ==> SendingHolds() && command == DATA
      ensures if send then Rests() else Consistent() && command == DATA && processing == 1
    {
      JobDone(NoJob);
      hide LineHolds;
    }

    lemma DataGoesOn()
      requires Handling(DATA) && state in {Call, CallRecv, Internet}
      ensures Settled() && LineHolds(NoJob) && (processing != 0 ==> SendingHolds())
    {
      JobDone(Current());
      hide LineHolds;
    }

    /** What comes of a poll of DATA, when `sent` bytes of the payload had been accepted: the
        host's answers decide whether there is a reply, and what had been received by then. */
    ghost predicate Exchanging(was: Was, conn: nat, sent: nat, send: bool, e: Exchanged)
      reads this`acceptedBefore, this`sessionStarted, this`state, this`connections, this`command, this`length
      reads data, host`incoming, host`sockets, host`peer, host`accepted
      requires data.Length == |was.data| == 0xFF && conn < MAX_CONNECTIONS && |host.accepted| == MAX_CONNECTIONS
      requires |host.incoming| == |was.incoming| == |was.connections| == MAX_CONNECTIONS
    {
      var payload := Rest(was);
      && SendAnswer(|payload| - sent, if e.received == None then Some(send) else None, e.rc, e.sending)
      && acceptedBefore <= host.accepted[conn] <= acceptedBefore + payload
      && match e.received
         case None =>
           && e.receiving == [] && LineKept(was) && host.incoming == was.incoming
           && if send then FailedFrom(was, 0) else PacketKept(was)
         case Some(got) =>
           && host.accepted[conn] == acceptedBefore + payload
           && RecvAnswer(was.incoming[conn], state == Internet && payload == [], send, got, e.offer, e.receiving)
           && Received(was, conn, send, got)
    }

    /** What comes of a poll of DATA. */
    twostate predicate DataDone(send: bool, e: Exchanged)
      reads this`acceptedBefore, this`sessionStarted, this`state, this`connections, this`command, this`length
      reads data, host
      requires host.Valid() && old(host.Valid()) && |old(connections)| == MAX_CONNECTIONS && data.Length == 0xFF
      requires |old(processingData)| == 4
    {
      && Heard(e.sending + e.receiving)
      && if old(state) !in {Call, CallRecv, Internet} then
           send && FailedFrom(old(Snapshot()), 1) && SameLine() && e.sending == e.receiving == []
         else if !old(DataUsable()) then
           send && FailedFrom(old(Snapshot()), 0) && SameLine() && e.sending == e.receiving == []
         else
           && acceptedBefore == (if old(processing) == 0 then old(host.accepted)[old(DataConn())]
                                 else old(acceptedBefore))
           && Exchanging(old(Snapshot()), old(DataConn()),
                         if old(processing) == 0 then 0 else old(Length(processingData[0])), send, e)
    }

    // The first poll of command_data starts from nothing sent.
    method BeginSending(conn: nat)
      requires Shape() && state in {Call, CallRecv, Internet} && DataUsable() && conn == DataConn()
      requires processing == 0
      modifies this`processing, this`processingData, this`acceptedBefore
      ensures Shape() && SendingHolds() && acceptedBefore == host.accepted[conn] && processingData[0] == 0
    {
      processingData := processingData[0 := 0];
      acceptedBefore := host.accepted[conn];
      processing := 1;
    }

    // One round of sending and receiving.
    method Exchange(conn: nat) returns (send: bool, ghost e: Exchanged)
      requires Shape() && LineHolds(NoJob) && SendingHolds() && conn == DataConn()
      modifies this`processingData, this`connections, this`command, this`length
      modifies data, host`sockets, host`incoming, host`accepted, host`said
      ensures Shape() && LineHolds(NoJob) && Heard(e.sending + e.receiving) && state == old(state)
      ensures !send ==> SendingHolds() && command == old(command)
      ensures Exchanging(old(Snapshot()), conn, old(Length(processingData[0])), send, e)
    {
      hide LineHolds, SendAnswer, Exchanging, Rest, LineKept, FailedFrom, SentSoFar, SendingHolds;
      ghost var was, sent := Snapshot(), Length(processingData[0]);
      ghost var rc, sending;
      var reply;
      reply, rc, sending := SendSome(conn);
      match reply
      case Some(answered) =>
        send, e := answered, Exchanged(None, rc, 0, sending, []);
        assert sending + [] == sending;
        StillSending(was, conn, sent, send, e);
      case None =>
        send, e := FinishExchange(conn, was, sent, rc, sending);
    }

    // The sending part, with what it keeps of the rest.
    method SendSome(conn: nat) returns (reply: Option<bool>, ghost rc: int, ghost heard: seq<Said>)
      requires Shape() && LineHolds(NoJob) && SendingHolds() && conn == DataConn()
      modifies this`processingData, this`command, this`length, data, host`accepted, host`said
      ensures Shape() && conn < MAX_CONNECTIONS && LineKept(old(Snapshot()))
      ensures acceptedBefore <= host.accepted[conn] <= acceptedBefore + Rest(old(Snapshot()))
      ensures if reply == Some(true) then FailedFrom(old(Snapshot()), 0)
              else Snapshot() == old(Snapshot()) && SendingHolds() && conn == DataConn()
      ensures reply == None ==> length >= 1 && SentSoFar(conn, acceptedBefore, length - 1)
      ensures Heard(heard)
      ensures SendAnswer(|Rest(old(Snapshot()))| - old(Length(processingData[0])), reply, rc, heard)
    {
      JobDone(NoJob);
      hide LineHolds, SendAnswer, LineKept, FailedFrom, SentSoFar;
      RestIs(Snapshot());
      reply, rc, heard := SendPayload(conn, acceptedBefore);
    }

    // The end of a poll in which everything has been sent.
    method FinishExchange(conn: nat, ghost was: Was, ghost sent: nat, ghost rc: int, ghost sending: seq<Said>)
      returns (send: bool, ghost e: Exchanged)
      requires Shape() && LineHolds(NoJob) && SendingHolds() && conn == DataConn() && was == Snapshot()
      requires SentSoFar(conn, acceptedBefore, length - 1) && SendAnswer(|Rest(was)| - sent, None, rc, sending)
      modifies this`connections, this`command, this`length, data, host`sockets, host`incoming, host`said
      ensures Shape() && LineHolds(NoJob) && Heard(e.receiving) && e.sending == sending && state == old(state)
      ensures !send ==> SendingHolds() && command == old(command)
      ensures Exchanging(was, conn, sent, send, e)
    {
      hide LineHolds, Received, SendAnswer, RecvAnswer, Exchanging, SentSoFar, Rest;
      ghost var got, offer, receiving;
      RestIs(was);
      AllSent(conn);
      send, got, offer, receiving := ReceiveAfter(conn);
      e := Exchanged(Some(got), rc, offer, sending, receiving);
      NowReceived(was, conn, sent, send, e);
    }

    lemma RestIs(was: Was)
      requires data.Length == 0xFF && length >= 1 && was == Snapshot()
      ensures Rest(was) == data[1..length]
    {
    }

    lemma AllSent(conn: nat)
      requires data.Length == 0xFF && conn < |host.accepted| && length >= 1
      requires SentSoFar(conn, acceptedBefore, length - 1)
      ensures host.accepted[conn] == acceptedBefore + Rest(Snapshot())
    {
    }

    lemma StillSending(was: Was, conn: nat, sent: nat, send: bool, e: Exchanged)
      requires data.Length == |was.data| == 0xFF && conn < MAX_CONNECTIONS && |host.accepted| == MAX_CONNECTIONS
      requires |host.incoming| == |was.incoming| == |was.connections| == MAX_CONNECTIONS
      requires e.received == None && e.receiving == []
      requires SendAnswer(|Rest(was)| - sent, Some(send), e.rc, e.sending)
      requires acceptedBefore <= host.accepted[conn] <= acceptedBefore + Rest(was)
      requires LineKept(was) && host.incoming == was.incoming && if send then FailedFrom(was, 0) else PacketKept(was)
      ensures Exchanging(was, conn, sent, send, e)
    {
    }

    lemma NowReceived(was: Was, conn: nat, sent: nat, send: bool, e: Exchanged)
      requires data.Length == |was.data| == 0xFF && conn < MAX_CONNECTIONS && |host.accepted| == MAX_CONNECTIONS
      requires |host.incoming| == |was.incoming| == |was.connections| == MAX_CONNECTIONS
      requires e.received.Some? && SendAnswer(|Rest(was)| - sent, None, e.rc, e.sending)
      requires host.accepted[conn] == acceptedBefore + Rest(was)
      requires RecvAnswer(was.incoming[conn], state == Internet && Rest(was) == [], send, e.received.value,
               e.offer, e.receiving)
      requires Received(was, conn, send, e.received.value)
      ensures Exchanging(was, conn, sent, send, e)
    {
    }

    // The receiving part once everything has been sent; without a reply the command goes on.
    method ReceiveAfter(conn: nat) returns (send: bool, ghost got: int, ghost offer: int, ghost heard: seq<Said>)
      requires Shape() && LineHolds(NoJob) && SendingHolds() && conn == DataConn()
      modifies this`connections, this`command, this`length, data, host`sockets, host`incoming, host`said
      ensures Shape() && LineHolds(NoJob)
      ensures !send ==> SendingHolds() && command == old(command)
      ensures Heard(heard) && RecvAnswer(old(host.incoming)[conn], state == Internet && old(length) == 1, send,
              got, offer, heard)
      ensures Received(old(Snapshot()), conn, send, got) && state == old(state)
    {
      JobDone(NoJob);
      hide LineHolds, Received, RecvAnswer;
      send, got, offer, heard := ReceiveData(conn);
    }

    // ---------- Internet sessions ----------

    // command_ppp_connect, once the addresses are found: the session's DNS servers are the
    // packet's, empty ones absent, and the reply offers the user's own in their place.
    method LogIn(at: nat)
      requires Settled() && LineHolds(NoJob) && state == Internet && at + 8 <= 0xFF
      modifies this`dns1, this`dns2, this`length, data
      ensures Settled() && LineHolds(NoJob) && length == 12
      ensures var p := old(data[..]);
              && dns1 == ServerOf(p[at..at + 4]) && dns2 == ServerOf(p[at + 4..at + 8])
              && data[..12] == [127, 0, 0, 1] + Offered(dns1, configDns1) + Offered(dns2, configDns2)
    {
      hide LineHolds;
      var first, second := data[at..at + 4], data[at + 4..at + 8];
      dns1, dns2 := ServerOf(first), ServerOf(second);
      WriteAddresses(Offered(dns1, configDns1), Offered(dns2, configDns2));
      length := 12;
    }

    // On the internet DNS1 is favoured at first.
    method EnterInternet()
      requires Settled() && Mirrored() && connections == [false, false] && (fetchActive ==> Fetches())
      modifies this`dns2Use, this`lastGood, this`state
      ensures Settled() && LineHolds(NoJob) && state == Internet && !dns2Use && !lastGood
    {
      hide Midway;
      dns2Use, lastGood := false, false;
      state := Internet;
    }

    // The adapter's own address, 127.0.0.1, and two more.
    method WriteAddresses(a: seq<byte>, b: seq<byte>)
      requires data.Length == 0xFF && |a| == |b| == 4
      modifies data
      ensures data[..12] == [127, 0, 0, 1] + a + b
    {
      data[0], data[1], data[2], data[3] := 127, 0, 0, 1;
      data[4], data[5], data[6], data[7] := a[0], a[1], a[2], a[3];
      data[8], data[9], data[10], data[11] := b[0], b[1], b[2], b[3];
    }

    /** What comes of PPP_CONNECT: the session's DNS servers are those of the packet, the reply
        offers the user's own for absent ones, and the first group is favoured. */
    twostate predicate LoggedIn()
      reads this`sessionStarted, this`state, this`connections, this`dns1, this`dns2, this`dns2Use, this`lastGood
      reads this`configDns1, this`configDns2, this`fetchActive, this`command, this`length, data
      reads host`sockets, host`peer
      requires data.Length == 0xFF && |host.sockets| == MAX_CONNECTIONS
    {
      if old(state) != CallIsp then Failed(1) && SameLine() && lastGood == old(lastGood)
      else
        match DnsFields(old(data[..length]))
        case None => Failed(2) && SameLine() && lastGood == old(lastGood)
        case Some(at) =>
          && command == old(command) && state == Internet && !dns2Use && !lastGood && length == 12
          && connections == [false, false] && Own() == [Closed, Closed]
          && dns1 == ServerOf(old(data[at..at + 4])) && dns2 == ServerOf(old(data[at + 4..at + 8]))
          && data[..12] == [127, 0, 0, 1] + Offered(dns1, configDns1) + Offered(dns2, configDns2)
    }

    // command_ppp_connect.  Its error 3, for a socket left over from a call, never happens.
    method PppConnect()
      requires Handling(PPP_CONNECT)
      modifies this`dns1, this`dns2, this`dns2Use, this`lastGood, this`state, this`command, this`length, data
      ensures Rests() && host.Valid() && LoggedIn()
      ensures lastGood == if command == PPP_CONNECT then false else old(lastGood)
    {
      Buffers();
      hide Consistent, Rests, DnsFields;
      if state != CallIsp {
        Refuse(1);
        return;
      }
      var at := FindFields();
      if at < 0 {
        Refuse(2);
        return;
      }
      EnterAndLogIn(at);
    }

    // The same with addresses that have been found
    method EnterAndLogIn(at: nat)
      requires Handling(PPP_CONNECT) && data.Length == 0xFF && state == CallIsp && at + 8 <= length as int
      requires DnsFields(data[..length]) == Some(at)
      modifies this`dns1, this`dns2, this`dns2Use, this`lastGood, this`state, this`length, data
      ensures Rests() && host.Valid() && LoggedIn() && !lastGood
    {
      AtProvider();
      hide Consistent, Rests, DnsFields, Fetches, LineHolds;
      EnterInternet();
      LogIn(at);
      LineRests();
    }

    lemma AtProvider()
      requires Consistent() && state == CallIsp
      ensures Settled() && Mirrored() && connections == [false, false] && Own() == [Closed, Closed]
      ensures fetchActive ==> Fetches()
    {
      hide Midway;
    }

    // Where the two addresses are, behind an id and a password, or -1.
    method FindFields() returns (at: int)
      requires data.Length == 0xFF
      ensures match DnsFields(data[..length])
              case None => at == -1
              case Some(n) => at == n && at + 8 <= length as int
    {
      ghost var p := data[..length];
      if length < 1 {
        return -1;
      }
      var first: nat := 1 + Clamp(data[0]);
      if length < first + 1 {
        return -1;
      }
      assert p[0] == data[0] && p[first] == data[first];
      at := first + 1 + Clamp(data[first]);
      if length < at + 8 {
        return -1;
      }
    }

    // connection_new: the first free slot, if there is one.
    method FreeConnection() returns (conn: int)
      requires |connections| == MAX_CONNECTIONS
      ensures if conn < 0 then forall i | 0 <= i < MAX_CONNECTIONS :: connections[i]
              else conn < MAX_CONNECTIONS && !connections[conn] && forall i | 0 <= i < conn :: connections[i]
    {
      conn := 0;
      while conn < MAX_CONNECTIONS
        invariant 0 <= conn <= MAX_CONNECTIONS && forall i | 0 <= i < conn :: connections[i]
      {
        if !connections[conn] {
          return;
        }
        conn := conn + 1;
      }
      conn := -1;
    }

    // Why a TCP_CONNECT is refused before any socket is opened: its error, if it is.
    ghost function TcpRefused(was: Was): Option<byte> {
      if was.state != Internet then Some(1) else if was.length < 6 then Some(3)
      else if was.connections == [true, true] then Some(0) else None
    }

    // What comes of opening a socket for it: error 3, or the first free connection.
    ghost predicate TcpBegun(was: Was, send: bool)
      reads this`sessionStarted, this`state, this`connections, this`processing, this`processingData, this`command
      reads this`length, data, host`sockets, host`peer
      requires |processingData| == 4 && |was.connections| == MAX_CONNECTIONS
    {
      if TcpRefused(was).Some? then send && FailedFrom(was, TcpRefused(was).value) && LineKept(was)
      else if send then FailedFrom(was, 3) && LineKept(was)
      else
        && PacketKept(was) && state == Internet && processing == 1
        && Length(processingData[0]) == (if was.connections[0] then 1 else 0)
        && connections == was.connections[Length(processingData[0]) := true]
    }

    // command_tcp_connect_begin, from opening the socket on: it must not be the one of a fetch.
    method OpenConnection(conn: nat) returns (send: bool)
      requires Settled() && LineHolds(NoJob) && parsed && command == TCP_CONNECT && state == Internet && length >= 6
      requires conn < MAX_CONNECTIONS && !connections[conn] && (fetchActive ==> conn == 0 && host.sockets[0] != Closed)
      modifies this`connections, this`processing, this`processingData, this`command, this`length, data, host`sockets
      modifies host`incoming, host`accepted, host`said, host`broken
      ensures Shape() && !clash && (Sound() <==> !fetchActive)
      ensures Sound() ==> Opened(old(Snapshot()), conn, send) && Heard([OpenSaid(0, !send)])
    {
      hide Opened, LineHolds;
      if fetchActive {
        var _ := host.OpenUnchecked(conn, false, false, 0);
        return true;
      }
      send := OpenFree(conn);
    }

    // What comes of it.
    ghost predicate Opened(was: Was, conn: nat, send: bool)
      reads this, relay.data, data
      reads host`sockets, host`incoming, host`accepted, host`broken, host`peer
      reads relay`state, relay`processing, relay`size, relay`token, dns`size, dns`id, dns`qtype
      requires conn < |was.connections|
    {
      if send then Rests() && FailedFrom(was, 3) && LineKept(was)
      else
        && Consistent() && PacketKept(was) && processing == 1 && |processingData| == 4
        && Length(processingData[0]) == conn && connections == was.connections[conn := true]
    }

    method OpenFree(conn: nat) returns (send: bool)
      requires Alone() && LineHolds(NoJob) && parsed && command == TCP_CONNECT && state == Internet && length >= 6
      requires conn < MAX_CONNECTIONS && !connections[conn]
      modifies this`connections, this`processing, this`processingData, this`command, this`length, data, host`sockets
      modifies host`incoming, host`accepted, host`said
      ensures Shape() && Opened(old(Snapshot()), conn, send) && Heard([OpenSaid(0, !send)])
    {
      InternetLine(NoJob);
      assert host.sockets[conn] == Closed;
      SocketAdded(connections, host.sockets, conn, Tcp(false, Fresh), Opening(conn, Target()));
      hide LineHolds, Consistent, Rests, OnLine;
      var ok := host.Open(conn, false, false, 0);
      InternetLine(NoJob);
      if !ok {
        Error(3);
        LineRests();
        return true;
      }
      NoteConnection(conn);
      return false;
    }

    // The state that the later polls go by.
    method NoteConnection(conn: nat)
      requires Alone() && parsed && command == TCP_CONNECT && state == Internet && length >= 6 && dns2Use == lastGood
      requires conn < MAX_CONNECTIONS && OnLine(connections[conn := true], host.sockets, Opening(conn, Target()))
      modifies this`connections, this`processing, this`processingData
      ensures Shape() && Consistent() && processing == 1 && Length(processingData[0]) == conn
      ensures connections == old(connections)[conn := true]
    {
      hide LineHolds, Consistent, OnLine;
      connections := connections[conn := true];
      processingData := processingData[0 := conn];
      processing := 1;
      InternetLine(Opening(conn, Target()));
      OpeningIs(conn);
    }

    lemma BeforeOpening()
      requires Handling(TCP_CONNECT) && processing == 0 && state == Internet
      ensures Settled() && LineHolds(NoJob) && (fetchActive ==> host.sockets[0] != Closed && !connections[0])
    {
      hide Midway;
    }

    lemma OpeningIs(conn: nat)
      requires Alone() && parsed && command == TCP_CONNECT && processingData[0] == conn
      requires LineHolds(Opening(conn, Target())) && OnInternet(conn) && length >= 6
      ensures Consistent()
    {
      hide LineHolds;
    }

    // command_tcp_connect_begin
    method TcpConnectBegin() returns (send: bool)
      requires Handling(TCP_CONNECT) && processing == 0
      modifies this`connections, this`processing, this`processingData, this`command, this`length, data, host`sockets
      modifies host`incoming, host`accepted, host`said, host`broken
      ensures Shape() && !clash && (Sound() <==> old(MayHandle()))
      ensures Sound() ==> if send then Rests() else Consistent() && command == TCP_CONNECT
      ensures Sound() ==> Heard(if TcpRefused(old(Snapshot())).Some? then [] else [OpenSaid(0, !send)])
                          && TcpBegun(old(Snapshot()), send)
    {
      FetchSocket();
      OnInternetLine();
      hide Consistent, Rests;
      if state != Internet {
        Refuse(1);
        return true;
      }
      if length < 6 {
        Refuse(3);
        return true;
      }
      var conn := FreeConnection();
      if conn < 0 {
        assert connections == [true, true];
        Refuse(0);
        return true;
      }
      BeforeOpening();
      send := OpenConnection(conn);
    }

    lemma OnInternetLine()
      requires Consistent()
      ensures state == Internet ==> orderly && (fetchActive ==> !connections[0])
    {
      hide Midway;
    }

    // Closing a connection of the internet session, and what the rest of the line keeps.
    method CloseConnection(conn: nat, ghost job: Job)
      requires Shape() && state == Internet && conn < MAX_CONNECTIONS && connections[conn]
      requires LineHolds(job)
      requires job == NoJob || (job.Opening? && job.conn == conn) || (job.Asking? && job.conn == conn)
      modifies this`connections, host`sockets
      ensures Shape() && LineHolds(NoJob) && connections == old(connections)[conn := false]
    {
      host.Close(conn);
      connections := connections[conn := false];
    }

    // One attempt at connecting a socket; a failure closes it.
    method TryConnect(conn: nat, addr: Addr) returns (rc: int)
      requires Shape() && OnInternet(conn) && LineHolds(Opening(conn, addr))
      modifies this`connections, host`sockets, host`said
      ensures Shape() && LineHolds(if rc == 0 then Opening(conn, addr) else NoJob)
      ensures Heard([ConnectSaid(rc)])
      ensures connections == if rc < 0 then old(connections)[conn := false] else old(connections)
      ensures rc > 0 ==> Streaming(host.sockets[conn])
    {
      rc := host.Connect(conn, addr);
      if rc < 0 {
        host.Close(conn);
        connections := connections[conn := false];
      }
    }

    // What comes of an attempt to connect that gave rc: it goes on, fails and is closed, or
    // the reply names a connection that can be used.
    ghost predicate TcpConnected(was: Was, conn: nat, send: bool, rc: int)
      reads this`state, this`connections, this`command, this`length, data, host`sockets, host`peer
      requires conn < MAX_CONNECTIONS == |was.connections| == |host.sockets| && data.Length == 0xFF
    {
      && state == was.state
      && if rc == 0 then !send && PacketKept(was) && connections == was.connections
         else if rc < 0 then send && FailedFrom(was, 3) && connections == was.connections[conn := false]
         else send && command == was.command && length == 1 && Length(data[0]) == conn
              && connections == was.connections && Streaming(host.sockets[conn])
    }

    // command_tcp_connect_connecting
    method TcpConnectConnecting() returns (send: bool, ghost rc: int)
      requires Processing(TCP_CONNECT) && processing == 1
      modifies this`connections, this`command, this`length, data, host`sockets, host`said
      ensures if send then Rests() else Consistent() && command == TCP_CONNECT
      ensures Heard([ConnectSaid(rc)])
      ensures TcpConnected(old(Snapshot()), old(Length(processingData[0])), send, rc)
    {
      hide LineHolds;
      var conn := Length(processingData[0]);
      var addr := Addr4(BigEndian(data[4], data[5]), data[..4]);
      var connected := TryConnect(conn, addr);
      rc := connected;
      if connected == 0 {
        return false, rc;
      }
      if connected < 0 {
        Error(3);
        return true, rc;
      }
      data[0] := conn;
      length := 1;
      return true, rc;
    }

    /** What comes of a poll of TCP_CONNECT. */
    twostate predicate TcpDone(send: bool, late: bool, rc: int)
      reads this`sessionStarted, this`state, this`connections, this`processing, this`processingData, this`command
      reads this`length, data, host
      requires |processingData| == |old(processingData)| == 4 && data.Length == 0xFF
      requires |old(connections)| == |host.sockets| == MAX_CONNECTIONS
    {
      if old(processing) == 0 then
        && Heard(if TcpRefused(old(Snapshot())).Some? then [] else [OpenSaid(0, !send)])
        && TcpBegun(old(Snapshot()), send)
      else
        && old(processingData[0]) < MAX_CONNECTIONS
        && Heard(if late then [TimerSaid(true)] else [TimerSaid(false), ConnectSaid(rc)])
        && TcpConnected(old(Snapshot()), old(Length(processingData[0])), send, if late then -1 else rc)
    }

    // command_tcp_connect
    method TcpConnect() returns (send: bool, ghost late: bool, ghost rc: int)
      requires Handling(TCP_CONNECT)
      modifies this`connections, this`processing, this`processingData, this`command, this`length, data, host`sockets
      modifies host`incoming, host`accepted, host`said, host`broken
      ensures Shape() && !clash && (Sound() <==> old(processing != 0 || MayHandle()))
      ensures Sound() ==> if send then Rests() else Consistent() && command == TCP_CONNECT
      ensures Sound() ==> TcpDone(send, late, rc)
    {
      FetchSocket();
      hide TcpBegun, Consistent, Rests, TcpConnected, MayHandle;
      late, rc := false, -1;
      if processing == 0 {
        send := TcpConnectBegin();
      } else {
        UnderWay();
        send, late, rc := PollConnect();
      }
    }

    // Its later polls
    method PollConnect() returns (send: bool, ghost late: bool, ghost rc: int)
      requires Processing(TCP_CONNECT) && processing != 0
      modifies this`connections, this`command, this`length, data, host`sockets, host`said
      ensures Shape() && Sound() && if send then Rests() else Consistent() && command == TCP_CONNECT
      ensures TcpDone(send, late, rc)
    {
      hide TcpBegun, LineHolds;
      late, rc := false, -1;
      var passed := host.TimePassed();
      late := passed;
      if passed {
        CloseConnection(Length(processingData[0]), Current());
        Error(3);
        return true, late, rc;
      }
      send, rc := TcpConnectConnecting();
    }

    // What comes of TCP_DISCONNECT.
    twostate predicate TcpClosed()
      reads this`sessionStarted, this`state, this`connections, this`command, this`length, data, host`sockets
      reads host`peer
      requires data.Length == 0xFF && old(|connections|) == MAX_CONNECTIONS
    {
      if old(state) != Internet then Failed(1) && SameLine()
      else if old(length) >= 1 && old(data[0]) < MAX_CONNECTIONS && old(connections)[old(data[0])] then
        && command == old(command) && length == 1 && data[0] == old(data[0]) && state == Internet
        && connections == old(connections)[Length(data[0]) := false]
      else Failed(0) && SameLine()
    }

    // command_tcp_disconnect
    method TcpDisconnect()
      requires Handling(TCP_DISCONNECT)
      modifies this`connections, this`command, this`length, data, host`sockets
      ensures Rests()
      ensures TcpClosed()
    {
      Buffers();
      hide Consistent, Rests, LineHolds;
      if state != Internet {
        Refuse(1);
        return;
      }
      if length < 1 {
        Refuse(0);
        return;
      }
      var conn := Length(data[0]);
      if conn >= MAX_CONNECTIONS || !connections[conn] {
        Refuse(0);
        return;
      }
      HangsUp();
      CloseConnection(conn, NoJob);
      length := 1;
      LineRests();
    }

    // ---------- Looking up names ----------

    // dns_get_addr: the four addresses, the user's before the session's in each group, and
    // the group that last worked before the other.
    function DnsServer(id: nat): Addr
      reads this`dns1, this`dns2, this`configDns1, this`configDns2, this`dns2Use
    {
      match (id + if dns2Use then 2 else 0) % 4
      case 0 => configDns1
      case 1 => dns1
      case 2 => configDns2
      case _ => dns2
    }

    // The group that an address number belongs to: DNS2 or not.
    function DnsGroup(id: nat): (g: bool)
      reads this`dns2Use
      ensures id < 4 ==> g == ((id >= 2) != dns2Use)
    {
      (id + if dns2Use then 2 else 0) % 4 >= 2
    }

    // The first address numbered `from` or more that there is.
    method PickServer(from: nat) returns (id: nat)
      requires from <= 4
      ensures from <= id <= 4 && (id < 4 ==> DnsServer(id) != NoAddr)
      ensures forall i | from <= i < id :: DnsServer(i) == NoAddr
    {
      id := from;
      while id < 4
        invariant from <= id <= 4 && forall i | from <= i < id :: DnsServer(i) == NoAddr
      {
        if DnsServer(id) != NoAddr {
          return;
        }
        id := id + 1;
      }
    }

    // mobile_dns_request_send: false if the name makes no query, or the send gives 0.
    method SendQuery(conn: nat, name: seq<byte>) returns (ok: bool, ghost heard: seq<Said>)
      requires Shape() && conn < MAX_CONNECTIONS && Reaches(host.sockets[conn], processingAddr)
      modifies this`dnsId, dns, dns.data, host`accepted, host`said
      ensures Heard(heard) && QueryAnswer(QueryFits(name), ok, heard)
      ensures Shape() && dnsId == (old(dnsId) + 1) % 0x1_0000_0000 && dns.id == dnsId && dns.qtype == QTYPE_A
      ensures ok ==> QueryFits(name) && dns.Packet() == Query(dnsId, QTYPE_A, name)
    {
      heard := [];
      dnsId := (dnsId + 1) % 0x1_0000_0000;
      ok := dns.MakeQuery(dnsId, QTYPE_A, name);
      if ok {
        var sent := host.Send(conn, dns.data[..dns.size], processingAddr);
        heard := [SendSaid(sent)];
        ok := sent != 0;
      }
    }

    // Opens a socket and sends the query to processing_addr.
    method AskServer(conn: nat) returns (ok: bool, ghost heard: seq<Said>)
      requires Shape() && !fetchActive && LineHolds(NoJob) && state == Internet
      requires conn < MAX_CONNECTIONS && !connections[conn]
      requires processingAddr != NoAddr
      modifies this`connections, this`dnsId, dns, dns.data, host`sockets, host`incoming, host`accepted, host`said
      ensures Shape() && LineHolds(if ok then Asking(conn, processingAddr) else NoJob)
      ensures Heard(heard) && AskAnswer(QueryFits(data[..length]), ok, heard)
      ensures connections == old(connections)[conn := ok]
      ensures ok ==> dns.id == dnsId && dns.qtype == QTYPE_A
                     && QueryFits(data[..length]) && dns.Packet() == Query(dnsId, QTYPE_A, data[..length])
    {
      InternetLine(NoJob);
      assert host.sockets[conn] == Closed;
      SocketAdded(connections, host.sockets, conn, Udp(processingAddr.Addr6?, false), Asking(conn, processingAddr));
      hide LineHolds, OnLine, AskAnswer, QueryAnswer, Query, QueryFits;
      ghost var sockets := host.sockets;
      ok := host.Open(conn, true, processingAddr.Addr6?, 0);
      heard := [OpenSaid(0, ok)];
      if ok {
        ghost var sending;
        ok, sending := SendQuery(conn, data[..length]);
        heard := heard + sending;
        if ok {
          connections := connections[conn := true];
          InternetLine(Asking(conn, processingAddr));
          return;
        }
        host.Close(conn);
      }
      assert host.sockets == sockets;
      InternetLine(NoJob);
    }

    // What the host answers when a lookup asks the first address numbered `first` or more.
    ghost predicate StartSaid(first: nat, name: seq<byte>, ok: bool, heard: seq<Said>)
      reads this`dns1, this`dns2, this`configDns1, this`configDns2, this`dns2Use
    {
      if forall i | first <= i < 4 :: DnsServer(i) == NoAddr then !ok && heard == []
      else AskAnswer(QueryFits(name), ok, heard)
    }

    // dns_request_start: asks the first address numbered `first` or more.
    method DnsRequestStart(conn: nat, first: nat) returns (id: int, ghost heard: seq<Said>)
      requires Shape() && !fetchActive && LineHolds(NoJob) && state == Internet
      requires conn < MAX_CONNECTIONS && !connections[conn]
      requires first <= 4
      modifies this`connections, this`processingAddr, this`dnsId, this`asked, dns, dns.data, host`sockets
      modifies host`incoming, host`accepted, host`said
      ensures Shape() && id < 4
      ensures Heard(heard) && StartSaid(first, data[..length], id >= 0, heard)
      ensures if id < 0 then LineHolds(NoJob) && connections == old(connections) && asked == old(asked)
              else
                && LineHolds(Asking(conn, processingAddr)) && connections == old(connections)[conn := true]
                && first <= id && DnsServer(id) == processingAddr != NoAddr && asked == old(asked) + [DnsGroup(id)]
                && (forall i | first <= i < id :: DnsServer(i) == NoAddr)
                && dns.id == dnsId && dns.qtype == QTYPE_A
    {
      hide LineHolds, DnsServer, DnsGroup, AskAnswer;
      var addrId := PickServer(first);
      if addrId >= 4 {
        return -1, [];
      }
      var ok;
      ok, heard := AskNumbered(conn, addrId);
      id := if ok then addrId else -1;
    }

    // With no lookup in progress nothing depends on what processing_addr holds.
    method ChooseServer(id: nat)
      requires Shape() && LineHolds(NoJob) && state == Internet
      modifies this`processingAddr
      ensures LineHolds(NoJob) && processingAddr == DnsServer(id)
    {
      hide Midway;
      processingAddr := DnsServer(id);
    }

    // The same for the address with this number.
    method AskNumbered(conn: nat, id: nat) returns (ok: bool, ghost heard: seq<Said>)
      requires Shape() && !fetchActive && LineHolds(NoJob) && state == Internet
      requires conn < MAX_CONNECTIONS && !connections[conn]
      requires DnsServer(id) != NoAddr
      modifies this`connections, this`processingAddr, this`dnsId, this`asked, dns, dns.data, host`sockets
      modifies host`incoming, host`accepted, host`said
      ensures Shape() && Heard(heard) && AskAnswer(QueryFits(data[..length]), ok, heard)
      ensures connections == old(connections)[conn := ok] && asked == if ok then old(asked) + [DnsGroup(id)]
              else old(asked)
      ensures LineHolds(if ok then Asking(conn, processingAddr) else NoJob)
      ensures processingAddr == DnsServer(id) && (ok ==> dns.id == dnsId && dns.qtype == QTYPE_A)
    {
      hide LineHolds, DnsServer, DnsGroup, AskAnswer, QueryFits;
      ChooseServer(id);
      ok, heard := AskServer(conn);
      if ok {
        asked := asked + [DnsGroup(id)];
      }
    }

    // mobile_inet_pton_length on the packet: 255.255.255.255 for what is no IPv4 address.
    method ParseAddress() returns (ip: seq<byte>)
      requires Shape()
      ensures ip == AddressIn(data[..length])
    {
      var dst := new byte[4](_ => 255);
      assert dst[..] == [255, 255, 255, 255];
      var text := TextOf(data[..length]);
      var _ := InetPton.InetPtonLength(InetPton.AF_INET, text, dst);
      ip := dst[..];
    }

    // Replies with an address.
    method ReplyAddress(ip: seq<byte>)
      requires data.Length == 0xFF && |ip| == 4
      modifies this`length, data
      ensures length == 4 && data[..length] == ip
    {
      data[0], data[1], data[2], data[3] := ip[0], ip[1], ip[2], ip[3];
      length := 4;
    }

    // What comes of the first poll of DNS_REQUEST.
    ghost predicate LookupBegun(was: Was, send: bool, heard: seq<Said>)
      reads this`sessionStarted, this`state, this`connections, this`processing, this`command, this`length
      reads this`dns1, this`dns2, this`configDns1, this`configDns2, this`dns2Use, this`lastGood, this`asked
      reads data, host`sockets, host`peer
      requires was.length as int <= |was.data|
    {
      var name := was.data[..was.length];
      if was.state != Internet then send && FailedFrom(was, 1) && LineKept(was) && heard == []
      else if LooksLikeAddress(name) then
        && send && LineKept(was) && heard == []
        && if AddressIn(name) == [0, 0, 0, 0] then FailedFrom(was, 2)
           else command == was.command && Replies(AddressIn(name))
      else
        && (if was.connections == [true, true] then send && heard == [] else StartSaid(0, name, !send, heard))
        && if send then FailedFrom(was, 2) && connections == was.connections && asked == []
           else PacketKept(was) && |asked| == 1
                && (DnsServer(0) != NoAddr || DnsServer(1) != NoAddr ==> asked == [lastGood])
    }

    // The reply is this address.
    ghost predicate Replies(ip: seq<byte>)
      reads this`length, data
    {
      data.Length == 0xFF && length == 4 && data[..length] == ip
    }

    // command_dns_request_begin
    method DnsRequestBegin() returns (send: bool, ghost heard: seq<Said>)
      requires Handling(DNS_REQUEST) && processing == 0
      modifies this`connections, this`processing, this`processingData, this`processingAddr, this`command, this`length
      modifies this`dnsId, this`asked, data, dns, dns.data
      modifies host`sockets, host`incoming, host`accepted, host`said, host`broken
      ensures Shape() && !clash && (Sound() <==> old(MayHandle()))
      ensures Sound() ==> if send then Rests() else Consistent() && command == DNS_REQUEST && processing == 1
      ensures Sound() ==> Heard(heard) && LookupBegun(old(Snapshot()), send, heard)
    {
      FetchSocket();
      OnInternetLine();
      hide Consistent, Rests, AddressIn, StartSaid, DnsServer, LooksLikeAddress;
      heard := [];
      if state != Internet {
        Refuse(1);
        return true, heard;
      }
      if LooksLikeAddress(data[..length]) {
        AnswerLiteral();
        return true, heard;
      }
      BeforeLookup();
      send, heard := LookUp();
    }

    // An address in text is answered at once; 0.0.0.0 is refused.
    method AnswerLiteral()
      requires Handling(DNS_REQUEST) && processing == 0 && Shape()
      modifies this`command, this`length, data
      ensures Rests() && Shape() && LineKept(old(Snapshot()))
      ensures var ip := AddressIn(old(data[..length]));
              if ip == [0, 0, 0, 0] then FailedFrom(old(Snapshot()), 2) else command == old(command) && Replies(ip)
    {
      hide Consistent, Rests, AddressIn;
      var ip := ParseAddress();
      if ip == [0, 0, 0, 0] {
        Refuse(2);
      } else {
        ReplyAddress(ip);
        OnlyReplied();
      }
    }

    // The first poll of a lookup: a free connection is opened to ask the first server.  It
    // must not be the socket of a fetch.
    method LookUp() returns (send: bool, ghost heard: seq<Said>)
      requires Settled() && LineHolds(NoJob) && parsed && command == DNS_REQUEST && state == Internet
      requires fetchActive ==> !connections[0] && host.sockets[0] != Closed
      modifies this`connections, this`processing, this`processingData, this`processingAddr, this`command, this`length
      modifies this`dnsId, this`asked, data, dns, dns.data
      modifies host`sockets, host`incoming, host`accepted, host`said, host`broken
      ensures Shape() && !clash && (Sound() <==> !(fetchActive && exists i | 0 <= i < 4 :: DnsServer(i) != NoAddr))
      ensures Sound() ==> if send then Rests() else Consistent() && processing == 1
      ensures Sound() ==>
                && Heard(heard)
                && (if old(connections) == [true, true] then send && heard == []
                    else StartSaid(0, old(data[..length]), !send, heard))
                && if send then FailedFrom(old(Snapshot()), 2) && connections == old(connections) && asked == []
                   else PacketKept(old(Snapshot())) && |asked| == 1
                        && (DnsServer(0) != NoAddr || DnsServer(1) != NoAddr ==> asked == [lastGood])
    {
      hide LineHolds, Consistent, Rests, StartSaid, DnsServer, Asks;
      var ok;
      ok, heard := TryLookup();
      send := !ok;
      if ok {
        AsksIsConsistent(Length(processingData[0]));
      } else if Sound() {
        Error(2);
        LineRests();
      }
    }

    // The same, up to whether a server could be asked.
    method TryLookup() returns (ok: bool, ghost heard: seq<Said>)
      requires Settled() && LineHolds(NoJob) && state == Internet
      requires fetchActive ==> !connections[0] && host.sockets[0] != Closed
      modifies this`connections, this`processing, this`processingData, this`processingAddr
      modifies this`dnsId, this`asked, dns, dns.data
      modifies host`sockets, host`incoming, host`accepted, host`said, host`broken
      ensures Shape() && (Sound() <==> !(fetchActive && exists i | 0 <= i < 4 :: DnsServer(i) != NoAddr))
      ensures ok ==> Sound() && !fetchActive
      ensures Sound() ==> Heard(heard) && if old(connections) == [true, true] then !ok && heard == []
                                          else StartSaid(0, data[..length], ok, heard)
      ensures Sound() ==> if ok then Asks(Length(processingData[0])) && |asked| == 1
                                     && (DnsServer(0) != NoAddr || DnsServer(1) != NoAddr ==> asked == [lastGood])
                          else LineHolds(NoJob) && connections == old(connections) && asked == []
    {
      hide LineHolds, StartSaid, DnsServer, Asks;
      asked, ok := [], false;
      var conn := FreeConnection();
      if conn < 0 {
        assert connections == [true, true];
        heard := [];
      } else if fetchActive {
        heard := LookUpOverFetch();
      } else {
        ok, heard := BeginLookup(conn);
      }
    }

    lemma BeforeLookup()
      requires Processing(DNS_REQUEST) && processing == 0
      ensures Settled() && LineHolds(NoJob) && (fetchActive ==> host.sockets[0] != Closed)
    {
      hide Midway;
    }

    // While a number is being fetched the free connection is that of the fetch, and it is
    // opened once more if there is a server to be asked.
    method LookUpOverFetch() returns (ghost heard: seq<Said>)
      requires Shape() && Sound() && host.sockets[0] != Closed
      modifies this`processingAddr, host`sockets, host`incoming, host`accepted, host`said, host`broken
      ensures Shape() && (Sound() <==> !exists i | 0 <= i < 4 :: DnsServer(i) != NoAddr)
      ensures Sound() ==> heard == [] && host.said == old(host.said) && StartSaid(0, data[..length], false, heard)
      ensures Sound() ==> unchanged(this`processingAddr, host`sockets, host`incoming, host`accepted)
    {
      hide DnsServer, AskAnswer;
      heard := [];
      var id := PickServer(0);
      if id < 4 {
        processingAddr := DnsServer(id);
        var _ := host.OpenUnchecked(0, true, processingAddr.Addr6?, 0);
        assert DnsServer(id) != NoAddr;
      }
    }

    // A lookup in progress on this socket.
    ghost predicate Asks(conn: nat)
      reads this`state, this`connections, this`processing, this`processingData, this`processingAddr, this`dns2Use
      reads this`lastGood, this`asked, this`dnsId, this`fetchActive, this`configRelay, host`sockets, relay.data
      reads relay`state, relay`processing, relay`size, relay`token, dns`id, dns`qtype
      requires |host.sockets| == |connections| == MAX_CONNECTIONS && relay.Valid() && |processingData| == 4
    {
      && !fetchActive && LineHolds(Asking(conn, processingAddr)) && OnInternet(conn) && AskingHolds()
      && processingData[0] == conn
    }

    lemma AsksIsConsistent(conn: nat)
      requires Alone() && parsed && command == DNS_REQUEST
      ensures Asks(conn) ==> Consistent()
      ensures Consistent() && processing == 1 && conn == processingData[0] ==> Asks(conn)
      ensures Asks(conn) ==> processing == 1
    {
    }

    // The first question goes to the favoured group if that has any address.
    lemma FirstAsked(id: nat)
      requires id < 4 && DnsServer(id) != NoAddr && dns2Use == lastGood && asked == [DnsGroup(id)]
      requires forall i | 0 <= i < id :: DnsServer(i) == NoAddr
      ensures AskedWell(id) && (DnsServer(0) != NoAddr || DnsServer(1) != NoAddr ==> asked == [lastGood])
    {
    }

    // The lookup proper: whether a server could be asked.
    method BeginLookup(conn: nat) returns (ok: bool, ghost heard: seq<Said>)
      requires Shape() && !fetchActive && LineHolds(NoJob) && state == Internet
      requires conn < MAX_CONNECTIONS && !connections[conn]
      requires asked == []
      modifies this`connections, this`processing, this`processingData, this`processingAddr, this`dnsId, this`asked
      modifies dns, dns.data, host`sockets, host`incoming, host`accepted, host`said
      ensures Shape() && Heard(heard) && StartSaid(0, data[..length], ok, heard)
      ensures if !ok then LineHolds(NoJob) && connections == old(connections) && asked == []
              else
                && Asks(conn) && processingData[0] == conn && |asked| == 1
                && (DnsServer(0) != NoAddr || DnsServer(1) != NoAddr ==> asked == [lastGood])
    {
      GoodGroup(NoJob);
      hide LineHolds, DnsServer, DnsGroup, AskedWell, StartSaid;
      var id;
      id, heard := DnsRequestStart(conn, 0);
      ok := id >= 0;
      if ok {
        assert asked == [DnsGroup(id)];
        NoteFirst(conn, id);
      }
    }

    // The first server has been asked.
    method NoteFirst(conn: nat, id: nat)
      requires Shape() && !fetchActive && state == Internet && conn < MAX_CONNECTIONS && connections[conn] && id < 4
      requires LineHolds(Asking(conn, processingAddr)) && dns.id == dnsId && dns.qtype == QTYPE_A
      requires DnsServer(id) != NoAddr && dns2Use == lastGood && asked == [DnsGroup(id)]
      requires forall i | 0 <= i < id :: DnsServer(i) == NoAddr
      modifies this`processing, this`processingData
      ensures Shape() && Asks(conn) && processingData[0] == conn && |asked| == 1
      ensures DnsServer(0) != NoAddr || DnsServer(1) != NoAddr ==> asked == [lastGood]
    {
      hide LineHolds, DnsServer, DnsGroup, AskedWell;
      FirstAsked(id);
      NoteLookup(conn, id);
    }

    // The state that the polls of a lookup go by.
    method NoteLookup(conn: nat, id: nat)
      requires Shape() && !fetchActive && state == Internet && conn < MAX_CONNECTIONS && connections[conn] && id < 4
      requires LineHolds(Asking(conn, processingAddr)) && AskedWell(id) && dns.id == dnsId && dns.qtype == QTYPE_A
      modifies this`processing, this`processingData
      ensures Shape() && Asks(conn) && processingData[0] == conn
    {
      hide LineHolds, AskedWell;
      processingData := processingData[0 := conn][1 := id];
      processing := 1;
    }

    // mobile_dns_request_recv on what the socket gives.
    method ReceiveAnswer(conn: nat) returns (rc: int, ip: seq<byte>, ghost d: Datagram)
      requires Shape() && conn < MAX_CONNECTIONS && host.sockets[conn].Udp? && dns.qtype == QTYPE_A
      modifies dns, dns.data, host`said
      ensures Shape() && dns.id == old(dns.id) && dns.qtype == QTYPE_A
      ensures Heard([DatagramSaid(d.rc, d.data, d.sender)])
      ensures AnswerGiven(d, processingAddr, dns.id, data[..length], rc, ip)
    {
      var recv, datagram, sender := host.RecvFrom(conn, DnsName.PACKET_SIZE, processingAddr, Length(length));
      if SameAddr(processingAddr, sender) {
        LookupReturns(datagram, dns.id, data[..length]);
      }
      rc, ip := dns.RequestRecv(recv, datagram, sender, processingAddr, data[..length]);
      d := Datagram(recv, datagram, sender);
    }

    // The other group is asked if only the first has been.
    method NextServer(conn: nat, id: nat) returns (send: bool, ghost heard: seq<Said>)
      requires Shape() && !fetchActive && LineHolds(NoJob) && processing == 1
      requires state == Internet && conn < MAX_CONNECTIONS && !connections[conn] && id < 4
      requires AskedWell(id) && processingData[0] == conn
      modifies this`connections, this`processingData, this`processingAddr, this`command, this`length
      modifies this`dnsId, this`asked, data, dns, dns.data, host`sockets, host`incoming, host`accepted, host`said
      ensures Shape() && Heard(heard)
      ensures if id < 2 then StartSaid(2, old(data[..length]), !send, heard) else send && heard == []
      ensures if send then LineHolds(NoJob) && Failed(2) && connections == old(connections) && asked == old(asked)
              else Asks(conn) && SamePacket()
                   && old(asked) == [dns2Use] && id < 2 <= processingData[1] && asked == [dns2Use, !dns2Use]
    {
      hide LineHolds, StartSaid;
      heard := [];
      if id < 2 {
        var next;
        next, heard := DnsRequestStart(conn, 2);
        if next >= 0 {
          processingData := processingData[1 := next];
          return false, heard;
        }
      }
      Error(2);
      return true, heard;
    }

    // A lookup that succeeded from the second group makes it the first.
    method Remember(id: nat)
      requires |host.sockets| == |connections| == MAX_CONNECTIONS && relay.Valid()
      requires LineHolds(NoJob) && state == Internet && AskedWell(id) && id < 4
      modifies this`dns2Use, this`lastGood
      ensures LineHolds(NoJob) && lastGood == dns2Use == asked[|asked| - 1]
    {
      lastGood := DnsGroup(id);
      if id >= 2 {
        dns2Use := !dns2Use;
      }
    }

    // What comes of a later poll, which received `p.d`: nothing yet, the address that the
    // lookup found, or a failure, on which the other group is asked if only one has been.
    ghost predicate LookupPolled(was: Was, id: nat, wasAsked: seq<bool>, wasGood: bool, send: bool, p: LookupPoll)
      reads this`connections, this`command, this`length, data, this`dns1, this`dns2, this`configDns1, this`configDns2
      reads this`dns2Use, this`lastGood, this`asked
      requires was.length as int <= |was.data|
    {
      var name := was.data[..was.length];
      if p.rc == 0 && !p.late then
        !send && PacketKept(was) && connections == was.connections && asked == wasAsked && lastGood == wasGood
          && p.next == []
      else if p.rc == 1 then
        && send && command == was.command && Replies(p.ip) && p.next == []
        && asked == wasAsked && asked != [] && lastGood == dns2Use == asked[|asked| - 1]
      else
        && lastGood == wasGood
        && (if id < 2 then StartSaid(2, name, !send, p.next) else send && p.next == [])
        && if send then FailedFrom(was, 2) && asked == wasAsked
           else PacketKept(was) && wasAsked == [lastGood] && asked == [lastGood, !lastGood]
    }

    // What a run of such polls goes by.
    lemma PolledFacts(was: Was, id: nat, wasAsked: seq<bool>, wasGood: bool, send: bool, p: LookupPoll)
      requires was.length as int <= |was.data| && was.command != ERROR
      requires LookupPolled(was, id, wasAsked, wasGood, send, p)
      ensures asked == wasAsked || (!send && wasAsked == [wasGood] && asked == [wasGood, !wasGood])
      ensures !send ==> PacketKept(was) && lastGood == wasGood
      ensures send && command == was.command ==>
                p.rc == 1 && Replies(p.ip) && asked != [] && lastGood == dns2Use == asked[|asked| - 1]
      ensures send && command != was.command ==> lastGood == wasGood
    {
      hide StartSaid;
    }

    // What the host answers in such a poll.
    ghost function LookupSaid(p: LookupPoll): seq<Said> {
      [DatagramSaid(p.d.rc, p.d.data, p.d.sender)] + (if p.rc == 0 then [TimerSaid(p.late)] else []) + p.next
    }

    // command_dns_request_check
    method DnsRequestCheck() returns (send: bool, ghost p: LookupPoll)
      requires Processing(DNS_REQUEST) && processing != 0
      modifies this`connections, this`processingData, this`processingAddr, this`command, this`length
      modifies this`dnsId, this`asked, this`dns2Use, this`lastGood, data, dns, dns.data, host`sockets, host`incoming
      modifies host`accepted, host`said
      ensures Shape() && Sound()
      ensures if send then Rests() else Consistent() && command == DNS_REQUEST && processing == 1
      ensures send ==> connections == old(connections)[old(Length(processingData[0])) := false]
      ensures Heard(LookupSaid(p))
      ensures AnswerGiven(p.d, old(processingAddr), old(dns.id), old(data[..length]), p.rc, p.ip)
      ensures LookupPolled(old(Snapshot()), old(Length(processingData[1])), old(asked), old(lastGood), send, p)
    {
      hide LookupPolled, AnswerGiven, LookupSaid;
      var conn, id := Length(processingData[0]), Length(processingData[1]);
      AsksIsConsistent(conn);
      send, p := PollLookup(conn, id);
      if !send {
        AsksIsConsistent(conn);
      }
    }

    // The same, on the socket of the lookup.
    method PollLookup(conn: nat, id: nat) returns (send: bool, ghost p: LookupPoll)
      requires Shape() && Asks(conn) && id == processingData[1]
      modifies this`connections, this`processingData, this`processingAddr, this`command, this`length
      modifies this`dnsId, this`asked, this`dns2Use, this`lastGood, data, dns, dns.data, host`sockets, host`incoming
      modifies host`accepted, host`said
      ensures Shape()
      ensures if send then LineHolds(NoJob) && connections == old(connections)[conn := false]
              else Asks(conn) && command == old(command)
      ensures Heard(LookupSaid(p))
      ensures AnswerGiven(p.d, old(processingAddr), old(dns.id), old(data[..length]), p.rc, p.ip)
      ensures LookupPolled(old(Snapshot()), id, old(asked), old(lastGood), send, p)
    {
      AskingIs(conn);
      hide LineHolds, AnswerGiven, LookupPolled, LookupSaid;
      ghost var d;
      var rc, ip;
      rc, ip, d := ReceiveAnswer(conn);
      AnswerFacts(d, processingAddr, dns.id, data[..length], rc, ip);
      send, p := SettleLookup(conn, id, d, rc, ip);
      HeardBoth(old(host.said), d, p);
    }

    lemma HeardBoth(before: seq<Said>, d: Datagram, p: LookupPoll)
      requires p.d == d
      ensures before + [DatagramSaid(d.rc, d.data, d.sender)]
              + ((if p.rc == 0 then [TimerSaid(p.late)] else []) + p.next)
              == before + LookupSaid(p)
    {
    }

    // The rest of a poll, after mobile_dns_request_recv.
    method SettleLookup(conn: nat, id: nat, ghost d: Datagram, rc: int, ip: seq<byte>)
      returns (send: bool, ghost p: LookupPoll)
      requires Shape() && Asks(conn) && id == processingData[1] && rc <= 1 && (rc == 1 ==> |ip| == 4)
      modifies this`connections, this`processingData, this`processingAddr, this`command, this`length
      modifies this`dnsId, this`asked, this`dns2Use, this`lastGood, data, dns, dns.data, host`sockets, host`incoming
      modifies host`accepted, host`said
      ensures Shape()
      ensures if send then LineHolds(NoJob) && connections == old(connections)[conn := false]
              else Asks(conn) && command == old(command)
      ensures p.d == d && p.rc == rc && p.ip == ip
      ensures Heard((if rc == 0 then [TimerSaid(p.late)] else []) + p.next)
      ensures LookupPolled(old(Snapshot()), id, old(asked), old(lastGood), send, p)
    {
      hide LineHolds, StartSaid, Asks;
      p := LookupPoll(d, rc, ip, false, []);
      if rc == 0 {
        var late := host.TimePassed();
        p := p.(late := late);
        if !late {
          return false, p;
        }
      }
      if rc == 1 {
        FinishLookup(conn, id, ip);
        send := true;
      } else {
        ghost var next;
        send, next := GiveUpServer(conn, id);
        p := p.(next := next);
      }
    }

    // A server that has not answered, or not well.
    method GiveUpServer(conn: nat, id: nat) returns (send: bool, ghost heard: seq<Said>)
      requires Shape() && Asks(conn) && id == processingData[1]
      modifies this`connections, this`processingData, this`processingAddr, this`command, this`length
      modifies this`dnsId, this`asked, data, dns, dns.data, host`sockets, host`incoming, host`accepted, host`said
      ensures Shape() && Heard(heard)
      ensures if id < 2 then StartSaid(2, old(data[..length]), !send, heard) else send && heard == []
      ensures if send then LineHolds(NoJob) && FailedFrom(old(Snapshot()), 2) && asked == old(asked)
                           && connections == old(connections)[conn := false]
              else
                && Asks(conn) && PacketKept(old(Snapshot())) && old(asked) == [lastGood]
                && asked == [lastGood, !lastGood]
    {
      AskingIs(conn);
      hide LineHolds, StartSaid;
      CloseConnection(conn, Asking(conn, processingAddr));
      send, heard := NextServer(conn, id);
    }

    // A lookup that has its address.
    method FinishLookup(conn: nat, id: nat, ip: seq<byte>)
      requires Shape() && Asks(conn) && id == processingData[1] && |ip| == 4
      modifies this`connections, this`length, this`dns2Use, this`lastGood, data, host`sockets
      ensures Shape() && LineHolds(NoJob) && connections == old(connections)[conn := false]
      ensures Replies(ip) && asked != [] && lastGood == dns2Use == asked[|asked| - 1]
    {
      hide LineHolds;
      CloseConnection(conn, Asking(conn, processingAddr));
      Remember(id);
      ReplyAddress(ip);
    }

    /** What comes of a poll of DNS_REQUEST. */
    twostate predicate LookupDone(send: bool, p: LookupPoll)
      reads this`sessionStarted, this`state, this`connections, this`processing, this`command, this`length
      reads this`dns1, this`dns2, this`configDns1, this`configDns2, this`dns2Use, this`lastGood, this`asked
      reads data, host`sockets, host`peer, host`said
      requires data.Length == 0xFF && old(|processingData|) == 4
    {
      if old(processing) == 0 then
        Heard(p.next) && LookupBegun(old(Snapshot()), send, p.next) && lastGood == old(lastGood)
      else
        && Heard(LookupSaid(p))
        && AnswerGiven(p.d, old(processingAddr), old(dns.id), old(data[..length]), p.rc, p.ip)
        && LookupPolled(old(Snapshot()), old(Length(processingData[1])), old(asked), old(lastGood), send, p)
    }

    // command_dns_request
    method DnsRequest() returns (send: bool, ghost p: LookupPoll)
      requires Handling(DNS_REQUEST)
      modifies this`connections, this`processing, this`processingData, this`processingAddr, this`command, this`length
      modifies this`dnsId, this`asked, this`dns2Use, this`lastGood, data, dns, dns.data
      modifies host`sockets, host`incoming, host`accepted, host`said, host`broken
      ensures Shape() && !clash && (Sound() <==> old(processing != 0 || MayHandle()))
      ensures Sound() ==> if send then Rests() else Consistent() && command == DNS_REQUEST
      ensures Sound() ==> LookupDone(send, p)
      ensures Sound() ==> lastGood == if old(processing) != 0 && p.rc == 1 && asked != [] then asked[|asked| - 1]
                                      else old(lastGood)
    {
      FetchSocket();
      hide Consistent, Rests, LookupBegun, LookupPolled, AnswerGiven, LookupSaid, MayHandle;
      p := LookupPoll(Datagram(0, [], NoAddr), 0, [], false, []);
      if processing == 0 {
        ghost var heard;
        send, heard := DnsRequestBegin();
        p := p.(next := heard);
      } else {
        UnderWay();
        send, p := CheckLookup();
      }
    }

    // The later polls, and the group that is favoured after them
    method CheckLookup() returns (send: bool, ghost p: LookupPoll)
      requires Processing(DNS_REQUEST) && processing != 0
      modifies this`connections, this`processingData, this`processingAddr, this`command, this`length
      modifies this`dnsId, this`asked, this`dns2Use, this`lastGood, data, dns, dns.data, host`sockets, host`incoming
      modifies host`accepted, host`said
      ensures Shape() && Sound() && LookupDone(send, p)
      ensures if send then Rests() else Consistent() && command == DNS_REQUEST
      ensures lastGood == if p.rc == 1 && asked != [] then asked[|asked| - 1] else old(lastGood)
    {
      Buffers();
      hide Consistent, Rests, LookupPolled, AnswerGiven, LookupSaid;
      ghost var was, id, wasAsked, wasGood := Snapshot(), Length(processingData[1]), asked, lastGood;
      send, p := DnsRequestCheck();
      LookupFavours(was, id, wasAsked, wasGood, send, p);
    }

    // A lookup favours no other group than one that has just succeeded.
    lemma LookupFavours(was: Was, id: nat, wasAsked: seq<bool>, wasGood: bool, send: bool, p: LookupPoll)
      requires was.length as int <= |was.data| && LookupPolled(was, id, wasAsked, wasGood, send, p)
      ensures lastGood == if p.rc == 1 && asked != [] then asked[|asked| - 1] else wasGood
    {
      hide StartSaid;
    }

    // ---------- The rest of the commands ----------

    // What comes of CHECK_STATUS.
    twostate predicate StatusGiven()
      reads this`sessionStarted, this`state, this`connections, this`device, this`unmetered, this`command, this`length
      reads data, host`sockets, host`peer
      requires data.Length == 0xFF
    {
      && command == old(command) && length == 3 && SameLine()
      && data[0] == (if state in {Call, CallIsp, Internet} then 4 else if state == CallRecv then 5 else 0)
      && data[1] == (if device in {RED, YELLOW} then 0x48 else 0x4D) && data[2] == if unmetered then 0xF0 else 0
    }

    // command_check_status
    method CheckStatus()
      requires Handling(CHECK_STATUS)
      modifies this`length, data
      ensures Rests() && StatusGiven()
    {
      Buffers();
      hide Consistent, Rests;
      StoreStatus(if state == Call || state == CallIsp || state == Internet then 4
                  else if state == CallRecv then 5 else 0,
                  if device == RED || device == YELLOW then 0x48 else 0x4D, if unmetered then 0xF0 else 0);
      OnlyReplied();
    }

    method StoreStatus(line: byte, kind: byte, metered: byte)
      requires data.Length == 0xFF
      modifies this`length, data
      ensures length == 3 && data[0] == line && data[1] == kind && data[2] == metered
    {
      data[0], data[1], data[2] := line, kind, metered;
      length := 3;
    }

    // What comes of EEPROM_READ, for which the host read `bytes` if `ok`.
    twostate predicate EepromWasRead(ok: bool, bytes: seq<byte>)
      reads this`sessionStarted, this`state, this`connections, this`command, this`length, data, host`sockets
      reads host`peer, host`said
      requires data.Length == 0xFF
    {
      var offset, size := old(Length(data[0])), old(Length(data[1]));
      && SameLine()
      && if old(length) < 2 || !Readable(offset, size) then Failed(2) && Heard([])
         else
           && Heard(if size > 0 then [ReadSaid(offset, ok, bytes)] else [])
           && if size > 0 && !ok then Failed(0)
              else command == old(command) && length == size + 1 && data[0] == offset
                   && data[1..length] == if size > 0 then bytes else []
    }

    // command_eeprom_read
    method EepromRead() returns (ghost ok: bool, ghost bytes: seq<byte>)
      requires Handling(EEPROM_READ)
      modifies this`command, this`length, data, host`said
      ensures Rests() && EepromWasRead(ok, bytes)
    {
      Buffers();
      hide Consistent, Rests, Readable;
      ok, bytes := true, [];
      if length < 2 || !Readable(Length(data[0]), Length(data[1])) {
        Refuse(2);
      } else {
        ok, bytes := ReadPiece(Length(data[0]), Length(data[1]));
      }
    }

    // The same for a piece that may be read
    method ReadPiece(offset: nat, size: nat) returns (ghost ok: bool, ghost bytes: seq<byte>)
      requires Handling(EEPROM_READ) && data.Length == 0xFF && length >= 2
      requires offset == Length(data[0]) && size == Length(data[1]) && Readable(offset, size)
      modifies this`command, this`length, data, host`said
      ensures Rests() && EepromWasRead(ok, bytes)
    {
      Buffers();
      hide Consistent, Rests;
      ok, bytes := true, [];
      length := size + 1;
      if size > 0 {
        var read, found := host.ConfigRead(offset, size);
        ok, bytes := read, found;
        if read {
          forall i | 0 <= i < size {
            data[1 + i] := found[i];
          }
          assert data[1..length] == bytes;
        } else {
          Error(0);
        }
      }
      OnlyReplied();
    }

    // What comes of EEPROM_WRITE.
    twostate predicate EepromWasWritten(ok: bool)
      reads this`sessionStarted, this`state, this`connections, this`command, this`length, data, host`sockets
      reads host`peer, host`said
      requires data.Length == 0xFF
    {
      var offset, payload := old(Length(data[0])), Rest(old(Snapshot()));
      && SameLine()
      && if old(length) < 1 || !Readable(offset, |payload|) then Failed(2) && Heard([])
         else
           && Heard(if payload != [] then [WriteSaid(offset, payload, ok)] else [])
           && if payload != [] && !ok then Failed(0)
              else command == old(command) && length == 2 && data[0] == offset && Length(data[1]) == |payload|
    }

    // command_eeprom_write
    method EepromWrite() returns (ghost ok: bool)
      requires Handling(EEPROM_WRITE)
      modifies this`command, this`length, data, host`said
      ensures Rests() && EepromWasWritten(ok)
    {
      Buffers();
      hide Consistent, Rests, Readable;
      ok := true;
      if length < 1 || !Readable(Length(data[0]), Length(length) - 1) {
        Refuse(2);
      } else {
        ok := WritePiece(Length(data[0]), Length(length) - 1);
      }
    }

    // The same for a piece that may be written
    method WritePiece(offset: nat, size: nat) returns (ghost ok: bool)
      requires Handling(EEPROM_WRITE) && data.Length == 0xFF && length >= 1
      requires offset == Length(data[0]) && size == Length(length) - 1 && Readable(offset, size)
      modifies this`command, this`length, data, host`said
      ensures Rests() && EepromWasWritten(ok)
    {
      Buffers();
      hide Consistent, Rests;
      assert data[1..1 + size] == Rest(Snapshot());
      var written := true;
      if size > 0 {
        written := host.ConfigWrite(offset, data[1..1 + size]);
      }
      ok := written;
      if written {
        data[1] := size;
        length := 2;
      } else {
        Error(0);
      }
      OnlyReplied();
    }

    // ---------- Polls and runs ----------

    // A packet that has just been parsed is no job yet.
    twostate lemma JustParsed()
      requires old(Consistent() && !parsed) && parsed && processing == 0
      requires unchanged(this`sessionStarted, this`orderly, this`fetchActive, this`configRelay, this`state,
               this`connections, this`clash)
      requires unchanged(this`dns2Use, this`lastGood, host, relay, relay.data, dns) && |processingData| == 4
      ensures Consistent()
    {
      hide Midway;
    }

    // command_handle's parsing: the packet is what the serial side received; the rest of the
    // shared memory holds whatever the serial side has left there.
    method Parse(command: byte, length: byte, payload: seq<byte>, stale: seq<byte>, staleAddr: Addr)
      requires Consistent() && !parsed && |payload| == 0xFF && |stale| == 4
      modifies this`parsed, this`command, this`length, this`processing, this`processingData, this`processingAddr, data
      ensures Consistent() && parsed && processing == 0
      ensures this.command == command && this.length == length && data[..] == payload
    {
      Buffers();
      hide Consistent;
      TakePacket(command, length, payload, stale, staleAddr);
      JustParsed();
    }

    // The packet is in the buffer that the serial side shares with the commands.
    method TakePacket(command: byte, length: byte, payload: seq<byte>, stale: seq<byte>, staleAddr: Addr)
      requires data.Length == |payload| == 0xFF
      modifies this`parsed, this`command, this`length, this`processing, this`processingData, this`processingAddr, data
      ensures parsed && this.command == command && this.length == length && data[..] == payload
      ensures processing == 0 && processingData == stale && processingAddr == staleAddr
    {
      parsed, this.command, this.length, processing := true, command, length, 0;
      processingData, processingAddr := stale, staleAddr;
      forall i | 0 <= i < 0xFF {
        data[i] := payload[i];
      }
    }

    // What comes of a command that is always answered in one poll; the UDP commands,
    // TEST_MODE and commands that do not exist are an error.
    twostate predicate AnswerDone(r: Report)
      reads this`sessionStarted, this`mode32, this`state, this`connections, this`dns1, this`dns2, this`dns2Use
      reads this`lastGood, this`configDns1, this`configDns2, this`device, this`unmetered, this`fetchActive
      reads this`command, this`length, data, host`sockets, host`peer, host`said
      requires data.Length == 0xFF && old(|connections|) == MAX_CONNECTIONS
      requires |host.sockets| == |old(host.sockets)| == MAX_CONNECTIONS
    {
      var c := old(command);
      if c == START then Started()
      else if c == END then Ended()
      else if c == OFFLINE then WentOffline()
      else if c == REINIT then Reinitialised()
      else if c == CHECK_STATUS then StatusGiven()
      else if c == CHANGE_CLOCK then ClockSet()
      else if c == EEPROM_READ then EepromWasRead(r.ok, r.bytes)
      else if c == EEPROM_WRITE then EepromWasWritten(r.ok)
      else if c == PPP_CONNECT then LoggedIn()
      else if c == PPP_DISCONNECT then LoggedOut()
      else if c == TCP_DISCONNECT then TcpClosed()
      else Failed(1) && SameLine()
    }

    // The commands that are always answered in one poll.
    method Answer() returns (ghost r: Report)
      requires Consistent() && parsed && !TakesPolls(command)
      modifies this`sessionStarted, this`mode32, this`state, this`connections, this`dns1, this`dns2, this`dns2Use
      modifies this`lastGood, this`fetchActive, this`orderly, this`clash, this`command, this`length, data
      modifies host`sockets, host`peer, host`said, host`broken
      ensures Shape() && (Kept() <==> old(MayHandle())) && (clash ==> old(fetchActive))
      ensures old(command) != START ==> (Kept() <==> Sound())
      ensures Kept() ==> Rests() && AnswerDone(r)
      ensures old(command) !in {OFFLINE, END, REINIT} ==> host.peer == old(host.peer)
      ensures old(command) !in {START, END, REINIT} ==> sessionStarted == old(sessionStarted)
      ensures lastGood == if old(command) == PPP_CONNECT && command == PPP_CONNECT then false else old(lastGood)
    {
      FetchSocket();
      hide Consistent, Rests, AnswerDone, MayHandle, Kept;
      if command == START || command == END || command == REINIT {
        r := AnswerSession();
      } else {
        NeedsNothing();
        r := AnswerOther();
        SoundIsKept();
        RestIsKept();
      }
    }

    // Those that begin and end sessions
    method AnswerSession() returns (ghost r: Report)
      requires Consistent() && parsed && (command == START || command == END || command == REINIT)
      modifies this`sessionStarted, this`mode32, this`state, this`connections, this`fetchActive, this`orderly
      modifies this`clash, this`command, this`length, data, host`sockets, host`peer, host`broken
      ensures Shape() && (Kept() <==> old(MayHandle())) && (clash ==> old(fetchActive))
      ensures old(command) != START ==> (Kept() <==> Sound())
      ensures Kept() ==> Rests() && AnswerDone(r)
      ensures old(command) == START ==> host.peer == old(host.peer)
    {
      FetchSocket();
      hide Consistent, Rests, Started, Ended, Reinitialised, MayHandle;
      r := NoReport();
      if command == START {
        Start();
      } else if command == END {
        End();
      } else {
        Reinit();
      }
      if Sound() && Mirrored() {
        RestIsKept();
      }
    }

    method AnswerOther() returns (ghost r: Report)
      requires Consistent() && parsed && !TakesPolls(command) && command != START && command != END && command != REINIT
      modifies this`mode32, this`state, this`connections, this`dns1, this`dns2, this`dns2Use
      modifies this`lastGood, this`command, this`length, data, host`sockets, host`peer, host`said
      ensures Shape() && Rests() && AnswerDone(r)
      ensures old(command) != OFFLINE ==> host.peer == old(host.peer)
      ensures lastGood == if old(command) == PPP_CONNECT && command == PPP_CONNECT then false else old(lastGood)
    {
      FetchSocket();
      hide Consistent, Rests, WentOffline, StatusGiven, ClockSet, EepromWasRead, EepromWasWritten, LoggedIn,
           LoggedOut, TcpClosed;
      r := NoReport();
      if command == OFFLINE {
        Offline();
      } else if command == CHECK_STATUS {
        CheckStatus();
      } else if command == CHANGE_CLOCK {
        ChangeClock();
      } else if command == EEPROM_READ {
        ghost var ok, bytes;
        ok, bytes := EepromRead();
        r := r.(ok := ok, bytes := bytes);
      } else if command == EEPROM_WRITE {
        ghost var ok;
        ok := EepromWrite();
        r := r.(ok := ok);
      } else if command == PPP_CONNECT {
        PppConnect();
      } else if command == PPP_DISCONNECT {
        PppDisconnect();
      } else if command == TCP_DISCONNECT {
        TcpDisconnect();
      } else {
        Refuse(1);
      }
    }

    // Between commands, and between their polls, the contract has been kept.
    lemma RestIsKept()
      requires Rests() || Consistent()
      ensures Shape() && Kept()
    {
      hide Midway, JobHolds;
    }

    // The server group that this poll has made the favoured one: that of a lookup that has
    // succeeded, or DNS1 after a login.
    twostate function Favoured(r: Report): Option<bool>
      reads this`command, this`asked
    {
      if old(command) == PPP_CONNECT && command == PPP_CONNECT then Some(false)
      else if old(command) == DNS_REQUEST && old(processing) != 0 && r.p.rc == 1 && asked != [] then
        Some(asked[|asked| - 1])
      else None
    }

    // What comes of one poll, of which `r` reports.
    twostate predicate ProcessDone(send: bool, r: Report)
      reads this, host, relay, relay.data, dns, data
      requires old(Consistent()) && Shape()
    {
      var c := old(command);
      if c == TEL then TelDone(send, r.late, r.rc, r.a)
      else if c == WAIT_CALL then
        WaitDone(old(Snapshot()), old(relay.Seen(host, 0)), old(processing) == 0, send, r.late, r.rc, r.a)
      else if c == DATA then DataDone(send, r.e)
      else if c == TCP_CONNECT then TcpDone(send, r.late, r.rc)
      else if c == DNS_REQUEST then LookupDone(send, r.p)
      else send && AnswerDone(r)
    }

    // The commands that can always be handled.
    lemma NeedsNothing()
      requires |host.sockets| == |connections| == MAX_CONNECTIONS && data.Length == 0xFF
      requires command !in {START, END, TEL, WAIT_CALL, REINIT, TCP_CONNECT, DNS_REQUEST}
      ensures MayHandle()
    {
    }

    /** What comes of a poll of any command: unless the packet may not be handled, which only
        its first poll can find out, the contract is kept, and the command is over or goes on. */
    twostate predicate Handled(send: bool, r: Report)
      reads this, host, relay, relay.data, dns, data
      requires old(Consistent()) && Shape()
    {
      && (clash ==> old(fetchActive)) && (old(command) != START ==> (Kept() <==> Sound()))
      && (Kept() <==> old(processing != 0 || MayHandle()) || (old(command) == WAIT_CALL && Forgiven()))
      && (Kept() ==> (if send then Rests() else Consistent()) && ProcessDone(send, r))
    }

    method HandleTel() returns (send: bool, ghost r: Report)
      requires Handling(TEL)
      modifies this`processingAddr, this`connections, this`processing, this`command, this`length, this`state
      modifies this`orderly, this`clash, data, host, relay, relay.data
      ensures Shape() && Handled(send, r)
    {
      FetchSocket();
      hide Consistent, Rests, MayHandle, Kept, Forgiven, TelDone, WaitDone, DataDone, TcpDone, LookupDone, AnswerDone;
      r := NoReport();
      ghost var late, rc, a;
      send, late, rc, a := Tel();
      r := r.(late := late, rc := rc, a := a);
      SoundIsKept();
    }

    method HandleWaitCall() returns (send: bool, ghost r: Report)
      requires Handling(WAIT_CALL)
      modifies this`processingAddr, this`connections, this`processing, this`command, this`length, this`state
      modifies this`orderly, this`clash, data, host, relay, relay.data
      ensures Shape() && Handled(send, r)
    {
      FetchSocket();
      hide Consistent, Rests, MayHandle, Kept, Forgiven, TelDone, WaitDone, DataDone, TcpDone, LookupDone, AnswerDone;
      r := NoReport();
      ghost var late, rc, a;
      send, late, rc, a := WaitCall();
      r := r.(late := late, rc := rc, a := a);
      SoundIsKept();
    }

    method HandleData() returns (send: bool, ghost r: Report)
      requires Handling(DATA)
      modifies this`processing, this`processingData, this`connections, this`command, this`length, this`acceptedBefore
      modifies data, host`sockets, host`incoming, host`accepted, host`said
      ensures Shape() && Handled(send, r)
    {
      FetchSocket();
      NeedsNothing();
      hide Consistent, Rests, MayHandle, Kept, TelDone, WaitDone, DataDone, TcpDone, LookupDone, AnswerDone;
      r := NoReport();
      ghost var e;
      send, e := Data();
      r := r.(e := e);
      RestIsKept();
    }

    method HandleTcpConnect() returns (send: bool, ghost r: Report)
      requires Handling(TCP_CONNECT)
      modifies this`connections, this`processing, this`processingData, this`command, this`length, data, host`sockets
      modifies host`incoming, host`accepted, host`said, host`broken
      ensures Shape() && Handled(send, r)
    {
      FetchSocket();
      hide Consistent, Rests, MayHandle, Kept, TelDone, WaitDone, DataDone, TcpDone, LookupDone, AnswerDone;
      r := NoReport();
      ghost var late, rc;
      send, late, rc := TcpConnect();
      r := r.(late := late, rc := rc);
      SoundIsKept();
    }

    method HandleDnsRequest() returns (send: bool, ghost r: Report)
      requires Handling(DNS_REQUEST)
      modifies this`connections, this`processing, this`processingData, this`processingAddr, this`command, this`length
      modifies this`dnsId, this`asked, this`dns2Use, this`lastGood, data, dns, dns.data
      modifies host`sockets, host`incoming, host`accepted, host`said, host`broken
      ensures Shape() && Handled(send, r)
      ensures Sound() ==> lastGood == match Favoured(r) case Some(g) => g case None => old(lastGood)
    {
      FetchSocket();
      hide Consistent, Rests, MayHandle, Kept, TelDone, WaitDone, DataDone, TcpDone, LookupDone, AnswerDone;
      r := NoReport();
      ghost var p;
      send, p := DnsRequest();
      r := r.(p := p);
      SoundIsKept();
    }

    lemma SoundIsKept()
      requires Shape() && (Sound() ==> Rests() || Consistent())
      ensures Kept() <==> Sound()
    {
      if Sound() {
        RestIsKept();
      }
    }

    // mobile_commands_process
    method Dispatch() returns (send: bool, ghost r: Report)
      requires Consistent() && parsed
      modifies this, data, host, relay, relay.data, dns, dns.data
      ensures parsed && Shape() && Handled(send, r)
      ensures old(command) !in {TEL, WAIT_CALL} ==> host.own == old(host.own)
      ensures old(command) !in {TEL, WAIT_CALL, OFFLINE, END, REINIT} ==> host.peer == old(host.peer)
      ensures old(command) !in {START, END, REINIT} ==> sessionStarted == old(sessionStarted)
      ensures Kept() ==> lastGood == match Favoured(r) case Some(g) => g case None => old(lastGood)
    {
      hide Consistent, Rests, MayHandle, Handled;
      if command == TEL {
        send, r := HandleTel();
      } else if command == WAIT_CALL {
        send, r := HandleWaitCall();
      } else if command == DATA {
        send, r := HandleData();
      } else if command == TCP_CONNECT {
        send, r := HandleTcpConnect();
      } else if command == DNS_REQUEST {
        send, r := HandleDnsRequest();
      } else {
        r := HandleAtOnce();
        send := true;
      }
    }

    lemma AtOnce()
      requires Consistent() && parsed && !TakesPolls(command)
      ensures processing == 0
    {
    }

    method HandleAtOnce() returns (ghost r: Report)
      requires Consistent() && parsed && !TakesPolls(command)
      modifies this`sessionStarted, this`mode32, this`state, this`connections, this`dns1, this`dns2, this`dns2Use
      modifies this`lastGood, this`fetchActive, this`orderly, this`clash, this`command, this`length, data
      modifies host`sockets, host`peer, host`said, host`broken
      ensures Shape() && Handled(true, r)
      ensures old(command) !in {OFFLINE, END, REINIT} ==> host.peer == old(host.peer)
      ensures old(command) !in {START, END, REINIT} ==> sessionStarted == old(sessionStarted)
      ensures lastGood == match Favoured(r) case Some(g) => g case None => old(lastGood)
    {
      AtOnce();
      hide Consistent, Rests, MayHandle, Kept, TelDone, WaitDone, DataDone, TcpDone, LookupDone, AnswerDone;
      r := Answer();
    }

    /** command_handle: one poll of the parsed command.  A first poll keeps the socket contract
        exactly if the packet may be handled, or the timer lets a WAIT_CALL off; later ones always
        do.  With a packet to send the command is over, and the line is in order without it.  What
        comes of the poll follows, command by command, from the state before it and the host's
        answers; no other command changes the numbers that the host was told, the DNS group that
        is favoured, or whether there is a session. */
    method Process() returns (send: bool, ghost r: Report)
      requires Consistent() && parsed
      modifies this, data, host, relay, relay.data, dns, dns.data
      ensures Shape() && parsed == !send && (clash ==> old(fetchActive))
      ensures old(command) != START && !old(fetchActive) ==> (Kept() <==> !host.broken)
      ensures Kept() <==> old(processing != 0 || MayHandle()) || (old(command) == WAIT_CALL && Forgiven())
      ensures Kept() ==> Consistent() && ProcessDone(send, r)
      ensures old(command) !in {TEL, WAIT_CALL} ==> host.own == old(host.own)
      ensures old(command) !in {TEL, WAIT_CALL, OFFLINE, END, REINIT} ==> host.peer == old(host.peer)
      ensures old(command) !in {START, END, REINIT} ==> sessionStarted == old(sessionStarted)
      ensures Kept() ==> lastGood == match Favoured(r) case Some(g) => g case None => old(lastGood)
    {
      hide Consistent, Rests, MayHandle, Forgiven, TelDone, WaitDone, DataDone, TcpDone, LookupDone, AnswerDone;
      send, r := Dispatch();
      if send {
        if Kept() {
          Finish();
        }
        parsed := false;
      }
    }

    // The reply is on its way: global.packet_parsed is cleared.
    method Finish()
      requires Rests()
      modifies this`parsed
      ensures Consistent() && !parsed
    {
      hide LineHolds;
      parsed := false;
    }

    // ---------- The user's number ----------

    // A fetch that is given up, by closing its socket, leaves everything as it was before.
    twostate lemma FetchLeft()
      requires old(Consistent()) && Shape() && Sound() && !fetchActive && host.sockets == old(Own())
      requires unchanged(this`sessionStarted, this`state, this`connections, this`dns2Use, this`lastGood, this`parsed)
      requires unchanged(this`command, this`length, this`processing, this`processingData, this`processingAddr, data)
      requires unchanged(this`acceptedBefore, this`asked, this`dnsId, this`orderly, dns)
      requires unchanged(relay`state, relay`processing, relay`size, relay.data, host`incoming, host`accepted)
      ensures Consistent()
    {
      hide Midway;
      assert relay.Now() == old(relay.Now());
    }

    // mobile_number_fetch_reset
    method NumberFetchReset()
      requires Shape()
      modifies this`fetchActive, host`sockets, host`own, host`broken, relay`retries
      ensures Shape() && !fetchActive && relay.retries == 3 && host.sockets == old(Own())
      ensures host.broken == (old(host.broken) || old(fetchActive && host.sockets[0] == Closed))
      ensures host.own == if old(relay.retries) == 0 then None else old(host.own)
    {
      NumberFetchCancel();
      if relay.retries == 0 {
        host.ReportOwn(None);
      }
      relay.retries := 3;
    }

    // mobile_actions_get: a fetch goes on, or is to begin
    predicate MayFetch()
      reads this`sessionStarted, this`fetchActive, this`configRelay, relay`retries
    {
      // global.active is set during a session
      fetchActive || (!sessionStarted && relay.retries > 0 && configRelay != NoAddr)
    }

    /** Where a fetch that begins finds its socket closed: it is not flagged, or by a flag that
        was left over. */
    lemma FetchFinds()
      requires Consistent() && !fetchActive
      ensures host.sockets[0] == Closed <==> !connections[0] || !orderly
    {
      hide Consistent;
      OrderlyExactly();
    }

    // number_fetch_handle's beginning of a fetch, which does not look at whether the socket
    // can be opened.
    method BeginFetch() returns (ok: bool)
      requires Consistent() && !parsed && !fetchActive && MayFetch()
      modifies this`fetchActive, relay`retries, relay`state, relay`processing
      modifies host`sockets, host`incoming, host`accepted, host`said, host`broken
      ensures Shape() && !clash && fetchActive && Heard([OpenSaid(0, ok)])
      ensures host.broken <==> old(host.sockets)[0] != Closed
      ensures !host.broken && !ok ==> host.sockets[0] == Closed
      ensures !host.broken && ok ==> Consistent() && Own() == old(Own())
      ensures relay.state == Disconnected && relay.processing == 0 && relay.retries == old(relay.retries) - 1
    {
      relay.retries := relay.retries - 1;
      relay.Init();
      ok := host.OpenUnchecked(0, false, configRelay.Addr6?, 0);
      fetchActive := true;
    }

    // A fetch that has gone on for three seconds is given up.
    method FetchTooLate() returns (late: bool)
      requires Consistent() && !parsed && fetchActive
      modifies this`fetchActive, host`sockets, host`said, host`broken
      ensures host.Valid() && relay.Valid()
      ensures Consistent() && Heard([TimerSaid(late)]) && fetchActive == !late && Own() == old(Own())
      ensures !late ==> host.sockets == old(host.sockets)
    {
      FetchSocket();
      hide Consistent;
      late := host.TimePassed();
      if late {
        NumberFetchCancel();
        FetchLeft();
      }
    }

    // The poll of the relay in number_fetch_handle, any result of which but 0 is the end.
    method PollFetch() returns (ghost rc: int, ghost a: Answers)
      requires Consistent() && !parsed && fetchActive
      modifies this`fetchActive, host, relay, relay.data
      ensures host.Valid() && relay.Valid()
      ensures Consistent() && fetchActive == (rc == 0) && Own() == old(Own())
      ensures Polled(relay.Seen(host, 0), rc) == LearnPoll(old(relay.Seen(host, 0)), a)
    {
      hide LearnPoll, Midway;
      var result;
      result, a := relay.ProcInitNumber(host, 0, configRelay);
      rc := result;
      if result != 0 {
        NumberFetchCancel();
      }
    }

    // What comes of it: a fetch is given up when its time is over, and otherwise polled.
    twostate predicate FetchDone(late: bool, rc: int, a: Answers, before: World)
      reads this`fetchActive, host, relay, relay.data
      requires host.Valid() && relay.Valid() && old(host.Valid() && relay.Valid())
    {
      && fetchActive == (!late && rc == 0)
      && (if late then old(fetchActive) && Heard([TimerSaid(true)])
          else Polled(relay.Seen(host, 0), rc) == LearnPoll(before, a))
      && if old(fetchActive) then before == Hear(old(relay.Seen(host, 0)), TimerSaid(late))
         else before.c.state == Disconnected && before.c.processing == 0
              && before.said == old(host.said) + [OpenSaid(0, true)]
              && old(relay.retries) > 0
                && before.notes == old(relay.Seen(host, 0)).notes.(retries := old(relay.retries) - 1)
    }

    method FirstFetch() returns (ok: bool, ghost rc: int, ghost a: Answers, ghost before: World)
      requires Consistent() && !parsed && !fetchActive && MayFetch() && host.Valid() && relay.Valid()
      modifies this`fetchActive, host, relay, relay.data
      ensures Shape() && !clash && (Sound() <==> old(host.sockets)[0] == Closed && ok)
      ensures Sound() ==> Consistent() && FetchDone(false, rc, a, before) && Own() == old(Own())
      ensures !Sound() ==> Heard([OpenSaid(0, ok)])
    {
      FetchFinds();
      hide LearnPoll, Midway, Consistent;
      rc, a, before := 0, Answers(0, 0, 0, 0), relay.Seen(host, 0);
      ok := BeginFetch();
      if host.broken {
        return;
      }
      if ok {
        before := relay.Seen(host, 0);
        rc, a := PollFetch();
        FetchSocket();
      } else {
        host.UseClosed(0);
      }
    }

    method FurtherFetch() returns (ghost late: bool, ghost rc: int, ghost a: Answers, ghost before: World)
      requires Consistent() && !parsed && fetchActive && host.Valid() && relay.Valid()
      modifies this`fetchActive, host, relay, relay.data
      ensures Consistent() && host.Valid() && relay.Valid() && FetchDone(late, rc, a, before) && Own() == old(Own())
    {
      hide LearnPoll, Midway, Consistent;
      rc, a := 0, Answers(0, 0, 0, 0);
      var passed := FetchTooLate();
      late := passed;
      before := relay.Seen(host, 0);
      if !passed {
        rc, a := PollFetch();
      }
    }

    /** number_fetch_handle, which runs while there is time outside a session.  It begins by
        opening socket 0, and goes on whether it could be opened (`ok`) or not: the socket
        contract is kept exactly if the socket is closed before that, and open afterwards. */
    method NumberFetchHandle()
      returns (ok: bool, ghost late: bool, ghost rc: int, ghost a: Answers, ghost before: World)
      requires Consistent() && !parsed && MayFetch() && host.Valid() && relay.Valid()
      modifies this`fetchActive, host, relay, relay.data
      ensures Shape() && !clash && (Sound() <==> old(fetchActive) || (old(host.sockets)[0] == Closed && ok))
      ensures Sound() ==> Consistent() && FetchDone(late, rc, a, before) && Own() == old(Own())
      ensures !Sound() ==> Heard([OpenSaid(0, ok)])
    {
      hide Consistent, FetchDone;
      if !fetchActive {
        late := false;
        ok, rc, a, before := FirstFetch();
      } else {
        ok := true;
        late, rc, a, before := FurtherFetch();
        FetchSocket();
      }
    }

    // The user's settings may change at any moment; another relay, or another token for it,
    // may go with another number.
    method Configure(dns1: Addr, dns2: Addr, port: nat)
      requires Consistent()
      modifies this`configDns1, this`configDns2, this`configPort
      ensures Consistent() && configDns1 == dns1 && configDns2 == dns2 && configPort == port
    {
      hide LineHolds, JobHolds, LeftOver;
      configDns1, configDns2, configPort := dns1, dns2, port;
    }

    method ConfigureRelay(addr: Addr)
      requires Consistent()
      modifies this`configRelay, this`fetchActive, host`sockets, host`own, host`broken, relay`retries
      ensures Consistent() && configRelay == addr && !fetchActive && relay.retries == 3 && host.sockets == old(Own())
      ensures host.own == if old(relay.retries) == 0 then None else old(host.own)
    {
      FetchSocket();
      hide Consistent;
      configRelay := addr;
      NumberFetchReset();
      FetchLeft();
    }

    method ConfigureToken(token: Option<seq<byte>>)
      requires Consistent() && (token.Some? ==> |token.value| == TOKEN_SIZE)
      modifies this`fetchActive, host`sockets, host`own, host`broken, relay`retries, relay`token
      ensures Consistent() && relay.token == token && !fetchActive && relay.retries == 3 && host.sockets == old(Own())
      ensures host.own == if old(relay.retries) == 0 then None else old(host.own)
    {
      FetchSocket();
      hide Consistent;
      relay.token := token;
      NumberFetchReset();
      FetchLeft();
    }

    /** At rest in a session: the flags are exactly the open sockets; nothing is open with the
        line idle, timed out or at the provider; whatever is open otherwise can be used; and a
        wait at the relay is one that only listens. */
    lemma AtRest()
      requires Consistent() && sessionStarted && !parsed
      ensures forall i | 0 <= i < MAX_CONNECTIONS :: connections[i] <==> host.sockets[i] != Closed
      ensures state in {Idle, WaitTimeout, CallIsp} ==> host.AllClosed()
      ensures state in {Call, CallRecv, Internet} ==>
                forall i | 0 <= i < MAX_CONNECTIONS && connections[i] :: Streaming(host.sockets[i])
      ensures state in {Wait, WaitRelay, Call, CallRecv} ==> connections == [true, false]
      ensures state == Wait ==> host.sockets[0] == Tcp(false, Listening)
      ensures state == WaitRelay ==> relay.state == RecvWait && relay.processing == 2 && Streaming(host.sockets[0])
    {
    }

    /** While a command is suspended the flags are the open sockets too, and a relay procedure
        that may be polled again has not linked. */
    lemma WhileSuspended()
      requires Consistent() && sessionStarted
      ensures forall i | 0 <= i < MAX_CONNECTIONS :: connections[i] <==> host.sockets[i] != Closed
      ensures state in {WaitTimeout, CallIsp} ==> host.AllClosed()
      ensures state == Idle && host.sockets[0] != Closed ==> parsed && command == TEL && processing in {1, 2}
      ensures Current() == DiallingRelay || state == WaitRelay ==> relay.state != Linked
    {
    }

    /** Ending a session that waits for a call leaves the flag of socket 0 behind: another END
        closes that socket once more. */
    method EndTwice(length: byte, payload: seq<byte>)
      requires Processing(END) && state in {Wait, WaitRelay} && |payload| == 0xFF
      modifies this`sessionStarted, this`mode32, this`state, this`connections, this`length, this`orderly, this`parsed
      modifies this`clash, this`command, this`processing, this`processingData, this`processingAddr, data
      modifies host`sockets, host`peer, host`broken
      ensures Shape() && host.broken && !clash
    {
      EndsWell();
      assert connections[0] && !fetchActive;
      hide Consistent, Rests, LineHolds, LeftOver;
      End();
      Finish();
      OrderlyExactly();
      Parse(END, length, payload, [0, 0, 0, 0], NoAddr);
      End();
    }

    /** A call that is made outside a session has socket 0.  A START leaves it open and unmarked,
        and a fetch of the user's number opens it once more. */
    method CallOutside(starts: bool, relayAddr: Addr) returns (up: bool)
      requires Processing(TEL) && processing != 0 && !sessionStarted && relayAddr != NoAddr
      modifies this, data, host, relay, relay.data, dns, dns.data
      ensures up && starts ==> Shape() && sessionStarted && connections == [false, false] && Streaming(host.sockets[0])
      ensures up && !starts ==> host.broken
    {
      hide Consistent, Rests, MayHandle, TelDone, FetchDone;
      var send, _, _, _ := Tel();
      up := send && state == Call;
      if up {
        CallIsUp();
        Finish();
        if starts {
          StartDuringCall();
        } else {
          ConfigureRelay(relayAddr);
          FetchFinds();
          Buffers();
          var _, _, _, _, _ := NumberFetchHandle();
        }
      }
    }

    method StartDuringCall()
      requires Consistent() && !sessionStarted && !parsed && state == Call && connections == [true, false]
      requires Streaming(host.sockets[0])
      modifies this, data, host, relay, relay.data, dns, dns.data
      ensures Shape() && sessionStarted && connections == [false, false] && Streaming(host.sockets[0])
    {
      OrderlyExactly();
      hide Consistent, Rests, MayHandle;
      Parse(START, 32, HAPPY + Zeros(0xFF - 32), [0, 0, 0, 0], NoAddr);
      assert data[..length] == HAPPY;
      Start();
    }

    /** Outside a session nothing is open, and nothing is asked for but to begin one.  This is
        what serial.c:60-67 sets out to ensure. */
    ghost predicate Quiet()
      reads this`sessionStarted, this`fetchActive, this`parsed, this`command, this`processing, host`sockets
      requires |host.sockets| == MAX_CONNECTIONS
    {
      sessionStarted || (Own() == [Closed, Closed] && (parsed ==> command == START && processing == 0))
    }

    // Outside a session this is no packet but START.
    predicate Checked(event: Event)
      reads this`sessionStarted
    {
      event.Packet? && !sessionStarted ==> event.command == START
    }

    // The last that the host has answered is that a socket could not be opened.
    ghost predicate OpenFailed()
      reads host`said
    {
      host.said != [] && host.said[|host.said| - 1] == OpenSaid(0, false)
    }

    /** What can happen without going against the contract: all but the first poll, outside a
        session, of a packet that may not be handled, and a fetch that begins. */
    ghost predicate Harmless(event: Event)
      reads this, data, host`sockets, relay`retries
      requires |host.sockets| == |connections| == MAX_CONNECTIONS && data.Length == 0xFF
    {
      || sessionStarted || event !in {Poll, Fetch}
      || (event == Poll && (!parsed || processing != 0 || MayHandle()))
      || (event == Fetch && (fetchActive || parsed || !MayFetch()))
    }

    // The DNS group that is favoured, if some event has made it so.
    ghost predicate Favours(favoured: Option<bool>, wasGood: bool)
      reads this`lastGood
    {
      lastGood == match favoured case Some(g) => g case None => wasGood
    }

    /** One thing that happens, if it can. */
    method Happens(event: Event) returns (ghost favoured: Option<bool>)
      requires Consistent() && Shape()
      modifies this, data, host, relay, relay.data, dns, dns.data
      ensures Shape() && (Kept() ==> Consistent()) && (event == Drop ==> !sessionStarted)
      ensures old(Harmless(event)) ==> Kept()
      ensures old(Quiet() && Checked(event)) ==> if Kept() then Quiet() else event == Fetch && OpenFailed()
      ensures Kept() ==> Favours(favoured, old(lastGood))
    {
      hide Consistent, MayHandle, Kept, Quiet;
      favoured := None;
      match event
      case Packet(command, length, payload, stale, staleAddr, device) =>
        HappensPacket(command, length, payload, stale, staleAddr, device);
      case Poll =>
        favoured := HappensPoll();
      case Fetch =>
        HappensFetch();
      case Drop =>
        HappensDrop();
      case _ =>
        HappensSetting(event);
    }

    method HappensPacket(command: byte, length: byte, payload: seq<byte>, stale: seq<byte>, staleAddr: Addr,
                         device: byte)
      requires Consistent() && Shape()
      modifies this`parsed, this`command, this`length, this`processing, this`processingData, this`processingAddr
      modifies this`device, this`unmetered, data
      ensures Shape() && Consistent() && Kept()
      ensures old(Quiet()) && (sessionStarted || command == START) ==> Quiet()
    {
      hide Consistent, Kept;
      if !parsed && |payload| == 0xFF && |stale| == 4 {
        LatchDevice(device);
        Parse(command, length, payload, stale, staleAddr);
      }
      RestIsKept();
    }

    // The game has been silent for too long.
    method HappensDrop()
      requires Consistent() && Shape()
      modifies this`state, this`connections, this`sessionStarted, this`mode32, this`parsed, this`orderly, this`clash
      modifies host`sockets, host`peer, host`broken
      ensures Shape() && Consistent() && Kept() && !sessionStarted && (old(Quiet()) ==> Quiet())
    {
      hide Consistent, Kept;
      if sessionStarted {
        Reset();
      }
      RestIsKept();
    }

    method HappensSetting(event: Event)
      requires Consistent() && Shape() && (event.Settings? || event.SetRelay? || event.SetToken?)
      modifies this`configDns1, this`configDns2, this`configPort, this`configRelay, this`fetchActive
      modifies host`sockets, host`own, host`broken, relay`retries, relay`token
      ensures Shape() && Consistent() && Kept() && (old(Quiet()) ==> Quiet())
    {
      hide Consistent, Kept;
      match event {
        case Settings(dns1, dns2, port) =>
          Configure(dns1, dns2, port);
        case SetRelay(addr) =>
          ConfigureRelay(addr);
        case SetToken(token) =>
          if token.None? || |token.value| == TOKEN_SIZE {
            ConfigureToken(token);
          }
      }
      RestIsKept();
    }

    method HappensFetch()
      requires Consistent() && Shape()
      modifies this`fetchActive, host, relay, relay.data
      ensures Shape() && (Kept() ==> Consistent()) && (Kept() && old(Quiet()) ==> Quiet())
      ensures old(Quiet()) ==> Kept() || OpenFailed()
      ensures old(fetchActive || parsed || !MayFetch()) ==> Kept()
    {
      hide Consistent, FetchDone, Kept;
      if !parsed && MayFetch() {
        var _, _, _, _, _ := NumberFetchHandle();
        SoundIsKept();
      } else {
        RestIsKept();
      }
    }

    method HappensPoll() returns (ghost favoured: Option<bool>)
      requires Consistent() && Shape()
      modifies this, data, host, relay, relay.data, dns, dns.data
      ensures Shape() && (Kept() ==> Consistent())
      ensures old(!parsed || sessionStarted || processing != 0 || MayHandle()) ==> Kept()
      ensures old(Quiet()) ==> Kept() && Quiet()
      ensures Kept() ==> Favours(favoured, old(lastGood))
    {
      favoured := None;
      if !parsed {
        RestIsKept();
        return;
      }
      if sessionStarted {
        InSession();
      }
      StartsQuietly();
      hide Consistent, MayHandle, Kept, TelDone, WaitDone, DataDone, TcpDone, LookupDone, Started, Reinitialised,
           StatusGiven, ClockSet, EepromWasRead, EepromWasWritten, LoggedIn, LoggedOut, TcpClosed, WentOffline;
      var send;
      ghost var r;
      send, r := Process();
      favoured := Favoured(r);
    }

    lemma StartsQuietly()
      requires Consistent() && parsed
      ensures host.Valid() && (Quiet() && !sessionStarted ==> MayHandle())
    {
    }

    // Outside a session the device of the settings is looked at anew with each packet.
    method LatchDevice(device: byte)
      requires Consistent()
      modifies this`device, this`unmetered
      ensures Consistent()
      ensures old(sessionStarted) ==> this.device == old(this.device) && unmetered == old(unmetered)
      ensures !old(sessionStarted) ==> this.device == device % 128 && unmetered == (device >= 128)
    {
      hide LineHolds, JobHolds, LeftOver;
      if !sessionStarted {
        this.device, unmetered := device % 128, device >= 128;
      }
    }

    // The last of these groups, if any.
    ghost function Latest(groups: seq<bool>, first: bool): bool {
      if groups == [] then first else groups[|groups| - 1]
    }

    /** Any run: packets in and out of sessions, polls, the user's settings, the fetching of the
        user's number, and time-outs that drop the session, in any order, with any answers of the
        host.  The first `n` events keep the socket contract, and these are all events unless the
        next, outside a session, is one of the two that can break it.  If packets other than START
        are not handed over outside a session (`checked`), that is only a fetch whose socket
        cannot be opened.  No session outlives a time-out, and the DNS group that is favoured is
        the one that last succeeded since the login. */
    method Live(events: seq<Event>, checked: bool) returns (n: nat, ghost groups: seq<bool>, ghost outside: bool)
      requires Consistent() && Shape() && (checked ==> Quiet())
      modifies this, data, host, relay, relay.data, dns, dns.data
      ensures n <= |events| && (n == |events| ==> Consistent() && !host.broken)
      ensures n < |events| ==> Shape() && !Kept() && outside && events[n] in {Poll, Fetch}
      ensures n < |events| && checked ==> events[n] == Fetch && OpenFailed()
      ensures n == |events| > 0 && events[n - 1] == Drop ==> !sessionStarted
      ensures n == |events| ==> lastGood == Latest(groups, old(lastGood)) && (state == Internet ==> dns2Use == lastGood)
    {
      hide Consistent, Quiet, OpenFailed;
      n, groups, outside := 0, [], true;
      while n < |events|
        invariant 0 <= n <= |events| && Consistent() && Shape() && (checked ==> Quiet())
        invariant n > 0 && events[n - 1] == Drop ==> !sessionStarted
        invariant lastGood == Latest(groups, old(lastGood))
      {
        if !checked || Checked(events[n]) {
          outside := !sessionStarted;
          ghost var favoured;
          favoured := Happens(events[n]);
          if !Kept() {
            return;
          }
          if favoured.Some? {
            groups := groups + [favoured.value];
          }
        }
        n := n + 1;
      }
      FavoursGood();
      FetchSocket();
    }

    lemma FavoursGood()
      requires Consistent()
      ensures state == Internet ==> dns2Use == lastGood
    {
      hide JobHolds, Midway;
    }

    /** Exactly once.  Over any number of polls of one DATA command, with any partial sends,
        what the connection has accepted is what it had before and a prefix of the payload,
        and once anything has been received, it is the whole payload.  What is received is what
        was next in the stream, and nothing of it is lost. */
    method PollData(polls: nat) returns (done: bool, ghost received: Option<int>)
      requires Processing(DATA) && processing == 0 && state in {Call, CallRecv, Internet} && DataUsable()
      modifies this`processing, this`processingData, this`connections, this`command, this`length, this`acceptedBefore
      modifies data, host`sockets, host`incoming, host`accepted, host`said
      ensures if done then Rests() else Consistent()
      ensures var conn, payload := old(DataConn()), old(data[1..length]);
              && SentOnce(conn, old(host.accepted)[conn], payload, received)
              && TookNext(conn, old(host.incoming)[conn], done, received)
    {
      Buffers();
      hide Consistent, Rests, SentOnce, TookNext;
      done, received := false, None;
      ghost var conn, payload := DataConn(), data[1..length];
      ghost var before, stream := host.accepted[conn], host.incoming[conn];
      NothingYet(conn, payload);
      var i := 0;
      while i < polls && !done
        invariant 0 <= i <= polls && host.Valid()
        invariant if done then Rests() else Transferring(conn, payload)
        invariant i == 0 ==> !done && processing == 0 && host.accepted[conn] == before
        invariant i > 0 && !done ==> acceptedBefore == before && processing == 1
        invariant !done ==> host.incoming[conn] == stream
        invariant SentOnce(conn, before, payload, received)
        invariant TookNext(conn, stream, done, received)
      {
        done, received := PollDataOnce(conn, payload, before, stream);
        i := i + 1;
      }
    }

    // What a connection has accepted of a payload.
    ghost predicate SentOnce(conn: nat, before: seq<byte>, payload: seq<byte>, received: Option<int>)
      reads host`accepted
    {
      && conn < |host.accepted| && before <= host.accepted[conn] <= before + payload
      && (received.Some? ==> host.accepted[conn] == before + payload)
    }

    // What has been received of its stream: it is the reply, if there is one.
    ghost predicate TookNext(conn: nat, stream: seq<byte>, done: bool, received: Option<int>)
      reads this`command, this`length, data, host`incoming
    {
      && conn < |host.incoming| && data.Length == 0xFF
      && (!done || received.None? || received.value < 0 ==> host.incoming[conn] == stream)
      && (done && received.None? ==> command == ERROR)
      && (done && received.Some? && 0 <= received.value ==>
            && received.value <= |stream| && length as int == received.value + 1
            && data[1..length] == stream[..received.value] && host.incoming[conn] == stream[received.value..])
    }

    // A DATA command for this connection that goes on.
    ghost predicate Transferring(conn: nat, payload: seq<byte>)
      reads this, relay.data, data
      reads host`sockets, host`incoming, host`accepted, host`broken
      reads relay`state, relay`processing, relay`size, relay`token, dns`size, dns`id, dns`qtype
    {
      && Processing(DATA) && state in {Call, CallRecv, Internet} && DataUsable() && DataConn() == conn
      && data[1..length] == payload
    }

    lemma NothingYet(conn: nat, payload: seq<byte>)
      requires conn < MAX_CONNECTIONS && host.Valid() && data.Length == 0xFF
      ensures SentOnce(conn, host.accepted[conn], payload, None)
      ensures TookNext(conn, host.incoming[conn], false, None)
    {
    }

    // One of these polls
    method PollDataOnce(ghost conn: nat, ghost payload: seq<byte>, ghost before: seq<byte>, ghost stream: seq<byte>)
      returns (done: bool, ghost received: Option<int>)
      requires Transferring(conn, payload) && host.incoming[conn] == stream
      requires if processing == 0 then host.accepted[conn] == before else acceptedBefore == before
      modifies this`processing, this`processingData, this`connections, this`command, this`length, this`acceptedBefore
      modifies data, host`sockets, host`incoming, host`accepted, host`said
      ensures host.Valid()
      ensures if done then Rests() else Transferring(conn, payload) && processing == 1 && acceptedBefore == before
      ensures SentOnce(conn, before, payload, received) && TookNext(conn, stream, done, received)
      ensures !done ==> host.incoming[conn] == stream
    {
      Buffers();
      hide Consistent, Rests, Exchanging, SentOnce, TookNext;
      ghost var e;
      ghost var was, sent := Snapshot(), if processing == 0 then 0 else Length(processingData[0]);
      done, e := Data();
      received := e.received;
      ExchangedFacts(was, conn, sent, done, e);
    }

    lemma ExchangedFacts(was: Was, conn: nat, sent: nat, done: bool, e: Exchanged)
      requires data.Length == |was.data| == 0xFF && conn < MAX_CONNECTIONS && host.Valid() && was.command != ERROR
      requires |was.incoming| == |was.connections| == MAX_CONNECTIONS && was.length >= 1
      requires Exchanging(was, conn, sent, done, e)
      ensures SentOnce(conn, acceptedBefore, Rest(was), e.received)
      ensures TookNext(conn, was.incoming[conn], done, e.received)
      ensures !done ==> host.incoming[conn] == was.incoming[conn] && PacketKept(was) && LineKept(was)
    {
    }


    // Calling `number` through the relay, whose stream leads to this.
    ghost predicate Calls(number: seq<byte>, ahead: Result)
      reads this, host, relay, relay.data, dns, data
    {
      && Processing(TEL) && processing == 2 && Number() == number
      && Ahead(Calling(number), relay.Seen(host, 0)) == ahead
    }

    // A call that came about is what the stream led to, and all behind it is still unread.
    ghost predicate CallEnded(ahead: Result)
      reads this`state, this`command, this`length, this`connections, host, relay, relay.data
    {
      && host.Valid() && relay.Valid()
      && if state == Call then
           && command == TEL && length == 0 && connections == [true, false] && Streaming(host.sockets[0])
           && ahead == Final(1, relay.Seen(host, 0).notes, host.incoming[0])
         else state == Idle && command == ERROR && connections == [false, false] && host.AllClosed()
    }

    lemma CallIsUp()
      requires Rests() && state in {Call, CallRecv}
      ensures orderly && !fetchActive && connections == [true, false] && Streaming(host.sockets[0])
    {
    }

    // One poll of such a call
    method PollCallOnce(ghost number: seq<byte>, ghost ahead: Result) returns (done: bool)
      requires Calls(number, ahead)
      modifies this`processingAddr, this`connections, this`processing, this`command, this`length, this`state
      modifies this`orderly, this`clash, data, host, relay, relay.data
      ensures if done then Rests() && CallEnded(ahead) else Calls(number, ahead)
    {
      Buffers();
      DialsExactly();
      hide Consistent, Rests, Midway, Ahead, RelayCallPolled, CallEnded;
      ghost var before, was := relay.Seen(host, 0), Snapshot();
      assert Rest(was) == number;
      ghost var late, rc, a;
      done, late, rc, a := Tel();
      CallForeseen(was, before, ahead, done, late, rc, a);
    }

    lemma CallForeseen(was: Was, before: World, ahead: Result, done: bool, late: bool, rc: int, a: Answers)
      requires host.Valid() && relay.Valid() && data.Length == 0xFF && was.command == TEL && was.length >= 1
      requires RelayCallPolled(was, before, done, late, rc, a)
      requires Midway(Calling(Rest(was)), before.c) && Ahead(Calling(Rest(was)), before) == ahead
      requires done ==> Rests() && orderly
      ensures done ==> CallEnded(ahead)
      ensures !done ==> Number() == Rest(was) && Ahead(Calling(Rest(was)), relay.Seen(host, 0)) == ahead
    {
      hide Midway, Ahead, ProcCallPoll, Rests;
      if !late {
        PollForesees(Calling(Rest(was)), before, a);
      }
      if done && state == Call {
        CallIsUp();
      }
    }

    /** Over any number of polls of a call through the relay, if it comes about then as the
        relay's stream leads to it, and with every byte behind the relay's answer still unread;
        otherwise nothing is left open. */
    method PollCall(polls: nat, ghost number: seq<byte>, ghost ahead: Result) returns (done: bool)
      requires Calls(number, ahead)
      modifies this`processingAddr, this`connections, this`processing, this`command, this`length, this`state
      modifies this`orderly, this`clash, data, host, relay, relay.data
      ensures if done then Rests() && CallEnded(ahead) else Calls(number, ahead)
    {
      hide Calls, CallEnded, Rests;
      done := false;
      var i := 0;
      while i < polls && !done
        invariant if done then Rests() && CallEnded(ahead) else Calls(number, ahead)
      {
        done := PollCallOnce(number, ahead);
        i := i + 1;
      }
    }

    // Waiting at the relay, whose stream leads to this.
    ghost predicate WaitsFor(ahead: Result)
      reads this, host, relay, relay.data, dns, data
    {
      Processing(WAIT_CALL) && state == WaitRelay && Ahead(Awaiting, relay.Seen(host, 0)) == ahead
    }

    // A caller is whom the stream led to, and all behind that is still unread; a wait whose
    // time is over may be gone on with, with nothing lost; otherwise nothing is open.
    ghost predicate WaitEnded(ahead: Result)
      reads this`state, this`command, this`length, this`connections, host, relay, relay.data
    {
      && host.Valid() && relay.Valid()
      && if state == CallRecv then
           && command == WAIT_CALL && length == 0 && connections == [true, false] && Streaming(host.sockets[0])
           && ahead == Final(1, relay.Seen(host, 0).notes, host.incoming[0])
         else if state == WaitRelay then command == ERROR && Ahead(Awaiting, relay.Seen(host, 0)) == ahead
         else command == ERROR && connections == [false, false] && host.AllClosed()
    }

    // One poll of such a wait
    method PollWaitOnce(ghost ahead: Result) returns (done: bool)
      requires WaitsFor(ahead)
      modifies this`processingAddr, this`connections, this`processing, this`command, this`length, this`state
      modifies this`orderly, this`clash, data, host, relay, relay.data
      ensures orderly && if done then Rests() && WaitEnded(ahead) else WaitsFor(ahead)
    {
      Buffers();
      AtRelay();
      hide Consistent, Rests, Midway, Ahead, WaitRelayPolled, WaitEnded;
      ghost var before, was := relay.Seen(host, 0), Snapshot();
      ghost var late, rc, a;
      done, late, rc, a := WaitCall();
      WaitForeseen(was, before, ahead, done, late, rc, a);
    }

    lemma AtRelay()
      requires Consistent() && orderly && state == WaitRelay
      ensures Shape() && Midway(Awaiting, relay.Now()) && !fetchActive && Mirrored()
    {
      hide Midway;
    }

    lemma WaitForeseen(was: Was, before: World, ahead: Result, done: bool, late: bool, rc: int, a: Answers)
      requires host.Valid() && relay.Valid() && data.Length == 0xFF && was.command == WAIT_CALL
               && was.state == WaitRelay
      requires WaitRelayPolled(was, before, done, late, rc, a)
      requires Midway(Awaiting, before.c) && Ahead(Awaiting, before) == ahead
      requires done ==> Rests() && orderly
      ensures done ==> WaitEnded(ahead)
      ensures !done ==> state == WaitRelay && Ahead(Awaiting, relay.Seen(host, 0)) == ahead
    {
      hide Midway, Ahead, ProcWaitPoll, Rests;
      HeardAhead(Awaiting, before, TimerSaid(true));
      if !late {
        PollForesees(Awaiting, before, a);
      }
      if done && state == CallRecv {
        CallIsUp();
      }
    }

    // The game waits again, with another command.
    method WaitAgain(ghost ahead: Result)
      requires Rests() && orderly && WaitEnded(ahead) && state == WaitRelay && data.Length == 0xFF
      modifies this`parsed, this`command, this`length, this`processing, this`processingData, this`processingAddr, data
      ensures WaitsFor(ahead)
    {
      hide Ahead, Consistent, Rests;
      Finish();
      OrderlyExactly();
      Buffers();
      var length: byte, payload: seq<byte>, address: Addr := *, *, *;
      if |payload| != 0xFF {
        payload := Zeros(0xFF);
      }
      Parse(WAIT_CALL, length, payload, [0, 0, 0, 0], address);
    }

    /** Over any number of polls of a wait at the relay, and any number of WAIT_CALL commands
        that go on with it, a caller comes about as the relay's stream leads to it, and with
        every byte behind the relay's answer still unread. */
    method PollWaitCall(polls: nat, ghost ahead: Result) returns (done: bool)
      requires WaitsFor(ahead) && data.Length == 0xFF
      modifies this`processingAddr, this`connections, this`processing, this`command, this`length, this`state
      modifies this`parsed, this`processingData, this`orderly, this`clash, data, host, relay, relay.data
      ensures if done then Rests() && WaitEnded(ahead) && state != WaitRelay else WaitsFor(ahead)
    {
      hide Consistent, Rests, WaitEnded, Ahead;
      done := false;
      var i := 0;
      while i < polls && !done
        invariant orderly && if done then Rests() && WaitEnded(ahead) && state != WaitRelay else WaitsFor(ahead)
      {
        done := PollWaitOnce(ahead);
        if done && state == WaitRelay {
          WaitAgain(ahead);
          done := false;
        }
        i := i + 1;
      }
    }

    // A call's first DATA command, over any number of polls
    method FirstData(polls: nat, length: byte, payload: seq<byte>)
      returns (done: bool, ghost received: Option<int>)
      requires Rests() && state in {Call, CallRecv} && |payload| == 0xFF && length >= 1
      modifies this`parsed, this`processing, this`processingData, this`processingAddr, this`connections, this`command
      modifies this`length, this`acceptedBefore, data, host`sockets, host`incoming, host`accepted, host`said
      ensures (if done then Rests() else Consistent())
              && |old(host.accepted)| == |old(host.incoming)| == MAX_CONNECTIONS
      ensures SentOnce(0, old(host.accepted)[0], payload[1..length], received)
      ensures TookNext(0, old(host.incoming)[0], done, received)
    {
      CallIsUp();
      hide Rests, Consistent, SentOnce, TookNext;
      Finish();
      OrderlyExactly();
      Buffers();
      Parse(DATA, length, payload, [0, 0, 0, 0], NoAddr);
      assert DataUsable() && DataConn() == 0;
      done, received := PollData(polls);
    }

    /** The seam between the relay and the game.  Against a relay that answers as the protocol
        says, once a call has come about, by whatever polls, the first that DATA receives is
        the first that the other party has sent: nothing of the relay's is in front of it, and
        nothing is lost. */
    method CallThenData(calls: nat, polls: nat, length: byte, payload: seq<byte>, ghost number: seq<byte>,
                        ghost token: Option<seq<byte>>, ghost own: seq<byte>, ghost tunnel: seq<byte>)
      returns (connected: bool, done: bool, ghost received: Option<int>)
      requires Shape() && Calls(number, Ahead(Calling(number), relay.Seen(host, 0)))
      requires relay.state == Disconnected && relay.processing == 0 && |number| <= MAX_NUMBER_SIZE
      requires 1 <= |own| <= MAX_NUMBER_SIZE && (token.Some? ==> |token.value| == TOKEN_SIZE)
      requires host.incoming[0] == Conversation(Calling(number), token, own, 1, own) + tunnel
      requires |payload| == 0xFF && length >= 1
      modifies this, data, host, relay, relay.data
      ensures connected ==> state == Call && TookNext(0, tunnel, done, received)
      ensures Rests() || Consistent()
    {
      hide Rests, Consistent, TookNext, SentOnce, Conversation, NotesAfter;
      ghost var ahead := Ahead(Calling(number), relay.Seen(host, 0));
      ConversationAhead(Calling(number), relay.Seen(host, 0), token, own, 1, own, tunnel);
      hide Ahead;
      connected, done, received := false, false, None;
      var over := PollCall(calls, number, ahead);
      if over && state == Call {
        connected := true;
        done, received := FirstData(polls, length, payload);
      }
    }

    /** The same for a caller. */
    method WaitThenData(waits: nat, polls: nat, length: byte, payload: seq<byte>, ghost caller: seq<byte>,
                        ghost token: Option<seq<byte>>, ghost own: seq<byte>, ghost tunnel: seq<byte>)
      returns (connected: bool, done: bool, ghost received: Option<int>)
      requires Shape() && WaitsFor(Ahead(Awaiting, relay.Seen(host, 0)))
      requires relay.state == Disconnected && relay.processing == 0
      requires 1 <= |own| <= MAX_NUMBER_SIZE && 1 <= |caller| <= MAX_NUMBER_SIZE
               && (token.Some? ==> |token.value| == TOKEN_SIZE)
      requires host.incoming[0] == Conversation(Awaiting, token, own, 1, caller) + tunnel
      requires |payload| == 0xFF && length >= 1
      modifies this, data, host, relay, relay.data
      ensures connected ==> state == CallRecv && host.peer == Some(caller) && TookNext(0, tunnel, done, received)
      ensures Rests() || Consistent()
    {
      hide Rests, Consistent, TookNext, SentOnce, Conversation;
      ghost var ahead := Ahead(Awaiting, relay.Seen(host, 0));
      ConversationAhead(Awaiting, relay.Seen(host, 0), token, own, 1, caller, tunnel);
      hide Ahead;
      connected, done, received := false, false, None;
      var over := PollWaitCall(waits, ahead);
      if over && state == CallRecv {
        connected := true;
        done, received := FirstData(polls, length, payload);
      }
    }

    // The groups that a lookup has asked: at most each once, the favoured one first if it has
    // any address.
    ghost predicate AskedInOrder(favoured: bool, available: bool)
      reads this`asked
    {
      && (asked == [] || asked == [favoured] || asked == [!favoured] || asked == [favoured, !favoured])
      && (available && asked != [] ==> asked[0] == favoured)
    }

    // A lookup that goes on, of this name, begun with this group favoured.
    ghost predicate LookingUp(name: seq<byte>, favoured: bool, available: bool)
      reads this, relay.data, data
      reads host`sockets, host`incoming, host`accepted, host`broken
      reads relay`state, relay`processing, relay`size, relay`token, dns`size, dns`id, dns`qtype
    {
      && Processing(DNS_REQUEST) && processing == 1 && state == Internet && data[..length] == name
      && lastGood == favoured && AskedInOrder(favoured, available)
    }

    // A lookup that is over: with the address that `Lookup` finds in the last datagram, from
    // the group that is now the favoured one, or with an error.
    ghost predicate LookedUp(name: seq<byte>, favoured: bool, available: bool, last: Datagram, id: nat)
      reads this`command, this`length, this`asked, this`lastGood, this`dns2Use, data
    {
      && data.Length == 0xFF && AskedInOrder(favoured, available)
      && if command == DNS_REQUEST then
           && length == 4 && Lookup(last.data, id, name) == Address(data[..length])
           && asked != [] && lastGood == dns2Use == asked[|asked| - 1]
         else lastGood == favoured
    }

    // Whether the group that is to be asked first has any address.
    ghost predicate Available()
      reads this`dns1, this`dns2, this`configDns1, this`configDns2, this`dns2Use
    {
      DnsServer(0) != NoAddr || DnsServer(1) != NoAddr
    }

    method FirstLookup() returns (done: bool, ghost last: Datagram, ghost id: nat)
      requires Processing(DNS_REQUEST) && processing == 0 && state == Internet
      requires data.Length == 0xFF && !LooksLikeAddress(data[..length]) && Shape() && MayHandle()
      modifies this`connections, this`processing, this`processingData, this`processingAddr, this`command, this`length
      modifies this`dnsId, this`asked, data, dns, dns.data
      modifies host`sockets, host`incoming, host`accepted, host`said, host`broken
      ensures if done then Rests() && LookedUp(old(data[..length]), lastGood, old(Available()), last, id)
              else LookingUp(old(data[..length]), lastGood, old(Available()))
    {
      hide Consistent, Rests, Lookup, DnsServer, LooksLikeAddress, AddressIn, StartSaid, MayHandle;
      last, id := Datagram(0, [], NoAddr), 0;
      ghost var heard;
      done, heard := DnsRequestBegin();
      OneGroup(asked);
    }

    method NextLookup(ghost name: seq<byte>, ghost favoured: bool, ghost available: bool)
      returns (done: bool, ghost last: Datagram, ghost id: nat)
      requires LookingUp(name, favoured, available) && dns.Valid()
      modifies this`connections, this`processingData, this`processingAddr, this`command, this`length
      modifies this`dnsId, this`asked, this`dns2Use, this`lastGood, data, dns, dns.data, host`sockets, host`incoming
      modifies host`accepted, host`said
      ensures dns.Valid() && if done then Rests() && LookedUp(name, favoured, available, last, id)
                             else LookingUp(name, favoured, available)
    {
      Buffers();
      hide Consistent, Rests, Lookup, LookupPolled, LookupSaid;
      ghost var p;
      ghost var was, wasId, wasAsked := Snapshot(), Length(processingData[1]), asked;
      id := dns.id;
      done, p := DnsRequestCheck();
      PolledFacts(was, wasId, wasAsked, favoured, done, p);
      last := p.d;
    }

    // The settings may change between two polls.
    method Reconfigure(ghost name: seq<byte>, ghost favoured: bool, ghost available: bool)
      requires LookingUp(name, favoured, available)
      modifies this`configDns1, this`configDns2, this`configPort
      ensures LookingUp(name, favoured, available)
    {
      hide Consistent;
      var change: bool := *;
      if change {
        var dns1: Addr, dns2: Addr, port: nat := *, *, *;
        Configure(dns1, dns2, port);
      }
    }

    /** DNS failover.  Over any number of polls of one lookup, with the user's servers changed
        at will in between, the group that gave the last success is preferred, at most one
        address of each group is asked, and a success makes the group that gave it the favoured
        one, by a packet that `Lookup` accepts. */
    method PollLookups(polls: nat) returns (done: bool, ghost last: Datagram, ghost id: nat)
      requires Processing(DNS_REQUEST) && processing == 0 && state == Internet
      requires data.Length == 0xFF && !LooksLikeAddress(data[..length]) && Shape() && MayHandle()
      modifies this`connections, this`processing, this`processingData, this`processingAddr, this`command, this`length
      modifies this`dnsId, this`asked, this`dns2Use, this`lastGood, data, dns, dns.data, host`sockets, host`incoming
      modifies host`accepted, host`said, host`broken
      modifies this`configDns1, this`configDns2, this`configPort
      ensures if done then Rests() && LookedUp(old(data[..length]), old(lastGood), old(Available()), last, id)
              else if polls > 0 then LookingUp(old(data[..length]), old(lastGood), old(Available()))
              else Processing(DNS_REQUEST)
    {
      ghost var name, favoured, available := data[..length], lastGood, Available();
      hide Consistent, Rests, LooksLikeAddress, LookingUp, LookedUp, Available, MayHandle;
      last, id := Datagram(0, [], NoAddr), 0;
      if polls == 0 {
        return false, last, id;
      }
      done, last, id := FirstLookup();
      var i := 1;
      while i < polls && !done
        invariant if done then Rests() && LookedUp(name, favoured, available, last, id)
                  else LookingUp(name, favoured, available)
      {
        Reconfigure(name, favoured, available);
        done, last, id := NextLookup(name, favoured, available);
        i := i + 1;
      }
    }
  }
}
