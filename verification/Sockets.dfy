/**
 The socket callbacks of mobile.h:227-395, as a host that may answer anything the contract
 allows and that may be used only as the contract allows.
 */
module Sockets {
  import opened Bytes
  import opened DnsName

  const MAX_CONNECTIONS := 2
  const MAX_TRANSFER := 0xFE

  datatype Stage = Fresh | Connecting | Listening | Established | Failed

  // A UDP socket is bound once a connect has given it a recipient.
  datatype Socket = Closed | Tcp(v6: bool, stage: Stage) | Udp(v6: bool, bound: bool)

  // A stream of bytes can be sent and received.
  predicate Streaming(s: Socket) {
    s.Tcp? && s.stage == Established
  }

  // Callers can be accepted.
  predicate Listens(s: Socket) {
    s.Tcp? && s.stage == Listening
  }

  // A connect may be started or repeated, towards this address.
  predicate Connectable(s: Socket, addr: Addr) {
    s.Tcp? && s.stage in {Fresh, Connecting} && addr != NoAddr && s.v6 == addr.Addr6?
  }

  // A datagram can be sent to this address.
  predicate Reaches(s: Socket, addr: Addr) {
    s.Udp? && addr != NoAddr && s.v6 == addr.Addr6?
  }

  // The sockets that mobile.h:274-294 allows to be connected to an address, and what they
  // are afterwards: connecting a UDP socket only chooses its recipient.
  predicate MayConnect(s: Socket, addr: Addr) {
    Connectable(s, addr) || Reaches(s, addr)
  }

  function Connected(s: Socket, rc: int): Socket {
    match s
    case Closed => Closed
    case Tcp(v6, _) => Tcp(v6, if rc == 0 then Connecting else if rc > 0 then Established else Failed)
    case Udp(v6, bound) => Udp(v6, bound || rc > 0)
  }

  // The sockets that may send, with or without an address; TCP ignores it.
  predicate MaySend(s: Socket, addr: Addr) {
    Streaming(s) || Reaches(s, addr) || (s.Udp? && s.bound && addr == NoAddr)
  }

  // What the host has answered.
  datatype Said =
    | TimerSaid(passed: bool)
    | OpenSaid(bindport: nat, ok: bool) | ConnectSaid(rc: int) | ListenSaid(ok: bool) | AcceptSaid(ok: bool)
    | SendSaid(rc: int) | RecvSaid(offer: int) | DatagramSaid(rc: int, data: seq<byte>, sender: Addr)
    | ReadSaid(offset: nat, ok: bool, data: seq<byte>) | WriteSaid(offset: nat, data: seq<byte>, ok: bool)

  /** `incoming` is what the peer of each socket will still send, `accepted` what has been
      taken from us for sending; both are per connection.  `said` is what the host has
      answered so far, so that a contract can say what follows from which answer, and `own`
      and `peer` the numbers it was last told.  `broken` says that some call has gone against
      the contract.  None of them is program state.

      A method with a precondition can only be called as the contract allows.  Where the
      library may do otherwise it calls an unchecked one, which takes note of that. */
  class Host {
    var sockets: seq<Socket>
    var incoming: seq<seq<byte>>
    var accepted: seq<seq<byte>>
    var own: Option<seq<byte>>
    var peer: Option<seq<byte>>
    var broken: bool
    ghost var said: seq<Said>

    predicate Valid()
      reads this`sockets, this`incoming, this`accepted
    {
      |sockets| == MAX_CONNECTIONS && |incoming| == MAX_CONNECTIONS && |accepted| == MAX_CONNECTIONS
    }

    predicate AllClosed()
      reads this`sockets, this`incoming, this`accepted
    {
      Valid() && sockets == [Closed, Closed]
    }

    // Nothing but this socket has changed.
    twostate predicate Only(conn: nat)
      reads this
    {
      && |sockets| == |old(sockets)| && |incoming| == |old(incoming)| && |accepted| == |old(accepted)|
      && (forall i | 0 <= i < |sockets| && i != conn :: sockets[i] == old(sockets)[i])
      && (forall i | 0 <= i < |incoming| && i != conn :: incoming[i] == old(incoming)[i])
      && (forall i | 0 <= i < |accepted| && i != conn :: accepted[i] == old(accepted)[i])
    }

    constructor ()
      ensures AllClosed() && !broken
    {
      sockets, incoming, accepted, said := [Closed, Closed], [[], []], [[], []], [];
      own, peer, broken := None, None, false;
    }

    // Timers may read anything.
    method TimePassed() returns (yes: bool)
      modifies this`said
      ensures said == old(said) + [TimerSaid(yes)]
    {
      yes := *;
      said := said + [TimerSaid(yes)];
    }

    // The storage callbacks, which may fail, and which no socket depends on.
    method ConfigRead(offset: nat, size: nat) returns (ok: bool, bytes: seq<byte>)
      modifies this`said
      ensures |bytes| == size && said == old(said) + [ReadSaid(offset, ok, bytes)]
    {
      ok, bytes := *, *;
      if |bytes| != size {
        bytes := Zeros(size);
      }
      said := said + [ReadSaid(offset, ok, bytes)];
    }

    method ConfigWrite(offset: nat, bytes: seq<byte>) returns (ok: bool)
      modifies this`said
      ensures said == old(said) + [WriteSaid(offset, bytes, ok)]
    {
      ok := *;
      said := said + [WriteSaid(offset, bytes, ok)];
    }

    // mobile_cb_update_number for the user's own number, and for the other party's.
    method ReportOwn(number: Option<seq<byte>>)
      modifies this`own
      ensures own == number
    {
      own := number;
    }

    method ReportPeer(number: Option<seq<byte>>)
      modifies this`peer
      ensures peer == number
    {
      peer := number;
    }

    // Only a closed socket may be opened.
    method Open(conn: nat, udp: bool, v6: bool, bindport: nat) returns (ok: bool)
      requires Valid() && conn < MAX_CONNECTIONS && sockets[conn] == Closed
      modifies this`sockets, this`incoming, this`accepted, this`said
      ensures Valid()
      ensures sockets == if !ok then old(sockets)
                         else old(sockets)[conn := if udp then Udp(v6, false) else Tcp(v6, Fresh)]
      ensures accepted == if ok then old(accepted)[conn := []] else old(accepted)
      ensures said == old(said) + [OpenSaid(bindport, ok)]
      ensures forall i | 0 <= i < MAX_CONNECTIONS && i != conn :: incoming[i] == old(incoming)[i]
    {
      ok := *;
      if ok {
        var stream: seq<byte> := *;
        sockets := sockets[conn := if udp then Udp(v6, false) else Tcp(v6, Fresh)];
        incoming := incoming[conn := stream];
        accepted := accepted[conn := []];
      }
      said := said + [OpenSaid(bindport, ok)];
    }

    method OpenUnchecked(conn: nat, udp: bool, v6: bool, bindport: nat) returns (ok: bool)
      requires Valid() && conn < MAX_CONNECTIONS
      modifies this`sockets, this`incoming, this`accepted, this`said, this`broken
      ensures Valid() && broken == (old(broken) || old(sockets)[conn] != Closed)
      ensures sockets == if !ok then old(sockets)
                         else old(sockets)[conn := if udp then Udp(v6, false) else Tcp(v6, Fresh)]
      ensures accepted == if ok then old(accepted)[conn := []] else old(accepted)
      ensures said == old(said) + [OpenSaid(bindport, ok)]
      ensures forall i | 0 <= i < MAX_CONNECTIONS && i != conn :: incoming[i] == old(incoming)[i]
    {
      var was := sockets;
      broken, sockets := broken || sockets[conn] != Closed, sockets[conn := Closed];
      ok := Open(conn, udp, v6, bindport);
      if !ok {
        sockets := was;
      }
    }

    // Only an open socket may be closed.
    method Close(conn: nat)
      requires Valid() && conn < MAX_CONNECTIONS && sockets[conn] != Closed
      modifies this`sockets
      ensures Valid() && sockets == old(sockets)[conn := Closed]
    {
      sockets := sockets[conn := Closed];
    }

    method CloseUnchecked(conn: nat)
      requires Valid() && conn < MAX_CONNECTIONS
      modifies this`sockets, this`broken
      ensures Valid() && sockets == old(sockets)[conn := Closed]
      ensures broken == (old(broken) || old(sockets)[conn] == Closed)
    {
      broken := broken || sockets[conn] == Closed;
      sockets := sockets[conn := Closed];
    }

    // Any other call with a socket that is closed, of whose result nothing is said
    method UseClosed(conn: nat)
      requires Valid() && conn < MAX_CONNECTIONS && sockets[conn] == Closed
      modifies this`broken
      ensures broken
    {
      broken := true;
    }

    // Positive on success, 0 while it is going on, negative on failure.
    method Connect(conn: nat, addr: Addr) returns (rc: int)
      requires Valid() && conn < MAX_CONNECTIONS && MayConnect(sockets[conn], addr)
      modifies this`sockets, this`said
      ensures Valid()
      ensures sockets == old(sockets)[conn := Connected(old(sockets)[conn], rc)]
      ensures said == old(said) + [ConnectSaid(rc)]
    {
      rc := *;
      sockets := sockets[conn := Connected(sockets[conn], rc)];
      said := said + [ConnectSaid(rc)];
    }

    // Only an unconnected TCP socket may listen.
    method Listen(conn: nat) returns (ok: bool)
      requires Valid() && conn < MAX_CONNECTIONS && sockets[conn].Tcp? && sockets[conn].stage == Fresh
      modifies this`sockets, this`said
      ensures Valid()
      ensures sockets == old(sockets)[conn := old(sockets)[conn].(stage := if ok then Listening else Failed)]
      ensures said == old(said) + [ListenSaid(ok)]
    {
      ok := *;
      sockets := sockets[conn := sockets[conn].(stage := if ok then Listening else Failed)];
      said := said + [ListenSaid(ok)];
    }

    // Only a listening socket may accept; it becomes the connected one.
    method Accept(conn: nat) returns (ok: bool)
      requires Valid() && conn < MAX_CONNECTIONS && Listens(sockets[conn])
      modifies this`sockets, this`said
      ensures Valid()
      ensures sockets == if ok then old(sockets)[conn := old(sockets)[conn].(stage := Established)] else old(sockets)
      ensures said == old(said) + [AcceptSaid(ok)]
    {
      ok := *;
      if ok {
        sockets := sockets[conn := sockets[conn].(stage := Established)];
      }
      said := said + [AcceptSaid(ok)];
    }

    method AcceptUnchecked(conn: nat) returns (ok: bool)
      requires Valid() && conn < MAX_CONNECTIONS
      modifies this`sockets, this`said, this`broken
      ensures Valid() && broken == (old(broken) || !Listens(old(sockets)[conn]))
      ensures sockets == if ok && Listens(old(sockets)[conn])
                         then old(sockets)[conn := old(sockets)[conn].(stage := Established)]
                         else old(sockets)
      ensures said == old(said) + [AcceptSaid(ok)]
    {
      if Listens(sockets[conn]) {
        ok := Accept(conn);
      } else {
        broken, ok := true, *;
        said := said + [AcceptSaid(ok)];
      }
    }

    // The amount sent, or negative on error.
    method Send(conn: nat, data: seq<byte>, addr: Addr) returns (rc: int)
      requires Valid() && conn < MAX_CONNECTIONS
      requires MaySend(sockets[conn], addr)
      modifies this`accepted, this`said
      ensures Valid() && rc <= |data|
      ensures accepted == if rc < 0 then old(accepted)
                          else old(accepted)[conn := old(accepted)[conn] + data[..rc]]
      ensures said == old(said) + [SendSaid(rc)]
    {
      rc := *;
      if rc > |data| {
        rc := |data|;
      }
      if rc >= 0 {
        accepted := accepted[conn := accepted[conn] + data[..rc]];
      }
      said := said + [SendSaid(rc)];
    }

    // Receives a datagram and who sent it; negative on error, 0 if there is none.  Nothing is
    // asked of strangers.  Of the `server` that was asked about a name of `length` bytes it is
    // asked that comparing such a name with its packet stops: else the C code does not return.
    method RecvFrom(conn: nat, want: nat, server: Addr, length: nat) returns (rc: int, data: seq<byte>, sender: Addr)
      requires Valid() && conn < MAX_CONNECTIONS && sockets[conn].Udp?
      modifies this`said
      ensures rc == |data| <= want || (rc < 0 && data == [])
      ensures SameAddr(server, sender) ==> Safe(data, length)
      ensures said == old(said) + [DatagramSaid(rc, data, sender)]
    {
      rc, data, sender := *, *, *;
      if rc < 0 || |data| > want || (SameAddr(server, sender) && !Safe(data, length)) {
        data := [];
      }
      if 0 <= rc {
        rc := |data|;
      }
      said := said + [DatagramSaid(rc, data, sender)];
    }

    // Receives the next bytes of the stream, as many as the host has a mind to, and at most
    // `want`; negative on error.  `offer` is what the host was ready to give.
    method Recv(conn: nat, want: nat) returns (rc: int, data: seq<byte>, ghost offer: int)
      requires Valid() && conn < MAX_CONNECTIONS && Streaming(sockets[conn])
      modifies this`incoming, this`said
      ensures Valid()
      ensures rc == Given(old(incoming)[conn], want, offer)
      ensures 0 <= rc ==> data == old(incoming)[conn][..rc]
                          && incoming == old(incoming)[conn := old(incoming)[conn][rc..]]
      ensures rc < 0 ==> incoming == old(incoming)
      ensures said == old(said) + [RecvSaid(offer)]
    {
      var hand: int := *;
      offer := hand;
      rc, data := Given(incoming[conn], want, hand), [];
      if 0 <= rc {
        data := incoming[conn][..rc];
        incoming := incoming[conn := incoming[conn][rc..]];
      }
      said := said + [RecvSaid(offer)];
    }
  }

  // How much of `stream` a receive of at most `want` bytes takes, when `offer` are at hand.
  function Given(stream: seq<byte>, want: nat, offer: int): (n: int)
    ensures n <= want && n <= |stream|
  {
    if offer < want && offer < |stream| then offer
    else if want < |stream| then want
    else |stream|
  }
}
