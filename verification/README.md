# A verified model of libmobile

libmobile emulates the Mobile Adapter GB, a modem for Game Boy games. This project models its
six connected cores and proves what each is for:

* the **serial link** (`Serial.dfy`, `Receiver.dfy`, `Reply.dfy`, `Handover.dfy`): a machine of
  17 states that takes a packet byte by byte, waits while it is processed and sends the reply, in
  8-bit or 32-bit mode, in memory that it shares with the command layer of another thread;
* the **command layer** (`Commands.dfy`, `Fields.dfy`, with the host's sockets in `Sockets.dfy`):
  poll-driven commands over eight connection states, under the socket contract of `mobile.h`;
* the **relay client** (`Relay.dfy`): a resumable protocol over a stream cut up arbitrarily;
* the **DNS codec** (`DnsName.dfy`, `DnsMessage.dfy`);
* the **address parsers** (`InetPton.dfy`);
* the **persistent settings** (`Config.dfy`).

Each core has two layers. A class or a set of methods has the C code's own form: its fields, loops
and early returns. It is proved equal to functions on values (`Step`, `Compare`, `Parse6`,
`ProcCallPoll`, `Image`, ...), and the main results are lemmas that connect those functions to
something that does not mention them: a grammar, the meaning of a compressed name, the messages on
a stream, a frame in place.

The command layer is stated differently. The methods of `Sockets.Host` have the socket contract as
their preconditions, so that a call that broke it would not verify; where the library can break it,
outside a session, it makes a call without precondition that takes note of that in `Host.broken`.
`Host` may answer every call with anything its contract allows. `Host.said` records the answers; the
contract of each handler says what comes of a poll from the state before it and from those answers
(`TelDone`, `WaitDone`, `DataDone`, `TcpDone`, `LookupDone`, `AnswerDone`), and `Process` promises
all of them. What whole runs keep is the invariant `Consistent`, for as long as the contract is kept.

## Results

* `InetPton.Parse6IsGrammar`: the IPv6 parser accepts exactly the text forms of section 2.2 of
  RFC 4291, with their 16 bytes.
* `DnsName.CompareIsDenotation`, `DnsName.StopsExactly`, `SafeExactly`: comparing compressed names
  decides the meaning that section 4.1.4 of RFC 1035 gives them, and returns exactly when no chain
  of pointers that can be reached goes round in a circle.
* `DnsName.EncodeRoundTrip`, `DnsMessage.RoundTrip`, `DnsMessage.LookupSound`,
  `DnsMessage.FirstAnswerExactly`: what is sent can be read back, what is believed is in the
  packet, and a response gives an address exactly when its first answer is one for the name.
* `Receiver.RunRefines`, `Receiver.HandedOverExactly`, `HandedOverInWords`: over every stream of
  bytes, in both modes, and over every stream of words, the machine hands over exactly the good
  frames.
* `Reply.ReplyRoundTrip`, `Reply.RetriesRepeat`, `Reply.ModesAgree`, `Reply.WordFrame`,
  `Reply.StaleScratchUnused`: replies can be received, are repeated identically, are the same in
  both modes, and show nothing of the command layer's use of their memory.
* `Handover.NeverShared`, `Handover.ModeStable`: from a fresh adapter on, under any interleaving of
  the two threads.
* `Relay.ChunkingIndependent`, `Relay.NothingSwallowed`: the result of a call, and the place in the
  stream where the tunnel begins, do not depend on how the stream arrives.
* `Commands.Adapter.CallThenData`, `WaitThenData`: once a call has come about through the relay, by
  whatever polls and whatever waits that were taken up again, the first that DATA receives is the
  first byte that the other party has sent.
* `Commands.Adapter.Process`, `InSession`, `Live`: in a session no command can break the socket
  contract; outside one it is said exactly which packet breaks it in which state. Over whole runs,
  with commands outside a session and the fetching of the user's number, the contract is kept up to
  the first such packet; and if nothing but START were handed over outside a session, as
  serial.c:60-67 sets out to do, only a fetch whose socket cannot be opened could break it.
* `Commands.Adapter.AtRest`, `WhileSuspended`: what is open in each state of a session.
* `Commands.Adapter.PollData`, `PollLookups`: payloads are sent exactly once; lookups prefer the
  server group that last worked and ask each group at most once.
* `Config.ImageRoundTrip`, `Config.Adapter.Live`: settings survive saving and loading exactly when
  they fit, and with storage that may fail at any time clean settings are what the stored image
  says, unless the last write of the image has failed or an address type is unknown.

## Where the code is not what it says

The model follows the code. These are the places where comments, documentation or expectation say
otherwise, and the member that states what happens instead.

* serial.c:55-67 goes back to WAITING for a packet whose length has a nonzero high byte and for a
  command outside a session, but serial.c:80-85 overwrites that: such packets are handed over
  (`Receiver.NothingDropped`).
* inet_pton.c:36-37 promises octets of at most three digits; inet_pton.c:107 lets a fourth through
  (`InetPton.OctetText`, in `Parse4IsGrammar`).
* dns.c:72-94 never returns from a circle of pointers without a label (`DnsName.SelfPointerLoops`,
  `StopsExactly`).
* dns.c:211-215 moves at most past the owner of a record that it cannot use, so that no record
  behind it is found: neither one behind a record of another name (`DnsMessage.OtherOwnerBlocks`)
  nor one behind a record of the name itself that is of another type (`OwnRecordBlocks`). An alias
  in front hides the address it leads to (`AliasHides`; `AliasedReplyFails` is a packet). An address
  is found exactly when the first record is an address record for the name (`FirstAnswerExactly`,
  for types below 256).
* dns.c:226 never cuts the query id, an `unsigned`, down to the 16 bits that are sent, so that after
  65535 queries no answer is accepted, until the id wraps round at 2^32 (`DnsMessage.RoundTrip`).
* commands.c:131 closes a socket without clearing its flag, so that a session that ends while it
  dials or waits for a call leaves the flag of socket 0 behind. What the flag stands for is then
  closed once more, or used while it is closed, by END, TEL, REINIT and WAIT_CALL outside a session:
  exactly as `Commands.Adapter.MayHandle` and `Forgiven` say (`Process`; `End`, `TelBegin`, `Reinit`,
  `WaitCall`). `EndTwice` is an END that closes socket 0 a second time. In a session none of this can
  happen (`InSession`), and the check that serial.c:80-85 undoes would keep it from happening outside
  (`Live`, with `checked`).
* commands.c:137-146 forgets what is open: after a session has begun the flags mirror the sockets
  exactly if all were closed before, but for that of a fetch, which commands.c:145 gives up
  (`Commands.Adapter.DoStartSession`, `Start`). `CallOutside` is a call, made outside a session, that
  a START leaves open and unmarked.
* mobile.c:211-214 begins to fetch the number on socket 0 whatever has it, and mobile.c:136 does not
  look at whether the socket could be opened: the socket contract is kept exactly if it was closed
  before and is open afterwards (`Commands.Adapter.NumberFetchHandle`), and it was closed exactly if
  it was not flagged, or by a flag that was left over (`FetchFinds`). `CallOutside` is also a call
  whose socket a fetch opens once more. While a number is being fetched, commands outside a session
  may take its socket away or open it again; `MayHandle` says which.
* commands.c:790 has an error for a socket left over from a call; it is never reached
  (`Commands.Adapter.PppConnect`).
* config.c:103-109 overwrites fields before it checks the address types, so that an unknown type in
  an image with a good checksum survives the load that refuses it, and is saved again with the
  settings marked clean (`Config.UnknownTypeStays`); `Config.Adapter.Live` says that nothing else
  brings such a type about.
* config.c:158-159 saves 16 bits of each port (`Config.ImageRoundTrip`).
* relay.c:107, 175, 230, 292 and dns.c:228 take a send that gives -1 for a success; the polls of
  the relay treat every nonzero result alike, as the code does.

## Model

| member | source | states |
|---|---|---|
| InetPton.Parse4IsGrammar | inet_pton.c:91-132 | the IPv4 parser accepts exactly four decimal octets of one to four digits joined by full stops, with the value of each |
| InetPton.Parse6IsGrammar | inet_pton.c:152-244 | the IPv6 parser accepts exactly the text forms of section 2.2 of RFC 4291: eight groups, at most one "::" for at least one group, an optional dotted quad at the end; and yields the 16 bytes they denote |
| InetPton.FamiliesDisjoint | inet_pton.c:58-78 | no text is both an IPv4 and an IPv6 address, so that trying both in turn is not ambiguous |
| InetPton.InetPton4 | inet_pton.c:91-132 | writes the four bytes exactly when the text is accepted, and leaves the destination alone otherwise |
| InetPton.StoreGroup | inet_pton.c:207-208 | a finished group is stored most significant byte first |
| InetPton.OpenElision | inet_pton.c:229-239 | the memmove and fill at "::" move what follows it to the end and put zeros between |
| InetPton.ScanLoop6 | inet_pton.c:178-221 | the scanning loop leaves exactly the state from which the rest of the text decides the result |
| InetPton.InetPton6 | inet_pton.c:152-244 | writes the 16 bytes exactly when the text is accepted, and leaves the destination alone otherwise |
| InetPton.InetPtonLength | inet_pton.c:58-78 | the result code for each address family, for destinations that are just as long as the family needs, and a destination untouched unless the result is positive |
| DnsName.CompareIsDenotation | dns.c:62-125 | a comparison succeeds exactly when the name, with all pointers followed, is the dotted query name byte for byte; the offset then moves by what dns_name_len measures |
| DnsName.NameUnique | dns.c:62-100 | a place in a packet denotes at most one name |
| DnsName.StopsExactly | dns.c:72-94 | the comparison returns for every name of a length exactly when every chain of pointers that such a name can reach ends |
| DnsName.SafeExactly | dns.c:72-94 | a packet is safe for names of a length exactly when the comparison of every such name, at every place, returns |
| DnsName.BackwardIsSafe | dns.c:72-94 | a packet that keeps to the prior occurrence rule is safe for all lengths |
| DnsName.BackwardPointersStop | dns.c:72-94 | under the prior occurrence rule of section 4.1.4 of RFC 1035 every comparison returns |
| DnsName.SelfPointerLoops | dns.c:80-84 | a pointer to itself holds any comparison up for ever |
| DnsName.LongChainsLoop | dns.c:80-84 | a chain that is not over after as many pointers as the packet has bytes is never over |
| DnsName.EncodeRoundTrip | dns.c:38-100 | an encoded name compares equal at its offset, and ends where the encoding ended, exactly when the name is not empty and has no empty label; the comparison always returns |
| DnsName.DottedSplit | dns.c:38-60 | the labels that are encoded, joined by dots, are the name |
| DnsName.WireSize | dns.c:38-60 | the encoding is one byte longer than the dotted name, and a zero |
| DnsName.SameBytes | dns.c:89 | the inner loop compares a label with the name byte by byte |
| DnsName.LabelTurn | dns.c:85-93 | the turn of the comparison that reads a label does what one step of the walk does |
| DnsName.WalkLoop | dns.c:72-94 | the loop follows the walk to its end |
| DnsName.NameCompare | dns.c:62-100 | the result and the advanced offset of the comparison |
| DnsName.NameLen | dns.c:102-125 | the length of a name up to its end or its first pointer, or failure when it leaves the packet |
| DnsName.CloseLabel | dns.c:45-51 | the length byte of a label is filled in behind it |
| DnsName.MakeName | dns.c:38-60 | writes the encoding exactly when every label has at most 63 bytes and it fits, and then touches nothing outside it; nothing before it in any case |
| DnsMessage.VerifyExactly | dns.c:157-193 | a response is accepted exactly when it carries the id, the flags of a good answer, one question with the query's name, type and class, and at least one answer |
| DnsMessage.FoundExactly | dns.c:195-219 | an answer is taken exactly when an in-bounds address record for the name is at that place |
| DnsMessage.LookupSound | dns.c:235-269 | an address that is returned is the data of an in-bounds IN A record whose owner, with all pointers followed, is the queried name, in a response that matches the query |
| DnsMessage.FirstAnswerComplete | dns.c:235-269 | a response that matches the query and whose first answer is an address record for the name always gives that address |
| DnsMessage.OtherOwnerBlocks | dns.c:211-215 | once the search is at a place that does not hold the name, no later record is looked at |
| DnsMessage.OwnRecordBlocks | dns.c:211-219 | a record of a type below 256 that is no address record for the name, its own or another's, ends the search without an address |
| DnsMessage.FirstAnswerExactly | dns.c:235-269 | a response that matches the query, whose first record can be compared and is of a type below 256, gives an address exactly when that record is an address record for the name |
| DnsMessage.AliasHides | dns.c:211-219 | a first record of the name that is an alias hides everything behind it |
| DnsMessage.AliasedReplyFails | dns.c:211-219 | a packet that holds an alias and then the address gives none |
| DnsMessage.RoundTrip | dns.c:127-269 | the plainest answer to a query yields its address exactly when the name is not empty, has no empty label, and the query's id fits in 16 bits |
| DnsMessage.LookupReturns | dns.c:235-269 | a lookup in a packet that is safe for the name returns |
| DnsMessage.DnsBuffer.MakeQuery | dns.c:127-155 | the query packet is header, encoded name, type and class, and is made exactly when the name can be encoded and fits |
| DnsMessage.DnsBuffer.PutHeader | dns.c:132-141 | id, standard query with recursion desired, one question |
| DnsMessage.DnsBuffer.PutQuestion | dns.c:147-151 | type and class behind the name |
| DnsMessage.DnsBuffer.VerifyResponse | dns.c:157-193 | each refusal has its own error, in the order of the checks |
| DnsMessage.DnsBuffer.TakeAnswer | dns.c:195-219 | a record is taken, passed over, or ends the search, and where the next one is looked for |
| DnsMessage.DnsBuffer.FirstAddress | dns.c:258-264 | the loop over the answers returns the first that can be used |
| DnsMessage.DnsBuffer.RequestRecv | dns.c:235-269 | errors, silence and strangers are told apart from an answer of the queried server, which is looked up |
| Serial.PackUnpack | serial.c:280-281 | a word is its four bytes, most significant first |
| Serial.SerialLink.Transfer | serial.c:13-273 | a byte transfer is one step of the machine, with every array index in range |
| Serial.SerialLink.TransferWaiting | serial.c:22-42 | the start 0x99 0x66 is looked for |
| Serial.SerialLink.TransferHeader | serial.c:44-86 | header bytes are collected and summed |
| Serial.SerialLink.JudgeHeader | serial.c:53-86 | after the fourth header byte the command is judged, the device latched outside a session, and the payload size taken |
| Serial.SerialLink.TransferData | serial.c:88-101 | payload bytes are collected and summed, then padding is skipped in 32-bit mode |
| Serial.SerialLink.TransferChecksum | serial.c:108-120 | the checksum is compared and the device byte sent |
| Serial.SerialLink.TransferAcknowledge | serial.c:122-147 | the error or the command is sent back, and the other side's device checked |
| Serial.SerialLink.TransferIdleCheck | serial.c:157-177 | one byte skipped, the idle byte expected, NULL commands and errors not handed over |
| Serial.SerialLink.TransferResponseStart | serial.c:188-198 | 0x99 0x66 is sent |
| Serial.SerialLink.TransferResponseHeader | serial.c:200-210 | the header is sent |
| Serial.SerialLink.TransferResponseData | serial.c:212-225 | the payload is sent |
| Serial.SerialLink.TransferResponseChecksum | serial.c:232-238 | the checksum is sent |
| Serial.SerialLink.TransferResponseAcknowledge | serial.c:240-269 | device and acknowledgement; the reply is sent again for the three error codes |
| Serial.SerialLink.TransferBytes | serial.c:283-286 | the four bytes of a word go through the byte machine in order |
| Serial.SerialLink.TransferWord | serial.c:275-306 | a word transfer is four byte steps, and the footer in place of an acknowledgement that the word ended in |
| Receiver.ReceivingStep | serial.c:44-120 | one more byte of a frame leaves the machine where a frame of that many bytes puts it, in both modes |
| Receiver.RunRefines | serial.c:21-177 | over every stream the byte machine refines a receiver that collects whole frames and judges them |
| Receiver.WordsRefine | serial.c:275-306 | over every stream of words the machine refines the same receiver, fed with the bytes of the words |
| Receiver.HandedOverExactly | serial.c:21-177 | in both modes a header and payload are handed over exactly when the stream holds a recognised start, a frame with that header and payload, an existing command that is not NULL, a matching checksum, in 8-bit mode an acceptable device byte, the bytes to skip, and 0x4B; whatever follows |
| Receiver.HandedOverInWords | serial.c:275-306 | the same of every stream of words |
| Receiver.StartIsMarked | serial.c:27-42 | a start is recognised only behind 0x99 0x66 |
| Receiver.NothingDropped | serial.c:53-86 | outside a session any command, with any high length byte, is handed over |
| Reply.PacketCreate | mobile.c:60-76 | header, payload and footer of a reply, whatever the shared memory held |
| Reply.SumBytes | mobile.c:72-73 | the summing loops |
| Reply.FooterExact | mobile.c:71-75 | the sum of any reply of at most 255 bytes fits the two bytes of its footer |
| Reply.TransmissionParts | serial.c:183-238 | on the wire a reply is 0x99 0x66, header, payload, padding and footer |
| Reply.SendRun | serial.c:183-238 | after k transfers exactly the first k bytes of the reply have been sent |
| Reply.ReplyEmitted | serial.c:183-270 | reply, device byte with its top bit set, 0, and then WAITING, unless the acknowledgement asks again |
| Reply.RetriesRepeat | serial.c:240-269 | any number of acknowledgements 0xF0 to 0xF2 each send the identical reply again |
| Reply.FrameRun | serial.c:21-120 | from WAITING any whole frame reaches the acknowledgement with its header, payload, footer and error |
| Reply.ReplyRoundTrip | mobile.c:60-76 | what the machine sends as a reply it receives again as the same header and payload with a matching checksum |
| Reply.ModesAgree | serial.c:88-120 | a padded 32-bit frame and the plain 8-bit one give the same header, payload, checksum and error |
| Reply.WordsAreBytes | serial.c:275-306 | words that do not end in the acknowledgement are their bytes |
| Reply.WordFrame | serial.c:275-306 | in a word-aligned frame the checksum ends a word, so that only the word function acknowledges, with what the bytes would have given |
| Reply.TransmissionAligned | serial.c:212-238 | in 32-bit mode the first transmission of a reply fills whole words |
| Reply.NothingStaleSent | serial.c:179-270 | from RESPONSE_INIT on, links that differ only in fields left over from before send the same bytes, for every input |
| Reply.StaleScratchUnused | mobile.c:60-76 | a reply does not depend on what the command layer left in the shared memory |
| Handover.SoundTransfer | mobile.c:298-324 | a transfer keeps the invariant of the two threads |
| Handover.SoundNext | mobile.c:78-103 | so does every piece of the main loop, a reset and a change of settings |
| Handover.RunsExist | mobile.c:156-324 | any list of pieces, as far as each can run, is a run |
| Handover.HistoryIsRun | mobile.c:156-324 | whatever happens from a fresh adapter on keeps the invariant throughout, so that the results about runs hold of it |
| Handover.NeverShared | mobile.c:46-103 | the command layer uses the union only in RESPONSE_WAITING, where a transfer does nothing, and a parsed packet exists only there |
| Handover.OnlyChangeMode | mobile.c:31-44 | only the change of mode in WAITING, with the serial disabled, and a reset change the mode |
| Handover.ModeStable | mobile.c:200-203 | from leaving WAITING until returning to it or a reset the mode is constant, under every interleaving |
| Handover.PendingModeWaits | mobile.c:271-278 | a change of mode seen to be due is still due when it is acted on, and transfers meanwhile do nothing |
| Sockets.Host.Open | mobile.h:227-259 | only a closed socket is opened |
| Sockets.Host.OpenUnchecked | mobile.h:246-249 | any socket may be opened, and the contract is broken exactly if it is not closed |
| Sockets.Host.Close | mobile.h:261-272 | only an open socket is closed |
| Sockets.Host.CloseUnchecked | mobile.h:265-266 | any socket may be closed, and the contract is broken exactly if it is closed already |
| Sockets.Host.Connect | mobile.h:274-294 | an unconnected TCP socket, or any UDP socket, connects, to an address of its own type; UDP only gets a recipient |
| Sockets.Host.Listen | mobile.h:296-310 | only an unconnected TCP socket listens |
| Sockets.Host.Accept | mobile.h:312-333 | only a listening socket accepts, and becomes the connection |
| Sockets.Host.AcceptUnchecked | mobile.h:325-326 | any socket may be asked for a caller, and the contract is broken exactly if it is not listening |
| Sockets.Host.Send | mobile.h:335-361 | connected TCP sockets send, whatever address is given, and UDP sockets to an address or their recipient; no more than they are given |
| Sockets.Host.Recv | mobile.h:363-394 | only connected sockets receive, the next bytes of the stream, and no more than they ask for |
| Relay.ChunkingIndependent | relay.c:546-633 | however the stream is cut up, a procedure without faults ends with the result, notes and rest that the stream determines, and has ended exactly when it has consumed that much |
| Relay.FaultsOnlyFail | relay.c:339-633 | with faults, a procedure still gives that result or fails |
| Relay.NothingSwallowed | relay.c:546-633 | against a server that keeps to the protocol and a peer that talks at once: the server's result, the numbers and token learnt, the three requests in order, and every byte of the peer left unread |
| Relay.PollAgrees | relay.c:339-633 | a poll that gives 0 changes nothing of what is to come; any other ends as foreseen or met a fault |
| Relay.ConversationAhead | relay.c:546-633 | the stream of a server that keeps to the protocol leads to its result, and ends where the peer's bytes begin |
| Relay.HandshakeReads | relay.c:129-154 | a handshake is complete, refused or unfinished exactly as its bytes so far say |
| Relay.NumberReads | relay.c:305-328 | the same of a number |
| Relay.CallReads | relay.c:200-213 | the same of the result of a call |
| Relay.WaitReads | relay.c:250-275 | the same of an incoming call |
| Relay.StillReading | relay.c:62-76 | a message that is still being read lacks at least a byte: nothing is read ahead |
| Relay.ResumedWaitOnlyListens | relay.c:454-493 | once waiting, a poll neither connects nor sends |
| Relay.RelayClient.Recv | relay.c:62-76 | asks for no more than is missing |
| Relay.RelayClient.RecvHandshakeReply | relay.c:129-154 | the poll of a handshake, with its token |
| Relay.RelayClient.RecvNumberReply | relay.c:305-328 | the poll of the adapter's number |
| Relay.RelayClient.RecvCallReply | relay.c:200-213 | the poll of a call's result |
| Relay.RelayClient.RecvWaitReply | relay.c:250-275 | the poll of an incoming call and its number |
| Relay.RelayClient.SendRequest | relay.c:96-108 | a request is sent and its reply awaited unless the send gives 0 |
| Relay.RelayClient.Connect | relay.c:339-389 | connecting, then the handshake, one poll at a time |
| Relay.RelayClient.GetNumber | relay.c:506-537 | asking for the number, then reading it |
| Relay.RelayClient.Call | relay.c:401-440 | calling a number of at most 16 characters, then reading the result |
| Relay.RelayClient.Wait | relay.c:454-493 | asking for calls, then reading one; once linked, no number |
| Relay.RelayClient.Begin | relay.c:555-571 | the first two stages of both procedures |
| Relay.RelayClient.ProcCall | relay.c:546-587 | one poll of a call keeps the socket contract, and stays resumable while it gives 0; a number that is too long is only refused where the code refuses it |
| Relay.RelayClient.ProcWait | relay.c:596-633 | the same of a wait |
| Relay.RelayClient.ProcInitNumber | relay.c:635-653 | the same of fetching the user's number, after which there are no retries |
| Fields.DialledIsFilter | commands.c:240-247 | the number that is dialled has exactly the digits, "#" and "*" of the packet, in number and idempotently |
| Fields.DialledAppend | commands.c:240-247 | and in their order: what is dialled of two texts in a row is what is dialled of each |
| Fields.AddressRoundTrip | util.c:41-56 | twelve digits spell an address exactly when they are its four octets of three digits each |
| Fields.ParsePhoneAddr | util.c:41-56 | the loop finds that address, or that there is none |
| Fields.LoginFound | commands.c:792-811 | the DNS addresses of a login are found behind an id and a password of at most 32 characters each |
| Commands.Adapter.DoPppDisconnect | commands.c:82-96 | every connection of an internet session is closed and unmarked |
| Commands.Adapter.DoOffline | commands.c:98-121 | hanging up leaves nothing open and reports that there is no other party; it is refused where there is nothing to hang up |
| Commands.Adapter.DoEndSession | commands.c:123-135 | no socket of the commands survives, whatever it interrupts; the flags mirror the sockets afterwards exactly if socket 0 is not left flagged; a flag that was left over before makes it close a closed socket, or that of a fetch |
| Commands.Adapter.DoStartSession | commands.c:137-146 | a new session is idle with nothing marked, a number fetch being given up; its flags mirror the sockets exactly if nothing else was open |
| Commands.Adapter.Reset | commands.c:148-153 | a dropped session leaves no socket and no command; outside a session nothing is closed, which is in order exactly if no command was suspended that had a socket |
| Commands.Adapter.Start | commands.c:158-180 | exactly the two greetings open a session, the red adapter ignoring what follows the first; its flags mirror the sockets exactly if the packet may be handled |
| Commands.Adapter.End | commands.c:184-192 | the session and all its sockets are over, in and out of sessions; the contract is kept, and a fetch left alone, exactly if the flags mirror the sockets |
| Commands.Adapter.Reinit | commands.c:660-668 | a fresh session with nothing open, a number fetch being given up; the contract is kept exactly if the flags mirror the sockets |
| Commands.Adapter.Offline | commands.c:407-412 | exactly in a call or on the internet, hangs up |
| Commands.Adapter.PppDisconnect | commands.c:856-861 | exactly on the internet, falls back to the call with nothing open |
| Commands.Adapter.ChangeClock | commands.c:708-729 | exactly 0 or 1 sets the mode |
| Commands.Adapter.FilterNumber | commands.c:240-247 | the in-place filter leaves the dialable characters of the first 32 |
| Commands.Adapter.IsIspNumber | commands.c:249-254 | the number is one of the five provider numbers |
| Commands.Adapter.PlaceCall | commands.c:268-303 | the relay if there is one, else the address the number spells, else error 3; and whether a socket was opened for it |
| Commands.Adapter.TelBegin | commands.c:200-304 | every outcome of dialling: each refusal and its error, provider numbers and the report of them, and calls that go on, with their number, their address and the opening of their socket; and exactly when it keeps the contract |
| Commands.Adapter.TelIp | commands.c:306-331 | by what the connect answers, the call goes on unchanged, is connected and its number reported, or fails with error 3 and its socket closed |
| Commands.Adapter.TelRelay | commands.c:333-366 | by what the relay's poll gives, the call goes on unchanged, is connected to the number that was dialled, or fails with the error for that result and its socket closed |
| Commands.Adapter.Tel | commands.c:374-403 | the first poll dials; a later one is decided by the timer, then by the address or the relay |
| Commands.Adapter.WaitCallBegin | commands.c:419-455 | by the host's answers, the adapter listens on the user's port, or has a socket for the relay, or times out with nothing open, also behind a flag that was left over; the contract is broken exactly if a number is being fetched |
| Commands.Adapter.WaitCallIp | commands.c:457-468 | a caller is accepted, or nothing has changed; the contract is broken exactly if the flag of the socket was left over |
| Commands.Adapter.WaitCallRelay | commands.c:470-503 | by what the relay's poll gives, a call, a failure with nothing open, or a wait that goes on; a resumed wait neither connects nor asks again; the socket is closed, or a fetch's, exactly if its flag was left over |
| Commands.Adapter.WaitCall | commands.c:509-562 | refused in a call; a timed-out wait is sat out first; then, by the state of the line and the timer, the wait goes on, is left for the next command, is given up, or begins; and exactly when it keeps the contract |
| Commands.Adapter.SendPayload | commands.c:604-624 | what has been accepted is always a prefix of the payload, and by what the send answers there is an error, a timeout, another poll, or it is time to receive; the counter never wraps |
| Commands.Adapter.ReceiveData | commands.c:626-655 | each result of the receive: its error, the end of the connection, an echo, another second of waiting, or the next bytes of the stream as the reply |
| Commands.Adapter.Data | commands.c:576-656 | nothing is received and no success reported before the whole payload has been accepted |
| Commands.Adapter.PollData | commands.c:589-655 | over any number of polls with any partial sends the payload is accepted exactly once, and what is received is the next of the stream, with nothing of it lost |
| Commands.Adapter.Exchange | commands.c:604-655 | one poll of a transfer, by the host's answers to the send and the receive |
| Commands.Adapter.PppConnect | commands.c:779-850 | the addresses of the login become the session's servers, the reply offers the user's own for absent ones, DNS1 is favoured; the error for a left-over socket never occurs |
| Commands.Adapter.FreeConnection | commands.c:69-80 | the first free connection, or none if there is none |
| Commands.Adapter.TcpConnectBegin | commands.c:872-894 | each refusal and its error, or a socket opened in the first free slot; the contract is broken exactly if that is the socket of a fetch |
| Commands.Adapter.TcpConnectConnecting | commands.c:896-921 | by what the connect answers, the connection goes on unchanged, is usable and named in the reply, or is closed with error 3 |
| Commands.Adapter.TcpConnect | commands.c:927-951 | a connection that has timed out fails like one that was refused |
| Commands.Adapter.TcpDisconnect | commands.c:957-977 | exactly a connection that is open is closed |
| Commands.Adapter.DnsGroup | commands.c:1011-1028 | which group an address number belongs to, by the favoured one |
| Commands.Adapter.PickServer | commands.c:1038-1042 | the first address there is from a number on |
| Commands.Adapter.SendQuery | commands.c:1050-1054 | the query for the name goes out under a new id, counted in 32 bits, and counts as sent unless the send gives 0 |
| Commands.Adapter.DnsRequestStart | commands.c:1030-1061 | one server is asked, the first there is from a number on, or the socket is closed again |
| Commands.Adapter.DnsRequestBegin | commands.c:1063-1098 | each refusal and its error; addresses in text are answered at once; otherwise the favoured group is asked first if it has any address; the contract is broken exactly if the socket for it is that of a fetch |
| Commands.Adapter.ReceiveAnswer | dns.c:235-269 | only a packet of the server that was asked counts, and it counts for what the lookup finds in it |
| Commands.Adapter.DnsRequestCheck | commands.c:1100-1138 | nothing yet, the address that was found, or a failure, after which the other group is asked if only one has been; a success is remembered |
| Commands.Adapter.DnsRequest | commands.c:1143-1157 | the same, poll by poll of the command |
| Commands.Adapter.PollLookups | commands.c:1011-1138 | over any number of polls, with the user's servers changed at will in between, the group that last worked is preferred, each group is asked at most once, and a success makes its group the favoured one, although only a toggle is kept |
| Commands.Adapter.GiveUpServer | commands.c:1116-1131 | a server that has not answered is closed, and the other group is asked if it has not been |
| Commands.Adapter.FinishLookup | commands.c:1116-1137 | a lookup that has its address is closed, its group becomes the favoured one, and the reply is the address |
| Commands.Adapter.CheckStatus | commands.c:670-704 | the state of the line, the device, and whether it is metered |
| Commands.Adapter.EepromRead | commands.c:734-750 | pieces of at most 0x80 bytes inside the game's area are read into the reply, behind their offset, and nothing else is |
| Commands.Adapter.EepromWrite | commands.c:755-773 | pieces of at most 0x80 bytes inside the game's area are written, and nothing else is |
| Commands.Adapter.Parse | mobile.c:83-90 | a packet is taken over, in and out of sessions, while the rest of the shared memory holds anything |
| Commands.Adapter.Answer | commands.c:1169-1214 | each command that is answered at once is answered by its own handler; unknown ones are error 1 |
| Commands.Adapter.Process | mobile.c:92-102 | a first poll keeps the socket contract exactly if its packet may be handled, or the timer lets a WAIT_CALL off, and later polls always do; what comes of every poll of every command, from the state before it and the host's answers; which commands report a number, change the favoured DNS group, or begin and end sessions |
| Commands.Adapter.InSession | commands.c:123-146 | in a session every packet may be handled |
| Commands.Adapter.OrderlyExactly | commands.c:82-153 | the line is in order exactly when the flags mirror the sockets that are not a fetch's; if not, all that is wrong is the flag of socket 0 |
| Commands.Adapter.EndTwice | commands.c:123-135 | ending a session that waits, and ending it again, closes socket 0 twice |
| Commands.Adapter.CallOutside | commands.c:137-146 | a call that is made outside a session is left open and unmarked by a START, and a fetch opens its socket once more |
| Commands.Adapter.PollCall | commands.c:374-403 | over any number of polls of a call through the relay, it comes about only as the relay's stream leads to it, with every byte behind the relay's answer unread, and otherwise nothing is left open |
| Commands.Adapter.PollWaitCall | commands.c:509-562 | the same of a wait, over any number of polls and any number of commands that take it up again |
| Commands.Adapter.CallThenData | commands.c:333-655 | after a call through a relay that keeps to the protocol the first that DATA receives is what the other party sent first |
| Commands.Adapter.WaitThenData | commands.c:470-655 | the same after a wait, with the caller's number reported |
| Commands.Adapter.NumberFetchCancel | mobile.c:105-111 | a fetch that is given up closes its socket, and no other; the contract is broken exactly if that is closed already |
| Commands.Adapter.NumberFetchReset | mobile.c:113-122 | and the number is forgotten if it was known, and may be fetched again |
| Commands.Adapter.FetchFinds | mobile.c:136-137 | a fetch that begins finds its socket closed exactly if it is not flagged, or by a flag that was left over |
| Commands.Adapter.NumberFetchHandle | mobile.c:124-154 | one poll of a fetch: it begins, is given up after its time, or is what the relay's poll makes of it, and its socket is closed exactly when it is over; the contract is kept exactly if, when it begins, the socket is closed and can be opened |
| Commands.Adapter.ConfigureRelay | config.c:274-281 | another relay, at any moment, keeps the socket contract, and the number is fetched anew |
| Commands.Adapter.ConfigureToken | config.c:298-302 | the same of another token |
| Commands.Adapter.AtRest | commands.c:82-153 | between commands of a session: the flags are the open sockets, what is open in each state, and a wait at the relay only listens |
| Commands.Adapter.WhileSuspended | commands.c:419-562 | between polls too; and a relay procedure that may be polled has never linked |
| Commands.Adapter.Live | commands.c:1169-1214 | any run of packets in and out of sessions, polls, settings, number fetches and time-outs, with any answers of the host, keeps the socket contract up to the first packet outside a session that may not be handled, or fetch that may not begin; if only START were handed over outside a session, only a fetch whose socket cannot be opened could break it; the favoured DNS group is the one that last succeeded since the login |
| Config.ImageDecodes | config.c:146-182 | an image is always well formed, decodes exactly when the address types are known, and then says what the fields say, up to 16 bits of each port |
| Config.LoadMeans | config.c:86-127 | a load succeeds exactly on what decodes, and then the fields say what the image says, whatever they said before |
| Config.ImageRoundTrip | config.c:69-182 | saving and loading gives back every meaningful field exactly when the types are known and the ports fit 16 bits |
| Config.UnknownTypeStays | config.c:103-113 | an unknown type survives the load that refuses it and is saved again |
| Config.CopiedMeans | util.c:19-27 | a copied address is the same address |
| Config.Adapter.constructor | config.c:184-195 | the defaults, not loaded and not clean |
| Config.Adapter.Sum16 | config.c:18-23 | the loop is the sum of the bytes in 16 bits |
| Config.Adapter.InternalVerify | config.c:34-55 | the game's area is good exactly if it can be read and has its mark and checksum |
| Config.Adapter.InternalClear | config.c:25-32 | clearing it clears nothing else, and all of it if both writes succeed |
| Config.Adapter.LibraryLoad | config.c:86-127 | the fields afterwards, also when the read fails or when it fails half-way |
| Config.LoadHostMeans | config.c:69-84 | whatever a record held before, it then means the address of its type in the image |
| Config.Adapter.SaveHost | config.c:129-144 | a saved address is its port and host, with zeros behind |
| Config.Adapter.LibrarySave | config.c:146-182 | writes the image, if the write succeeds, and nothing of the game's area |
| Config.Adapter.LoadConfig | config.c:197-203 | a bad or unreadable game area is cleared, the image loaded, and the settings clean only if it could be read and decoded |
| Config.Adapter.CheckInternal | config.c:199 | the area is cleared exactly when it is bad or cannot be read |
| Config.Adapter.LoadImage | config.c:200-202 | the settings are loaded whatever becomes of the read, and clean only if the image decodes |
| Config.Adapter.SaveConfig | config.c:205-210 | the image is written exactly when it is out of date, and the settings count as clean also if that fails |
| Config.Adapter.SetDevice | config.c:218-226 | sets the device and marks the settings changed |
| Config.Adapter.GetDevice | config.c:228-232 | gives back the device and its top bit |
| Config.Adapter.SetDns | config.c:243-251 | sets one server and marks the settings changed |
| Config.Adapter.SetPort | config.c:260-267 | sets the port and marks the settings changed, except for port 0 |
| Config.Adapter.SetRelay | config.c:274-281 | sets the relay and marks the settings changed; the reset of the number fetch is that of Commands.Adapter.ConfigureRelay |
| Config.Adapter.SetRelayToken | config.c:288-296 | sets or forgets the token and marks the settings changed |
| Config.Adapter.GetRelayToken | config.c:304-309 | gives back the token |
| Config.Adapter.GameWrite | commands.c:755-773 | a game's write changes nothing but its own bytes, and never the image |
| Config.Adapter.Live | config.c:184-309 | over every run of loads, saves, setters and game writes, with storage that may fail at any time, clean settings are what the stored image says unless its last write has failed or an address type is unknown |

## Left out

- DnsName.NameCompare: requires that the comparison stops, because where it does not the C code never returns; `DnsName.StopsExactly` says where that is.
- DnsMessage.DnsBuffer.RequestRecv: the same, for a packet of the queried server.
- DnsMessage.DnsBuffer.TakeAnswer: the same, for one answer.
- DnsMessage.DnsBuffer.VerifyResponse: the same, for the question.
- DnsMessage.DnsBuffer.FirstAddress: the same, for the answers that are looked at.
- Sockets.Host.RecvFrom: a packet of the server that was asked is taken to be safe for the name (`DnsName.SafeExactly`), since nothing can be said of a lookup that never returns; packets of others may be anything.
- Sockets.Host.Recv: a receive without a buffer, as a probe for whether the connection is still there (mobile.h:377-379), is never made by the library.
- Relay.RelayClient.ProcWait: is not called once linked, where the C code would use a number it has not set; `Commands.Adapter.WhileSuspended` shows that it never is.
- Commands.Adapter.Live: stops where the contract has been broken, since nothing is said of what the host does then, and where a fetch has lost its socket or its relay client.
- Commands.Adapter.PlaceCall: a relay address of an unknown type, which a load can leave behind (`Config.UnknownTypeStays`), is not representable here; commands.c:269-273 and 428-433 copy it to an address without a type and open a TCP socket without one, and mobile.c:136 opens one of the unknown type.
- Commands.Adapter.WaitCallRelay: a relay client that is polled while its socket is closed is taken to use it, as every stage of relay.c does, and one that is polled while it fetches the number is not followed further.
- Commands.Adapter.constructor: mobile_commands_init leaves the line and the flags as they are in memory; they are taken to be idle and clear, which matters only for packets before the first START.
- Commands.Adapter.SendQuery: a query of which the host takes only a part counts as sent, as in the code.
- Handover: mobile.c's main loop and the serial thread are one state machine on values, because a Dafny method cannot be interleaved with another; each transfer and each piece of the main loop is atomic.
- The union of the DNS and relay buffers (mobile_data.h:39-42): the two are separate here; a relay procedure starts with an empty buffer, and no lookup can run while one is in progress.
- Plain `char` is taken to be unsigned where dns.c:89 compares it with a packet byte.
- Timers are arbitrary answers, also right after they have been latched; nothing is said of time or progress.
- UDP_CONNECT, UDP_DISCONNECT and TEST_MODE: always error 1, inside `Commands.Adapter.Answer`.
- Debug output, callback registration, allocation, and the build variants without 32-bit mode.
