/**
 DNS queries and responses (dns.c): building a query, checking the response against it,
 and picking the address out of the answer records.
 */
module DnsMessage {
  import opened Bytes
  import opened DnsName

  const HEADER_SIZE := 12
  const QD_SIZE := 4
  const RR_SIZE := 10
  const QTYPE_A := 1
  const CLASS_IN := 1

  // Flags 0x0100, a standard query with recursion desired; one question, no records.
  function QueryHeader(id: nat): (h: seq<byte>)
    ensures |h| == HEADER_SIZE
  {
    [High(id), Low(id), 1, 0, 0, 1, 0, 0, 0, 0, 0, 0]
  }

  function QuestionTail(qtype: nat): (t: seq<byte>)
    ensures |t| == QD_SIZE
  {
    [High(qtype), Low(qtype), 0, CLASS_IN]
  }

  // The query packet of dns_make_query: a header, the name, QTYPE and QCLASS.
  function Query(id: nat, qtype: nat, name: seq<byte>): seq<byte>
    requires ShortLabels(Split(name))
  {
    QueryHeader(id) + Encode(name) + QuestionTail(qtype)
  }

  predicate QueryFits(name: seq<byte>) {
    ShortLabels(Split(name)) && HEADER_SIZE + |name| + 2 + QD_SIZE <= PACKET_SIZE
  }

  // ---------- What the response checks do ----------

  // A response to a standard query, not truncated, recursion desired, no error: the bits
  // 0xFB0F of the flags are 0x8100, which leaves the AA, RA, Z, AD and CD bits free.
  predicate FlagsOk(p: seq<byte>)
    requires |p| >= HEADER_SIZE
  {
    (p[2] == 0x81 || p[2] == 0x85) && p[3] % 16 == 0
  }

  // RCODE, the low four bits of the flags.
  function ErrorCode(p: seq<byte>): int
    requires |p| >= HEADER_SIZE
  {
    p[3] % 16
  }

  datatype Verdict = Hangs | Refused(code: int) | Accepted(count: nat, offset: nat)

  predicate QuestionOk(p: seq<byte>, at: nat, qtype: nat)
    requires at + QD_SIZE <= |p|
  {
    Word(p, at) == qtype && Word(p, at + 2) == CLASS_IN
  }

  // dns_verify_response
  ghost function Verify(p: seq<byte>, id: nat, qtype: nat, name: seq<byte>): Verdict {
    if |p| < HEADER_SIZE || Word(p, 0) != id then Refused(-1)
    else if !FlagsOk(p) then Refused(-2 - ErrorCode(p))
    else if Word(p, 4) != 1 || Word(p, 6) < 1 then Refused(-18)
    else
      match Compare(p, HEADER_SIZE, name)
      case Diverges => Hangs
      case Differs => Refused(-19)
      case Matches(end) =>
        if end + QD_SIZE > |p| || !QuestionOk(p, end, qtype) then Refused(-19)
        else Accepted(Word(p, 6), end + QD_SIZE)
  }

  datatype Answer = Stuck | Broken | Skipped(offset: nat) | Found(rdata: nat, offset: nat)

  // dns_get_answer for a type A question
  ghost function GetAnswer(p: seq<byte>, offset: nat, name: seq<byte>): (a: Answer)
    ensures a.Found? ==> a.rdata + 4 <= |p|
  {
    var length := WireLength(p, offset);
    if length == None then Broken
    else
      var info := offset + length.value;
      if info + RR_SIZE > |p| || info + RR_SIZE + Word(p, info + 8) > |p| then Broken
      else
        match Compare(p, offset, name)
        case Diverges => Stuck
        case Differs => Skipped(offset)
        case Matches(end) =>
          if Word(p, info) != QTYPE_A || Word(p, info + 2) != CLASS_IN || Word(p, info + 8) != 4
          then Skipped(end)
          else Found(info + RR_SIZE, end + RR_SIZE + 4)
  }

  datatype Outcome = NeverReturns | NoAddress | Address(ip: seq<byte>)

  // The loop of mobile_dns_request_recv over `count` answers.
  ghost function Scan(p: seq<byte>, offset: nat, name: seq<byte>, count: nat): (r: Outcome)
    ensures r.Address? ==> |r.ip| == 4
    decreases count
  {
    if count == 0 then NoAddress
    else
      match GetAnswer(p, offset, name)
      case Stuck => NeverReturns
      case Broken => NoAddress
      case Skipped(next) => Scan(p, next, name, count - 1)
      case Found(rdata, _) => Address(p[rdata..rdata + 4])
  }

  /** What mobile_dns_request_recv makes of a packet from the server it asked. */
  ghost function Lookup(p: seq<byte>, id: nat, name: seq<byte>): (r: Outcome)
    ensures r.Address? ==> |r.ip| == 4
  {
    match Verify(p, id, QTYPE_A, name)
    case Hangs => NeverReturns
    case Refused(_) => NoAddress
    case Accepted(count, offset) => Scan(p, offset, name, count)
  }

  // ---------- Soundness and completeness ----------

  /** An address record for `name` at `at`: its owner name, with every pointer followed, is
      the name; type A, class IN, and the four bytes of `ip` as data, all in the packet. */
  ghost predicate RecordAt(p: seq<byte>, at: nat, name: seq<byte>, ip: seq<byte>) {
    && Denotes(p, at, name)
    && WireLength(p, at).Some?
    && var info := at + WireLength(p, at).value;
       && info + RR_SIZE + 4 <= |p|
       && Word(p, info) == QTYPE_A && Word(p, info + 2) == CLASS_IN && Word(p, info + 8) == 4
       && ip == p[info + RR_SIZE..info + RR_SIZE + 4]
  }

  /** A conforming response: the query's id, the flags of a good answer, one question, at
      least one answer, and the question for the address of `name` itself. */
  ghost predicate Conforms(p: seq<byte>, id: nat, name: seq<byte>) {
    && |p| >= HEADER_SIZE && Word(p, 0) == id && FlagsOk(p) && Word(p, 4) == 1 && Word(p, 6) >= 1
    && Denotes(p, HEADER_SIZE, name)
    && WireLength(p, HEADER_SIZE).Some?
    && FirstAnswer(p) <= |p|
    && QuestionOk(p, FirstAnswer(p) - QD_SIZE, QTYPE_A)
  }

  ghost function FirstAnswer(p: seq<byte>): nat
    requires WireLength(p, HEADER_SIZE).Some?
  {
    HEADER_SIZE + WireLength(p, HEADER_SIZE).value + QD_SIZE
  }

  lemma {:induction false} VerifyExactly(p: seq<byte>, id: nat, name: seq<byte>)
    requires name != []
    ensures Verify(p, id, QTYPE_A, name).Accepted? <==> Conforms(p, id, name)
    ensures Conforms(p, id, name) ==> Verify(p, id, QTYPE_A, name) == Accepted(Word(p, 6), FirstAnswer(p))
  {
    CompareIsDenotation(p, HEADER_SIZE, name);
  }

  lemma {:induction false} FoundExactly(p: seq<byte>, at: nat, name: seq<byte>, ip: seq<byte>)
    requires name != []
    ensures var a := GetAnswer(p, at, name);
            a.Found? && p[a.rdata..a.rdata + 4] == ip <==> RecordAt(p, at, name, ip)
  {
    CompareIsDenotation(p, at, name);
  }

  lemma {:induction false} ScanSound(p: seq<byte>, offset: nat, name: seq<byte>, count: nat) returns (at: nat)
    requires name != [] && Scan(p, offset, name, count).Address?
    ensures RecordAt(p, at, name, Scan(p, offset, name, count).ip)
    decreases count
  {
    match GetAnswer(p, offset, name)
    case Skipped(next) =>
      at := ScanSound(p, next, name, count - 1);
    case Found(rdata, _) =>
      at := offset;
      FoundExactly(p, at, name, p[rdata..rdata + 4]);
  }

  /** Soundness: an address is only ever taken from a conforming response, out of an
      in-bounds address record whose owner is the name that was asked for. */
  lemma {:induction false} LookupSound(p: seq<byte>, id: nat, name: seq<byte>) returns (at: nat)
    requires Lookup(p, id, name).Address?
    ensures Conforms(p, id, name) && RecordAt(p, at, name, Lookup(p, id, name).ip)
  {
    CompareIsDenotation(p, HEADER_SIZE, name);
    VerifyExactly(p, id, name);
    at := ScanSound(p, Verify(p, id, QTYPE_A, name).offset, name, Word(p, 6));
  }

  /** First-answer completeness: when the first answer of a conforming response is an
      address record for the name, its address is returned. */
  lemma {:induction false} FirstAnswerComplete(p: seq<byte>, id: nat, name: seq<byte>, ip: seq<byte>)
    requires name != [] && Conforms(p, id, name) && RecordAt(p, FirstAnswer(p), name, ip)
    ensures Lookup(p, id, name) == Address(ip)
  {
    VerifyExactly(p, id, name);
    FoundExactly(p, FirstAnswer(p), name, ip);
  }

  // The type of the record at `at` lies in the packet and is below 256, as every type in
  // section 3.2.2 of RFC 1035 is.
  predicate PlainType(p: seq<byte>, at: nat) {
    WireLength(p, at).Some? ==>
      var info := at + WireLength(p, at).value;
      info < |p| ==> p[info] == 0
  }

  /** A search that fails to match where it stands is over: it is not moved past a record of
      another owner, so however many records follow, none is looked at. */
  lemma {:induction false} OtherOwnerBlocks(p: seq<byte>, offset: nat, name: seq<byte>, count: nat)
    requires Compare(p, offset, name) == Differs
    ensures Scan(p, offset, name, count) == NoAddress
    decreases count
  {
    if count > 0 {
      OtherOwnerBlocks(p, offset, name, count - 1);
    }
  }

  // Where a name ends, or its type starts with a zero, no name other than the root begins.
  lemma RootDiffers(p: seq<byte>, at: nat, name: seq<byte>)
    requires at < |p| ==> p[at] == 0
    ensures Compare(p, at, name) == Differs
  {
    if at < |p| && name != [] {
      assert Run(p, name, Start(at), 1) == Some(None);
      CompareIsRun(p, at, name, 1);
    }
  }

  /** Nor is it moved past the rest of a record of the name itself that is not an address:
      only its owner name is passed, and its type is then taken for a name. */
  lemma {:induction false} OwnRecordBlocks(p: seq<byte>, at: nat, name: seq<byte>, count: nat)
    requires name != [] && PlainType(p, at) && Compare(p, at, name) != Diverges
    requires forall ip :: !RecordAt(p, at, name, ip)
    ensures Scan(p, at, name, count) == NoAddress
  {
    if count > 0 {
      hide RecordAt, GetAnswer, PlainType;
      SkippedTo(p, at, name);
      match GetAnswer(p, at, name)
      case Skipped(next) =>
        if Compare(p, at, name) == Differs {
          OtherOwnerBlocks(p, at, name, count);
        } else {
          RootDiffers(p, next, name);
          OtherOwnerBlocks(p, next, name, count - 1);
        }
      case Found(rdata, _) =>
        FoundExactly(p, at, name, p[rdata..rdata + 4]);
      case _ =>
    }
  }

  lemma SkippedTo(p: seq<byte>, at: nat, name: seq<byte>)
    requires PlainType(p, at)
    ensures var a := GetAnswer(p, at, name);
            && (Compare(p, at, name) != Diverges ==> a != Stuck)
            && (a.Skipped? && Compare(p, at, name) != Differs ==> a.offset < |p| ==> p[a.offset] == 0)
  {
    hide Compare;
    CompareIsDenotation(p, at, name);
  }

  /** When a conforming response gives an address, exactly: when its first answer is an
      address record for the name.  Whatever else stands first, be it a record of another
      owner or one of the name itself with another type, class or length, nothing behind it
      is found. */
  lemma {:induction false} FirstAnswerExactly(p: seq<byte>, id: nat, name: seq<byte>, ip: seq<byte>)
    requires name != [] && Conforms(p, id, name)
    requires Compare(p, FirstAnswer(p), name) != Diverges && PlainType(p, FirstAnswer(p))
    ensures Lookup(p, id, name) == Address(ip) <==> RecordAt(p, FirstAnswer(p), name, ip)
  {
    hide RecordAt;
    var at := FirstAnswer(p);
    VerifyExactly(p, id, name);
    if other :| RecordAt(p, at, name, other) {
      FirstAnswerComplete(p, id, name, other);
      if RecordAt(p, at, name, ip) {
        FirstAnswerComplete(p, id, name, ip);
      }
    } else {
      OwnRecordBlocks(p, at, name, Word(p, 6));
    }
  }

  /** In particular an alias (type 5) in front of the address hides it. */
  lemma {:induction false} AliasHides(p: seq<byte>, id: nat, name: seq<byte>)
    requires name != [] && Conforms(p, id, name) && Denotes(p, FirstAnswer(p), name)
    requires WireLength(p, FirstAnswer(p)).Some?
    requires var info := FirstAnswer(p) + WireLength(p, FirstAnswer(p)).value;
             info + 2 <= |p| && Word(p, info) == 5
    ensures Lookup(p, id, name) == NoAddress
  {
    CompareIsDenotation(p, FirstAnswer(p), name);
    VerifyExactly(p, id, name);
    OwnRecordBlocks(p, FirstAnswer(p), name, Word(p, 6));
  }

  // A response to a query for "a" with id 0: an alias of "a", and then its address.
  const ECHOED_QUESTION: seq<byte> := [0, 0, 0x81, 0x80, 0, 1, 0, 2, 0, 0, 0, 0, 1, 97, 0, 0, 1, 0, 1]
  const ALIAS_RECORD: seq<byte> := [0xC0, 12, 0, 5, 0, 1, 0, 0, 0, 0, 0, 3, 1, 98, 0]
  const ADDRESS_RECORD: seq<byte> := [0xC0, 12, 0, 1, 0, 1, 0, 0, 0, 0, 0, 4, 10, 0, 0, 1]
  const ALIASED_REPLY := ECHOED_QUESTION + ALIAS_RECORD + ADDRESS_RECORD

  lemma LetterAt(p: seq<byte>, at: nat, c: byte)
    requires at + 2 < |p| && p[at] == 1 && p[at + 1] == c && p[at + 2] == 0
    ensures NameAt(p, at, [[c]], 2) && Denotes(p, at, [c]) && WireLength(p, at) == Some(3)
  {
    var labels: seq<seq<byte>> := [[c]];
    assert p[at + 1..at + 2] == [c] && labels[1..] == [];
    assert at + 1 + Length(p[at]) == at + 2;
    assert NameAt(p, at + 2, [], 1) && WireLength(p, at + 2) == Some(1);
    OneLabel(c);
    assert NameAt(p, at, labels, 2) && Dotted(labels) == [c];
  }

  lemma OneLabel(c: byte)
    ensures Dotted([[c]]) == [c]
  {
  }

  lemma PointerTo(p: seq<byte>, at: nat, target: byte, c: byte)
    requires at + 1 < |p| && p[at] == 0xC0 && p[at + 1] == target && Length(target) < |p|
    requires NameAt(p, target, [[c]], 2)
    ensures Denotes(p, at, [c]) && WireLength(p, at) == Some(2)
  {
    OneLabel(c);
    assert NameAt(p, at, [[c]], 3) && Dotted([[c]]) == [c];
  }

  // Two bytes of a piece of a packet are two bytes of the packet.
  lemma WordOfPart(p: seq<byte>, at: nat, part: seq<byte>, k: nat)
    requires at + |part| <= |p| && p[at..at + |part|] == part && k + 2 <= |part|
    ensures p[at + k] == part[k] && p[at + k + 1] == part[k + 1] && Word(p, at + k) == Word(part, k)
  {
    assert p[at..at + |part|][k] == p[at + k] && p[at..at + |part|][k + 1] == p[at + k + 1];
  }

  lemma QuestionWords(p: seq<byte>)
    requires |p| >= 19 && p[0..19] == ECHOED_QUESTION
    ensures Word(p, 0) == 0 && FlagsOk(p) && Word(p, 4) == 1 && Word(p, 6) == 2
    ensures p[12] == 1 && p[13] == 97 && p[14] == 0 && QuestionOk(p, 15, QTYPE_A)
  {
    WordOfPart(p, 0, ECHOED_QUESTION, 0);
    WordOfPart(p, 0, ECHOED_QUESTION, 2);
    WordOfPart(p, 0, ECHOED_QUESTION, 4);
    WordOfPart(p, 0, ECHOED_QUESTION, 6);
    WordOfPart(p, 0, ECHOED_QUESTION, 12);
    WordOfPart(p, 0, ECHOED_QUESTION, 13);
    WordOfPart(p, 0, ECHOED_QUESTION, 15);
    WordOfPart(p, 0, ECHOED_QUESTION, 17);
  }

  lemma RecordWords(p: seq<byte>)
    requires |p| == 50 && p[19..34] == ALIAS_RECORD && p[34..50] == ADDRESS_RECORD
    ensures p[19] == 0xC0 && p[20] == 12 && Word(p, 21) == 5
    ensures p[34] == 0xC0 && p[35] == 12 && Word(p, 36) == QTYPE_A && Word(p, 38) == CLASS_IN && Word(p, 44) == 4
    ensures p[46..50] == [10, 0, 0, 1]
  {
    WordOfPart(p, 19, ALIAS_RECORD, 0);
    WordOfPart(p, 19, ALIAS_RECORD, 2);
    WordOfPart(p, 34, ADDRESS_RECORD, 0);
    WordOfPart(p, 34, ADDRESS_RECORD, 2);
    WordOfPart(p, 34, ADDRESS_RECORD, 4);
    WordOfPart(p, 34, ADDRESS_RECORD, 10);
    assert p[46..50] == ADDRESS_RECORD[12..16];
  }

  /** In that packet the address record is there, for the name, and is not found. */
  lemma AliasedReplyFails()
    ensures Conforms(ALIASED_REPLY, 0, [97]) && RecordAt(ALIASED_REPLY, 34, [97], [10, 0, 0, 1])
    ensures Lookup(ALIASED_REPLY, 0, [97]) == NoAddress
  {
    hide Denotes, NameAt, WireLength, Lookup, Word, FlagsOk;
    var p := ALIASED_REPLY;
    assert p[0..19] == ECHOED_QUESTION && p[19..34] == ALIAS_RECORD && p[34..50] == ADDRESS_RECORD;
    QuestionWords(p);
    RecordWords(p);
    LetterAt(p, 12, 97);
    PointerTo(p, 19, 12, 97);
    PointerTo(p, 34, 12, 97);
    AliasHides(p, 0, [97]);
  }

  // ---------- Query and response together ----------

  // Flags 0x8180, a good answer; one question, one answer.
  function ReplyHeader(id: nat): (h: seq<byte>)
    ensures |h| == HEADER_SIZE
  {
    [High(id), Low(id), 0x81, 0x80, 0, 1, 0, 1, 0, 0, 0, 0]
  }

  // The end of the question, then an owner that is a pointer to it, type and class.
  function ReplyMiddle(): (m: seq<byte>)
    ensures |m| == 10
  {
    [0, QTYPE_A, 0, CLASS_IN, 0xC0, HEADER_SIZE, 0, QTYPE_A, 0, CLASS_IN]
  }

  // The plainest good response: the query echoed, then one address record.
  function Reply(id: nat, name: seq<byte>, ttl: seq<byte>, ip: seq<byte>): seq<byte>
    requires ShortLabels(Split(name))
  {
    ReplyHeader(id) + Encode(name) + ReplyMiddle() + ttl + [0, 4] + ip
  }

  // The places of the parts of a reply.
  lemma ReplyParts(id: nat, name: seq<byte>, ttl: seq<byte>, ip: seq<byte>)
    requires ShortLabels(Split(name)) && |ttl| == 4 && |ip| == 4
    ensures var p := Reply(id, name, ttl, ip);
            var n := 12 + |Encode(name)|;
            && |p| == n + 20
            && p[..12] == ReplyHeader(id)
            && p[12..n] == Encode(name)
            && p[n..n + 10] == ReplyMiddle()
            && p[n + 14..n + 16] == [0, 4]
            && p[n + 16..n + 20] == ip
  {
    var p := Reply(id, name, ttl, ip);
    var n := 12 + |Encode(name)|;
    var tail := ttl + [0, 4];
    FivePieces(ReplyHeader(id), Encode(name), ReplyMiddle(), tail, ip);
    assert p == ReplyHeader(id) + Encode(name) + ReplyMiddle() + tail + ip;
    assert p[n + 16..] == p[n + 16..n + 20];
    assert p[n + 14..n + 16] == p[n + 10..n + 16][4..] == tail[4..] == [0, 4];
  }

  lemma FivePieces(a: seq<byte>, b: seq<byte>, c: seq<byte>, d: seq<byte>, e: seq<byte>)
    ensures var p := a + b + c + d + e;
            && p[..|a|] == a && p[|a|..|a| + |b|] == b && p[|a| + |b|..|a| + |b| + |c|] == c
            && p[|a| + |b| + |c|..|a| + |b| + |c| + |d|] == d && p[|a| + |b| + |c| + |d|..] == e
  {
  }

  lemma ReplyNames(p: seq<byte>, name: seq<byte>)
    requires name != [] && NoEmptyLabel(name) && ShortLabels(Split(name))
    requires 12 + |Encode(name)| + 6 <= |p| && p[12..12 + |Encode(name)|] == Encode(name)
    requires p[12 + |Encode(name)| + 4] == 0xC0 && p[12 + |Encode(name)| + 5] == HEADER_SIZE
    ensures WireLength(p, 12) == Some(|Encode(name)|) && Denotes(p, 12, name)
    ensures WireLength(p, 12 + |Encode(name)| + 4) == Some(2) && Denotes(p, 12 + |Encode(name)| + 4, name)
  {
    var labels := Visible(Split(name));
    EncodedName(p, 12, name);
    DottedSplit(name);
    assert labels == Split(name);
    assert NameAt(p, 12, labels, |labels| + 1) && Dotted(labels) == name;
    assert NameAt(p, 12 + |Encode(name)| + 4, labels, |labels| + 2);
  }

  // The fields of a packet that starts like a reply header.
  lemma HeaderWords(p: seq<byte>, id: nat)
    requires |p| >= 12 && p[..12] == ReplyHeader(id) && id < 0x1_0000
    ensures Word(p, 0) == id && FlagsOk(p) && Word(p, 4) == 1 && Word(p, 6) == 1
  {
    assert forall k | 0 <= k < 12 :: p[k] == p[..12][k];
  }

  lemma MiddleWords(p: seq<byte>, n: nat)
    requires n + 16 <= |p| && p[n..n + 10] == ReplyMiddle() && p[n + 14..n + 16] == [0, 4]
    ensures QuestionOk(p, n, QTYPE_A) && p[n + 4] == 0xC0 && p[n + 5] == HEADER_SIZE
    ensures Word(p, n + 6) == QTYPE_A && Word(p, n + 8) == CLASS_IN && Word(p, n + 14) == 4
  {
    var mid, length := p[n..n + 10], p[n + 14..n + 16];
    assert p[n] == mid[0] && p[n + 1] == mid[1] && p[n + 2] == mid[2] && p[n + 3] == mid[3] && p[n + 4] == mid[4];
    assert p[n + 5] == mid[5] && p[n + 6] == mid[6] && p[n + 7] == mid[7] && p[n + 8] == mid[8] && p[n + 9] == mid[9];
    assert p[n + 14] == length[0] && p[n + 15] == length[1];
  }

  lemma {:induction false} ReplyConforms(id: nat, name: seq<byte>, ttl: seq<byte>, ip: seq<byte>)
    requires id < 0x1_0000 && name != [] && NoEmptyLabel(name) && ShortLabels(Split(name))
    requires |ttl| == 4 && |ip| == 4
    ensures var p := Reply(id, name, ttl, ip);
            Conforms(p, id, name) && RecordAt(p, FirstAnswer(p), name, ip)
  {
    var p := Reply(id, name, ttl, ip);
    ReplyParts(id, name, ttl, ip);
    HeaderWords(p, id);
    MiddleWords(p, 12 + |Encode(name)|);
    ReplyNames(p, name);
  }

  /** Asking and being answered.  The reply to a query is understood exactly when the
      name has a label and no empty one and the query's id fits 16 bits.  The counter that
      ids are taken from is wider: beyond 16 bits no answer is understood, until it wraps. */
  lemma {:induction false} RoundTrip(id: nat, name: seq<byte>, ttl: seq<byte>, ip: seq<byte>)
    requires ShortLabels(Split(name)) && |ttl| == 4 && |ip| == 4
    ensures Lookup(Reply(id, name, ttl, ip), id, name) == Address(ip)
            <==> id < 0x1_0000 && name != [] && NoEmptyLabel(name)
  {
    var p := Reply(id, name, ttl, ip);
    if id < 0x1_0000 && name != [] && NoEmptyLabel(name) {
      ReplyConforms(id, name, ttl, ip);
      FirstAnswerComplete(p, id, name, ip);
    } else {
      ReplyParts(id, name, ttl, ip);
      EncodeRoundTrip(p, 12, name);
      assert Word(p, 0) < 0x1_0000;
    }
  }

  /** Every lookup in a packet that is safe for its name returns. */
  lemma {:induction false} LookupReturns(p: seq<byte>, id: nat, name: seq<byte>)
    requires Safe(p, |name|)
    ensures Lookup(p, id, name) != NeverReturns
  {
    hide GetAnswer, Scan;
    CompareReturns(p, HEADER_SIZE, name);
    match Verify(p, id, QTYPE_A, name)
    case Accepted(count, offset) => ScanReturns(p, offset, name, count);
    case _ =>
  }

  lemma {:induction false} CompareReturns(p: seq<byte>, offset: nat, name: seq<byte>)
    requires Safe(p, |name|)
    ensures Compare(p, offset, name) != Diverges
  {
    if offset < |p| {
      StopsExactly(p, offset, |name|);
    }
  }

  lemma {:induction false} ScanReturns(p: seq<byte>, offset: nat, name: seq<byte>, count: nat)
    requires Safe(p, |name|)
    ensures Scan(p, offset, name, count) != NeverReturns
    decreases count
  {
    if count > 0 {
      CompareReturns(p, offset, name);
      var a := GetAnswer(p, offset, name);
      if a.Skipped? {
        ScanReturns(p, a.offset, name, count - 1);
      }
    }
  }

  // ---------- struct mobile_buffer_dns and the functions on it ----------

  class DnsBuffer {
    var id: nat
    var qtype: nat
    var size: nat
    const data: array<byte>

    ghost predicate Valid()
      reads this`size
    {
      data.Length == PACKET_SIZE && size <= PACKET_SIZE
    }

    ghost function Packet(): seq<byte>
      reads this, data
      requires Valid()
    {
      data[..size]
    }

    constructor ()
      ensures Valid() && fresh(data)
    {
      id, qtype, size := 0, 0, 0;
      data := new byte[PACKET_SIZE](_ => 0);
    }

    // dns_make_query: fails, leaving `size` alone, exactly when the name cannot be encoded
    // or the query does not fit.
    method MakeQuery(id: nat, qtype: nat, name: seq<byte>) returns (ok: bool)
      requires Valid()
      modifies this, data
      ensures Valid() && this.id == id && this.qtype == qtype
      ensures ok <==> QueryFits(name)
      ensures if ok then Packet() == Query(id, qtype, name) else size == old(size)
    {
      this.id := id;
      this.qtype := qtype;
      PutHeader(id);
      var named, offset := MakeName(data, HEADER_SIZE, name);
      if !named {
        return false;
      }
      if offset + QD_SIZE > PACKET_SIZE {
        return false;
      }
      assert data[..offset] == data[..HEADER_SIZE] + data[HEADER_SIZE..offset];
      PutQuestion(offset, qtype);
      size := offset + QD_SIZE;
      EncodeSize(name);
      return true;
    }

    method PutQuestion(offset: nat, qtype: nat)
      requires Valid() && offset + QD_SIZE <= PACKET_SIZE
      modifies data
      ensures data[..offset + QD_SIZE] == old(data[..offset]) + QuestionTail(qtype)
    {
      data[offset], data[offset + 1] := High(qtype), Low(qtype);
      data[offset + 2], data[offset + 3] := 0, CLASS_IN;
    }

    // The id, then the fixed ten bytes of a query header.
    method PutHeader(id: nat)
      requires Valid()
      modifies data
      ensures data[..HEADER_SIZE] == QueryHeader(id)
    {
      data[0], data[1] := High(id), Low(id);
      data[2], data[3], data[4], data[5] := 1, 0, 0, 1;
      data[6], data[7], data[8], data[9], data[10], data[11] := 0, 0, 0, 0, 0, 0;
    }

    // dns_verify_response
    method VerifyResponse(name: seq<byte>) returns (rc: int, offset: nat)
      requires Valid() && Verify(Packet(), id, qtype, name) != Hangs
      ensures Verify(Packet(), id, qtype, name) == if rc < 0 then Refused(rc) else Accepted(rc, offset)
    {
      ghost var p := Packet();
      offset := 0;
      if size < HEADER_SIZE {
        return -1, offset;
      }
      assert forall k | 0 <= k < size :: p[k] == data[k];
      if BigEndian(data[0], data[1]) != id {
        return -1, offset;
      }
      if !((data[2] == 0x81 || data[2] == 0x85) && data[3] % 16 == 0) {
        var flags: int := data[3];
        return -2 - flags % 16, offset;
      }
      var qdcount := BigEndian(data[4], data[5]);
      var ancount := BigEndian(data[6], data[7]);
      if qdcount != 1 {
        return -18, offset;
      }
      if ancount < 1 {
        return -18, offset;
      }
      var ok;
      ok, offset := NameCompare(data, size, HEADER_SIZE, name);
      if !ok {
        return -19, offset;
      }
      if offset + QD_SIZE > size {
        return -19, offset;
      }
      if BigEndian(data[offset], data[offset + 1]) != qtype {
        return -19, offset;
      }
      if BigEndian(data[offset + 2], data[offset + 3]) != 1 {
        return -19, offset;
      }
      return ancount, offset + QD_SIZE;
    }

    // dns_get_answer
    method TakeAnswer(offset: nat, name: seq<byte>) returns (rdata: int, next: nat)
      requires Valid() && qtype == QTYPE_A && GetAnswer(Packet(), offset, name) != Stuck
      ensures match GetAnswer(Packet(), offset, name)
              case Stuck => true
              case Broken => rdata == -1
              case Skipped(to) => rdata == -2 && next == to
              case Found(at, to) => rdata == at && next == to
    {
      ghost var p := Packet();
      next := offset;
      var length := NameLen(data, size, offset);
      if length < 0 {
        return -1, next;
      }
      if offset + length + RR_SIZE > size {
        return -1, next;
      }
      assert forall k | 0 <= k < size :: p[k] == data[k];
      var info := offset + length;
      var rdlength := BigEndian(data[info + 8], data[info + 9]);
      if info + RR_SIZE + rdlength > size {
        return -1, next;
      }
      var ok;
      CompareIsDenotation(p, offset, name);
      ok, next := NameCompare(data, size, offset, name);
      if !ok {
        return -2, next;
      }
      if BigEndian(data[info], data[info + 1]) != qtype {
        return -2, next;
      }
      if BigEndian(data[info + 2], data[info + 3]) != CLASS_IN {
        return -2, next;
      }
      if rdlength != 4 {
        return -2, next;
      }
      return info + RR_SIZE, next + RR_SIZE + rdlength;
    }

    // The loop over the answers in mobile_dns_request_recv.
    method FirstAddress(name: seq<byte>, count: nat, first: nat) returns (rc: int, ip: seq<byte>)
      requires Valid() && qtype == QTYPE_A && Scan(Packet(), first, name, count) != NeverReturns
      ensures rc == 1 || rc == -1
      ensures Scan(Packet(), first, name, count) == if rc == 1 then Address(ip) else NoAddress
    {
      var ancount, offset := count, first;
      while ancount > 0
        invariant 0 <= ancount <= count
        invariant Scan(Packet(), offset, name, ancount) == Scan(Packet(), first, name, count)
      {
        ancount := ancount - 1;
        var anoffset, next := TakeAnswer(offset, name);
        if anoffset < -1 {
          offset := next;
          continue;
        }
        if anoffset == -1 {
          break;
        }
        assert data[..size][..anoffset + 4] == data[..anoffset + 4];
        return 1, data[anoffset..anoffset + 4];
      }
      return -1, [];
    }

    // mobile_dns_request_recv; `recv`, `datagram` and `sender` are what the socket gave.
    // rc tells an answer (1) from an error (negative) and from nothing yet (0).
    method RequestRecv(recv: int, datagram: seq<byte>, sender: Addr, server: Addr, name: seq<byte>)
      returns (rc: int, ip: seq<byte>)
      requires Valid() && qtype == QTYPE_A
      requires recv > 0 ==> recv == |datagram| <= PACKET_SIZE
      requires recv > 0 && SameAddr(server, sender) ==> Lookup(datagram, id, name) != NeverReturns
      modifies this, data
      ensures Valid() && id == old(id) && qtype == old(qtype)
      ensures recv <= 0 ==> rc == recv
      ensures recv > 0 && !SameAddr(server, sender) ==> rc == 0
      ensures recv > 0 && SameAddr(server, sender) ==>
                Lookup(datagram, id, name) == if rc == 1 then Address(ip) else NoAddress
      ensures recv > 0 && SameAddr(server, sender) ==> rc == 1 || rc == -1
    {
      if recv <= 0 {
        return recv, [];
      }
      forall k | 0 <= k < recv {
        data[k] := datagram[k];
      }
      size := recv;
      assert Packet() == datagram;
      if !SameAddr(server, sender) {
        return 0, [];
      }
      var ancount, offset := VerifyResponse(name);
      if ancount < 0 {
        return -1, [];
      }
      rc, ip := FirstAddress(name, ancount, offset);
    }
  }

  lemma EncodeSize(name: seq<byte>)
    requires ShortLabels(Split(name))
    ensures |Encode(name)| == |name| + 2
  {
    WireSize(name);
  }
}
