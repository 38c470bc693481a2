/**
 What the command layer makes of its packets' contents (commands.c, util.c): phone numbers,
 numbers that spell an address, and the fields of a login.
 */
module Fields {
  import opened Bytes

  const MAX_DIALLED := 0x20

  // "0" to "9", "#" and "*"
  predicate Dialable(c: byte) {
    48 <= c <= 57 || c == 35 || c == 42
  }

  // The characters of `s` that can be dialled, in order.
  function Dialled(s: seq<byte>): (n: seq<byte>)
    ensures |n| <= |s|
  {
    if s == [] then []
    else
      var init := Dialled(s[..|s| - 1]);
      if Dialable(s[|s| - 1]) then init + [s[|s| - 1]] else init
  }

  // The characters that dialling looks at.
  function FirstOf(s: seq<byte>): (r: seq<byte>)
    ensures |r| <= MAX_DIALLED
  {
    if |s| <= MAX_DIALLED then s else s[..MAX_DIALLED]
  }

  /** A filtered number is exactly the dialable characters: none added, none lost. */
  lemma {:induction false} DialledIsFilter(s: seq<byte>)
    ensures forall c | c in Dialled(s) :: Dialable(c)
    ensures forall c: byte | Dialable(c) :: multiset(Dialled(s))[c] == multiset(s)[c]
    ensures Dialled(Dialled(s)) == Dialled(s)
  {
    if s != [] {
      var init, last := s[..|s| - 1], s[|s| - 1];
      assert s == init + [last];
      DialledIsFilter(init);
      if Dialable(last) {
        assert Dialled(s)[..|Dialled(s)| - 1] == Dialled(init);
      }
    }
  }

  /** Filtering goes character by character and keeps their order: the pieces of a number are
      filtered each on its own, and a single character is kept or not. */
  lemma {:induction false} DialledAppend(a: seq<byte>, b: seq<byte>)
    ensures Dialled(a + b) == Dialled(a) + Dialled(b)
    ensures |b| == 1 ==> Dialled(b) == if Dialable(b[0]) then b else []
  {
    if b == [] {
      assert a + b == a;
    } else {
      var init := b[..|b| - 1];
      DialledAppend(a, init);
      assert (a + b)[..|a + b| - 1] == a + init;
      assert |b| == 1 ==> init == [] && b == [b[0]];
    }
  }

  // The numbers that stand for an internet provider: "#9677", "#9477", "0077487751",
  // "0077487752" and "0755311973".
  const ISP_NUMBERS: seq<seq<byte>> := [
    [35, 57, 54, 55, 55],
    [35, 57, 52, 55, 55],
    [48, 48, 55, 55, 52, 56, 55, 55, 53, 49],
    [48, 48, 55, 55, 52, 56, 55, 55, 53, 50],
    [48, 55, 53, 53, 51, 49, 49, 57, 55, 51]
  ]

  // ---------- mobile_parse_phoneaddr ----------

  predicate DigitByte(c: byte) {
    48 <= c <= 57
  }

  function Triple(s: seq<byte>): nat
    requires |s| == 3 && forall i | 0 <= i < 3 :: DigitByte(s[i])
  {
    Hundreds(s[0], s[1], s[2])
  }

  function Hundreds(a: byte, b: byte, c: byte): (n: nat)
    requires DigitByte(a) && DigitByte(b) && DigitByte(c)
    ensures n < 1000
  {
    (a - 48) * 100 + (b - 48) * 10 + (c - 48)
  }

  function TimesTen(n: nat, c: byte): (r: nat)
    requires DigitByte(c)
    ensures r == 10 * n + (c - 48)
  {
    10 * n + (c - 48)
  }

  // Twelve digits in four groups of three, each an octet.
  predicate SpellsAddress(s: seq<byte>) {
    |s| == 12 && (forall i | 0 <= i < 12 :: DigitByte(s[i]))
    && Triple(s[0..3]) < 256 && Triple(s[3..6]) < 256 && Triple(s[6..9]) < 256 && Triple(s[9..12]) < 256
  }

  function SpelledAddress(s: seq<byte>): (host: seq<byte>)
    requires SpellsAddress(s)
    ensures |host| == 4
  {
    [Triple(s[0..3]), Triple(s[3..6]), Triple(s[6..9]), Triple(s[9..12])]
  }

  function ThreeDigits(o: byte): (s: seq<byte>)
    ensures |s| == 3 && forall i | 0 <= i < 3 :: DigitByte(s[i])
  {
    [48 + o / 100, 48 + o / 10 % 10, 48 + o % 10]
  }

  lemma ThreeDigitsRead(o: byte)
    ensures Triple(ThreeDigits(o)) == o
  {
  }

  /** Every address can be dialled: its twelve digits spell it, and only they do. */
  lemma {:induction false} AddressRoundTrip(host: seq<byte>, s: seq<byte>)
    requires |host| == 4
    ensures SpellsAddress(s) && SpelledAddress(s) == host
            <==> s == ThreeDigits(host[0]) + ThreeDigits(host[1]) + ThreeDigits(host[2]) + ThreeDigits(host[3])
  {
    var t := ThreeDigits(host[0]) + ThreeDigits(host[1]) + ThreeDigits(host[2]) + ThreeDigits(host[3]);
    assert t[0..3] == ThreeDigits(host[0]) && t[3..6] == ThreeDigits(host[1])
           && t[6..9] == ThreeDigits(host[2]) && t[9..12] == ThreeDigits(host[3]);
    ThreeDigitsRead(host[0]);
    ThreeDigitsRead(host[1]);
    ThreeDigitsRead(host[2]);
    ThreeDigitsRead(host[3]);
    if SpellsAddress(s) && SpelledAddress(s) == host {
      TripleReads(s[0..3]);
      TripleReads(s[3..6]);
      TripleReads(s[6..9]);
      TripleReads(s[9..12]);
      assert s == s[0..3] + s[3..6] + s[6..9] + s[9..12];
    }
  }

  lemma TripleReads(s: seq<byte>)
    requires |s| == 3 && (forall i | 0 <= i < 3 :: DigitByte(s[i])) && Triple(s) < 256
    ensures ThreeDigits(Triple(s)) == s
  {
    hide Hundreds;
    HundredsReads(s[0], s[1], s[2]);
    assert s == [s[0], s[1], s[2]];
  }

  lemma HundredsReads(a: byte, b: byte, c: byte)
    requires DigitByte(a) && DigitByte(b) && DigitByte(c)
    ensures Hundreds(a, b, c) / 100 == a - 48
    ensures Hundreds(a, b, c) / 10 % 10 == b - 48
    ensures Hundreds(a, b, c) % 10 == c - 48
  {
    var h: int, t: int, u: int := a - 48, b - 48, c - 48;
    var tens := h * 10 + t;
    assert Hundreds(a, b, c) == tens * 10 + u;
    assert (tens * 10 + u) / 10 == tens && (tens * 10 + u) % 10 == u;
    assert Hundreds(a, b, c) == h * 100 + (t * 10 + u);
  }

  // Whether these are three digits.
  predicate ThreeDigitBytes(s: seq<byte>) {
    |s| == 3 && forall i | 0 <= i < 3 :: DigitByte(s[i])
  }

  // The inner loop of parse_phone_addr: the three digits of an octet, or -1.
  method ParseTriple(s: seq<byte>) returns (num: int)
    requires |s| == 3
    ensures num == if ThreeDigitBytes(s) then Triple(s) else -1
  {
    num := 0;
    var x := 0;
    while x < 3
      invariant 0 <= x <= 3
      invariant forall i | 0 <= i < x :: DigitByte(s[i])
      invariant x == 0 ==> num == 0
      invariant x == 1 ==> num == s[0] - 48
      invariant x == 2 ==> num == (s[0] - 48) * 10 + (s[1] - 48)
      invariant x == 3 ==> num == Hundreds(s[0], s[1], s[2])
    {
      if s[x] < 48 || s[x] > 57 {
        assert !DigitByte(s[x]);
        return -1;
      }
      num := TimesTen(num, s[x]);
      x := x + 1;
    }
  }

  predicate Spells(s: seq<byte>, octet: byte) {
    ThreeDigitBytes(s) && Triple(s) == octet
  }

  lemma FourSpelled(s: seq<byte>, octets: seq<byte>)
    requires |s| == 12 && |octets| == 4 && forall k | 0 <= k < 4 :: Spells(s[3 * k..3 * k + 3], octets[k])
    ensures SpellsAddress(s) && SpelledAddress(s) == octets
  {
    hide Hundreds;
    forall i | 0 <= i < 12 ensures DigitByte(s[i]) {
      assert Spells(s[3 * (i / 3)..3 * (i / 3) + 3], octets[i / 3]);
      assert s[i] == s[3 * (i / 3)..3 * (i / 3) + 3][i % 3];
    }
    assert Spells(s[3 * 0..3 * 0 + 3], octets[0]) && Spells(s[3 * 1..3 * 1 + 3], octets[1]);
    assert Spells(s[3 * 2..3 * 2 + 3], octets[2]) && Spells(s[3 * 3..3 * 3 + 3], octets[3]);
  }

  lemma NotSpelled(s: seq<byte>, y: nat)
    requires |s| == 12 && y < 4
    ensures var t := s[3 * y..3 * y + 3]; !ThreeDigitBytes(t) || Triple(t) > 255 ==> !SpellsAddress(s)
  {
    hide Hundreds;
    var t := s[3 * y..3 * y + 3];
    assert forall i | 0 <= i < 3 :: t[i] == s[3 * y + i];
    assert y == 0 || y == 1 || y == 2 || y == 3;
  }

  // The outer loop
  method ParsePhoneAddr(number: array<byte>, at: nat) returns (host: Option<seq<byte>>)
    requires at + 12 <= number.Length
    ensures host == if SpellsAddress(number[at..at + 12]) then Some(SpelledAddress(number[at..at + 12])) else None
  {
    hide Triple, SpellsAddress, SpelledAddress, ThreeDigitBytes;
    var s := number[at..at + 12];
    var octets: seq<byte> := [];
    var y := 0;
    while y < 4
      invariant 0 <= y <= 4 && |octets| == y
      invariant forall k | 0 <= k < y :: Spells(s[3 * k..3 * k + 3], octets[k])
    {
      var triple := s[3 * y..3 * y + 3];
      var num := ParseTriple(triple);
      if num < 0 || num > 255 {
        NotSpelled(s, y);
        return None;
      }
      octets := octets + [num];
      y := y + 1;
    }
    FourSpelled(s, octets);
    return Some(octets);
  }

  // ---------- The fields of PPP_CONNECT ----------

  function Clamp(n: byte): (r: nat)
    ensures r <= 0x20 && r <= n
  {
    if n > 0x20 then 0x20 else n
  }

  // Where the two DNS addresses start: after a counted id and a counted password, of at most
  // 0x20 characters each.
  function DnsFields(p: seq<byte>): (at: Option<nat>)
    ensures at.Some? ==> at.value + 8 <= |p| && at.value <= 66
  {
    if |p| < 1 then None
    else
      var pass := 1 + Clamp(p[0]);
      if |p| < pass + 1 then None
      else
        var dns := pass + 1 + Clamp(p[pass]);
        if |p| < dns + 8 then None else Some(dns)
  }

  function LoginPacket(id: seq<byte>, pass: seq<byte>, dns1: seq<byte>, dns2: seq<byte>): seq<byte>
    requires |id| <= 0x20 && |pass| <= 0x20
  {
    [|id|] + id + [|pass|] + pass + dns1 + dns2
  }

  /** A login of at most 0x20 characters each finds the addresses it was given. */
  lemma {:induction false} LoginFound(id: seq<byte>, pass: seq<byte>, dns1: seq<byte>, dns2: seq<byte>)
    requires |id| <= 0x20 && |pass| <= 0x20 && |dns1| == 4 && |dns2| == 4
    ensures var p := LoginPacket(id, pass, dns1, dns2);
            DnsFields(p) == Some(2 + |id| + |pass|)
            && var at := 2 + |id| + |pass|;
               p[at..at + 4] == dns1 && p[at + 4..at + 8] == dns2
  {
    var p := LoginPacket(id, pass, dns1, dns2);
    var at := 2 + |id| + |pass|;
    assert p[0] == |id| && p[1 + |id|] == |pass|;
    assert p[at..at + 4] == dns1 && p[at + 4..at + 8] == dns2;
  }
}
