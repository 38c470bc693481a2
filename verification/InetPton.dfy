/**
 Address text parsers (inet_pton.c).

 `Parse4` and `Parse6` scan the text one character at a time, as the C loops do; the
 methods at the end of the module are those loops and are proved against them.  The
 grammar half of the module says independently what an address text is, by printing a
 parse tree, and the two `...IsGrammar` lemmas show that scanner and grammar agree.
 */
module InetPton {
  import opened Bytes

  // ---------- Character classes ----------

  predicate Digit(c: char) {
    '0' <= c <= '9'
  }

  function HexValue(c: char): (v: int)
    ensures -1 <= v < 16
    ensures Digit(c) ==> v == c as int - '0' as int
  {
    if '0' <= c <= '9' then c as int - '0' as int
    else if 'a' <= c <= 'f' then c as int - 'a' as int + 10
    else if 'A' <= c <= 'F' then c as int - 'A' as int + 10
    else -1
  }

  predicate Hex(c: char) {
    HexValue(c) >= 0
  }

  // ---------- Grammar ----------

  predicate AllDigits(s: string) {
    forall i | 0 <= i < |s| :: Digit(s[i])
  }

  predicate AllHex(s: string) {
    forall i | 0 <= i < |s| :: Hex(s[i])
  }

  function Decimal(s: string): nat
    requires AllDigits(s)
  {
    if s == "" then 0 else 10 * Decimal(s[..|s| - 1]) + HexValue(s[|s| - 1])
  }

  function Hexadecimal(s: string): nat
    requires AllHex(s)
  {
    if s == "" then 0 else 16 * Hexadecimal(s[..|s| - 1]) + HexValue(s[|s| - 1])
  }

  // A decimal octet: the code lets a fourth digit through, as in 0255.
  predicate OctetText(s: string) {
    1 <= |s| <= 4 && AllDigits(s) && Decimal(s) <= 255
  }

  // A 16-bit group: one to four hexadecimal digits.
  predicate GroupText(s: string) {
    1 <= |s| <= 4 && AllHex(s)
  }

  function Join(parts: seq<string>, separator: string): string {
    if parts == [] then ""
    else if |parts| == 1 then parts[0]
    else parts[0] + separator + Join(parts[1..], separator)
  }

  predicate AllOctets(parts: seq<string>) {
    forall i | 0 <= i < |parts| :: OctetText(parts[i])
  }

  function Octets(parts: seq<string>): (v: seq<byte>)
    requires AllOctets(parts)
    ensures |v| == |parts|
  {
    if parts == [] then [] else [Decimal(parts[0])] + Octets(parts[1..])
  }

  // Four decimal octets separated by full stops.
  predicate DottedQuad(s: string, parts: seq<string>) {
    |parts| == 4 && AllOctets(parts) && s == Join(parts, ".")
  }

  predicate AllGroups(groups: seq<string>) {
    forall i | 0 <= i < |groups| :: GroupText(groups[i])
  }

  lemma {:induction false} HexadecimalBound(s: string)
    requires AllHex(s) && |s| <= 4
    ensures Hexadecimal(s) < 0x1_0000
    ensures |s| < 4 ==> Hexadecimal(s) < 0x1000
    ensures |s| < 3 ==> Hexadecimal(s) < 0x100
    ensures |s| < 2 ==> Hexadecimal(s) < 0x10
    ensures |s| < 1 ==> Hexadecimal(s) == 0
  {
    if s != "" {
      HexadecimalBound(s[..|s| - 1]);
    }
  }

  // The two bytes of a 16-bit group, most significant first.
  function GroupBytes(s: string): (v: seq<byte>)
    requires AllHex(s) && |s| <= 4
    ensures |v| == 2
  {
    HexadecimalBound(s);
    [Hexadecimal(s) / 256, Hexadecimal(s) % 256]
  }

  function GroupsBytes(groups: seq<string>): (v: seq<byte>)
    requires AllGroups(groups)
    ensures |v| == 2 * |groups|
  {
    if groups == [] then [] else GroupBytes(groups[0]) + GroupsBytes(groups[1..])
  }

  /** Section 2.2 of RFC 4291: the full form and the form with one "::".  In either a
      dotted quad (four octet texts; [] when absent) may take the last two groups' place. */
  datatype Address6 =
    | Full(groups: seq<string>, quad: seq<string>)
    | Elided(left: seq<string>, right: seq<string>, quad: seq<string>)

  predicate TailOk(groups: seq<string>, quad: seq<string>) {
    && AllGroups(groups)
    && (quad == [] || (|quad| == 4 && AllOctets(quad)))
  }

  function TailBytes(groups: seq<string>, quad: seq<string>): seq<byte>
    requires TailOk(groups, quad)
  {
    GroupsBytes(groups) + Octets(quad)
  }

  function TailItems(groups: seq<string>, quad: seq<string>): seq<string> {
    groups + if quad == [] then [] else [Join(quad, ".")]
  }

  function TailText(groups: seq<string>, quad: seq<string>): string {
    Join(TailItems(groups, quad), ":")
  }

  predicate WellFormed(a: Address6) {
    match a
    case Full(groups, quad) => TailOk(groups, quad) && |TailBytes(groups, quad)| == 16
    case Elided(left, right, quad) =>
      // "::" stands for at least one group
      AllGroups(left) && TailOk(right, quad) && 2 * |left| + |TailBytes(right, quad)| <= 14
  }

  function Text(a: Address6): string {
    match a
    case Full(groups, quad) => TailText(groups, quad)
    case Elided(left, right, quad) => Join(left, ":") + "::" + TailText(right, quad)
  }

  function Denotation(a: Address6): (v: seq<byte>)
    requires WellFormed(a)
    ensures |v| == 16
  {
    match a
    case Full(groups, quad) => TailBytes(groups, quad)
    case Elided(left, right, quad) =>
      var tail := TailBytes(right, quad);
      GroupsBytes(left) + Zeros(16 - 2 * |left| - |tail|) + tail
  }

  // ---------- Scanners ----------

  // inet_pton4 after the octets `done`, in the middle of an octet of value `cur` with
  // `saw` digits.
  function Scan4(done: seq<byte>, cur: byte, saw: nat, rest: string): (r: Option<seq<byte>>)
    requires |done| <= 3
    ensures r.Some? ==> |r.value| == 4
    decreases |rest|
  {
    if rest == "" then
      if |done| == 3 && saw > 0 then Some(done + [cur]) else None
    else if Digit(rest[0]) then
      var next := 10 * cur + HexValue(rest[0]);
      if saw > 3 || next > 255 then None else Scan4(done, next, saw + 1, rest[1..])
    else if rest[0] == '.' && saw > 0 then
      if |done| == 3 then None else Scan4(done + [cur], 0, 0, rest[1..])
    else
      None
  }

  function Parse4(s: string): (r: Option<seq<byte>>)
    ensures r.Some? ==> |r.value| == 4
  {
    Scan4([], 0, 0, s)
  }

  // Opens the "::" at `colon` up to 16 bytes; without one there must be 16 already.
  function Expand(all: seq<byte>, colon: Option<nat>): (r: Option<seq<byte>>)
    requires |all| <= 16
    requires colon.Some? ==> colon.value <= |all|
    ensures r.Some? ==> |r.value| == 16
  {
    if colon.Some? then
      if |all| == 16 then None
      else Some(all[..colon.value] + Zeros(16 - |all|) + all[colon.value..])
    else if |all| == 16 then Some(all) else None
  }

  // The end of inet_pton6: flush the last group, then expand.
  function Finish6(out: seq<byte>, colon: Option<nat>, token: string): (r: Option<seq<byte>>)
    requires |out| <= 16 && AllHex(token) && |token| <= 4
    requires colon.Some? ==> colon.value <= |out|
    ensures r.Some? ==> |r.value| == 16
  {
    if token == "" then Expand(out, colon)
    else if |out| + 2 > 16 then None
    else Expand(out + GroupBytes(token), colon)
  }

  // inet_pton6 with `out` written, `colon` the place of a "::" already seen, and `token`
  // the hexadecimal digits since the last colon.
  function Scan6(out: seq<byte>, colon: Option<nat>, token: string, rest: string): (r: Option<seq<byte>>)
    requires |out| <= 16 && AllHex(token) && |token| <= 4
    requires colon.Some? ==> colon.value <= |out|
    ensures r.Some? ==> |r.value| == 16
    decreases |rest|
  {
    if rest == "" then Finish6(out, colon, token)
    else if Hex(rest[0]) then
      if |token| == 4 then None else Scan6(out, colon, token + [rest[0]], rest[1..])
    else if rest[0] == ':' then
      if token == "" then
        if colon.Some? then None else Scan6(out, Some(|out|), "", rest[1..])
      else if rest[1..] == "" || |out| + 2 > 16 then None
      else Scan6(out + GroupBytes(token), colon, "", rest[1..])
    else if rest[0] == '.' && |out| + 4 <= 16 && Parse4(token + rest).Some? then
      Finish6(out + Parse4(token + rest).value, colon, "")
    else None
  }

  function Parse6(s: string): (r: Option<seq<byte>>)
    ensures r.Some? ==> |r.value| == 16
  {
    if s == "" then None
    else if s[0] != ':' then Scan6([], None, "", s)
    else if |s| == 1 || s[1] != ':' then None
    else Scan6([], None, "", s[1..])
  }

  // ---------- IPv4: scanner and grammar agree ----------

  // What an accepting scan has read: the octet in progress is completed by parts[0].
  lemma {:induction false} Scan4Sound(done: seq<byte>, text: string, rest: string) returns (parts: seq<string>)
    requires |done| <= 3 && AllDigits(text) && |text| <= 4 && Decimal(text) <= 255
    requires Scan4(done, Decimal(text), |text|, rest).Some?
    ensures AllOctets(parts) && |parts| == 4 - |done|
    ensures text + rest == Join(parts, ".")
    ensures Scan4(done, Decimal(text), |text|, rest) == Some(done + Octets(parts))
    decreases |rest|
  {
    if rest == "" {
      parts := [text];
      assert text + rest == text;
      assert Octets(parts) == [Decimal(text)];
    } else if Digit(rest[0]) {
      var longer := text + [rest[0]];
      assert longer[..|longer| - 1] == text;
      parts := Scan4Sound(done, longer, rest[1..]);
      assert longer + rest[1..] == text + rest;
    } else {
      var others := Scan4Sound(done + [Decimal(text)], "", rest[1..]);
      parts := [text] + others;
      assert parts[1..] == others;
      assert text + rest == text + "." + rest[1..];
      assert "" + rest[1..] == rest[1..];
      assert done + Octets(parts) == done + [Decimal(text)] + Octets(others);
    }
  }

  lemma {:induction false} DecimalMonotone(s: string, k: nat)
    requires AllDigits(s) && k <= |s|
    ensures Decimal(s[..k]) <= Decimal(s)
    decreases |s|
  {
    if k < |s| {
      assert s[..|s| - 1][..k] == s[..k];
      DecimalMonotone(s[..|s| - 1], k);
    } else {
      assert s[..k] == s;
    }
  }

  // Scanning the characters of one octet only changes the octet in progress.
  lemma {:induction false} Scan4Octet(done: seq<byte>, octet: string, k: nat, rest: string)
    requires |done| <= 3 && OctetText(octet) && k <= |octet|
    requires Decimal(octet[..k]) <= 255
    ensures Scan4(done, Decimal(octet[..k]), k, octet[k..] + rest) == Scan4(done, Decimal(octet), |octet|, rest)
    decreases |octet| - k
  {
    if k == |octet| {
      assert octet[..k] == octet;
      assert octet[k..] + rest == rest;
    } else {
      DecimalMonotone(octet, k + 1);
      assert octet[..k + 1][..k] == octet[..k];
      assert (octet[k..] + rest)[1..] == octet[k + 1..] + rest;
      Scan4Octet(done, octet, k + 1, rest);
    }
  }

  lemma {:induction false} Scan4Complete(done: seq<byte>, parts: seq<string>)
    requires AllOctets(parts) && |done| + |parts| == 4 && parts != []
    ensures Scan4(done, 0, 0, Join(parts, ".")) == Some(done + Octets(parts))
    decreases |parts|
  {
    var octet := parts[0];
    assert octet[..0] == "" && octet[0..] == octet;
    if |parts| == 1 {
      Scan4Octet(done, octet, 0, "");
      assert octet + "" == octet;
      assert Octets(parts) == [Decimal(octet)];
    } else {
      var rest := "." + Join(parts[1..], ".");
      Scan4Octet(done, octet, 0, rest);
      assert octet + rest == Join(parts, ".");
      assert rest[1..] == Join(parts[1..], ".");
      Scan4Complete(done + [Decimal(octet)], parts[1..]);
      assert done + Octets(parts) == done + [Decimal(octet)] + Octets(parts[1..]);
    }
  }

  /** The IPv4 parser accepts exactly the dotted quads, with the value of each octet. */
  lemma {:induction false} Parse4IsGrammar(s: string, v: seq<byte>)
    ensures Parse4(s) == Some(v) <==> exists parts :: DottedQuad(s, parts) && v == Octets(parts)
  {
    if Parse4(s) == Some(v) {
      var parts := Scan4Sound([], "", s);
      assert "" + s == s;
      assert DottedQuad(s, parts) && v == Octets(parts);
    }
    forall parts | DottedQuad(s, parts)
      ensures Parse4(s) == Some(Octets(parts))
    {
      Scan4Complete([], parts);
      assert [] + Octets(parts) == Octets(parts);
    }
  }

  // ---------- IPv6: scanner and grammar agree ----------

  // Every group followed by its colon.
  function Terminated(groups: seq<string>): string {
    if groups == [] then "" else groups[0] + ":" + Terminated(groups[1..])
  }

  lemma JoinCons(group: string, items: seq<string>, separator: string)
    requires items != []
    ensures Join([group] + items, separator) == group + separator + Join(items, separator)
  {
    assert ([group] + items)[1..] == items;
  }

  lemma {:induction false} JoinTerminated(groups: seq<string>, items: seq<string>)
    requires items != []
    ensures Join(groups + items, ":") == Terminated(groups) + Join(items, ":")
  {
    if groups == [] {
      assert groups + items == items;
    } else {
      var others := groups[1..];
      JoinTerminated(others, items);
      assert groups + items == [groups[0]] + (others + items);
      JoinCons(groups[0], others + items, ":");
      assert groups[0] + ":" + (Terminated(others) + Join(items, ":"))
          == groups[0] + ":" + Terminated(others) + Join(items, ":");
    }
  }

  lemma {:induction false} TerminatedJoin(groups: seq<string>)
    requires groups != []
    ensures Join(groups, ":") + ":" == Terminated(groups)
  {
    JoinTerminated(groups[..|groups| - 1], [groups[|groups| - 1]]);
    assert groups == groups[..|groups| - 1] + [groups[|groups| - 1]];
    TerminatedSnoc(groups[..|groups| - 1], groups[|groups| - 1]);
  }

  lemma {:induction false} TerminatedSnoc(groups: seq<string>, last: string)
    ensures Terminated(groups + [last]) == Terminated(groups) + last + ":"
  {
    if groups == [] {
      assert groups + [last] == [last];
      assert Terminated([last]) == last + ":" + "";
    } else {
      TerminatedSnoc(groups[1..], last);
      assert (groups + [last])[1..] == groups[1..] + [last];
      var head := groups[0] + ":";
      assert head + (Terminated(groups[1..]) + last + ":") == head + Terminated(groups[1..]) + last + ":";
    }
  }

  // What an accepting scan has read.  Full: the text up to the end is an ordinary tail.
  // Elided: it is some terminated groups, the second colon of "::", and a tail.
  ghost predicate Reads(a: Address6, out: seq<byte>, colon: Option<nat>, text: string, v: Option<seq<byte>>)
    requires colon.Some? ==> colon.value <= |out|
  {
    match a
    case Full(groups, quad) =>
      && TailOk(groups, quad)
      && text == TailText(groups, quad)
      && |out + TailBytes(groups, quad)| <= 16
      && v == Expand(out + TailBytes(groups, quad), colon)
    case Elided(left, right, quad) =>
      && colon == None
      && AllGroups(left) && TailOk(right, quad)
      && text == Terminated(left) + ":" + TailText(right, quad)
      && var used := |out| + 2 * |left| + |TailBytes(right, quad)|;
         used < 16 &&
         v == Some(out + GroupsBytes(left) + Zeros(16 - used) + TailBytes(right, quad))
  }

  lemma {:induction false} Scan6Sound(out: seq<byte>, colon: Option<nat>, token: string, rest: string, text: string)
    returns (a: Address6)
    requires |out| <= 16 && AllHex(token) && |token| <= 4 && text == token + rest
    requires colon.Some? ==> colon.value <= |out|
    requires Scan6(out, colon, token, rest).Some?
    ensures Reads(a, out, colon, text, Scan6(out, colon, token, rest))
    decreases |rest|
  {
    Scan6Turn(out, colon, token, rest);
    hide Scan6, Reads, Parse4, GroupBytes, Finish6;
    if rest == "" {
      assert text == token;
      a := ReadsEnd(out, colon, token);
    } else if Hex(rest[0]) {
      assert token + rest == token + [rest[0]] + rest[1..];
      a := Scan6Sound(out, colon, token + [rest[0]], rest[1..], text);
    } else if rest[0] == ':' {
      var onward := rest[1..];
      assert onward == "" + onward;
      if token == "" {
        assert text == ":" + onward;
        var tail := Scan6Sound(out, Some(|out|), "", onward, onward);
        a := ReadsElision(out, onward, Scan6(out, colon, token, rest), tail);
      } else {
        assert text == token + ":" + onward;
        var tail := Scan6Sound(out + GroupBytes(token), colon, "", onward, onward);
        a := ReadsGroup(out, colon, token, onward, Scan6(out, colon, token, rest), tail);
      }
    } else {
      a := ReadsQuad(out, colon, text);
    }
  }

  lemma ReadsEnd(out: seq<byte>, colon: Option<nat>, token: string) returns (a: Address6)
    requires |out| <= 16 && AllHex(token) && |token| <= 4
    requires colon.Some? ==> colon.value <= |out|
    requires Finish6(out, colon, token).Some?
    ensures Reads(a, out, colon, token, Finish6(out, colon, token))
  {
    if token == "" {
      a := Full([], []);
      assert out + TailBytes([], []) == out;
    } else {
      a := Full([token], []);
      assert TailItems([token], []) == [token];
      assert GroupsBytes([token]) == GroupBytes(token);
      assert TailBytes([token], []) == GroupBytes(token);
    }
  }

  lemma ReadsQuad(out: seq<byte>, colon: Option<nat>, text: string) returns (a: Address6)
    requires |out| + 4 <= 16 && Parse4(text).Some?
    requires colon.Some? ==> colon.value <= |out|
    ensures Reads(a, out, colon, text, Expand(out + Parse4(text).value, colon))
  {
    Parse4IsGrammar(text, Parse4(text).value);
    var quad :| DottedQuad(text, quad) && Parse4(text).value == Octets(quad);
    a := Full([], quad);
    assert TailItems([], quad) == [text];
    assert TailBytes([], quad) == Octets(quad);
  }

  lemma ReadsElision(out: seq<byte>, onward: string, v: Option<seq<byte>>, tail: Address6) returns (a: Address6)
    requires |out| <= 16 && v.Some?
    requires Reads(tail, out, Some(|out|), onward, v)
    ensures Reads(a, out, None, ":" + onward, v)
  {
    a := Elided([], tail.groups, tail.quad);
    var bytes := TailBytes(tail.groups, tail.quad);
    var all := out + bytes;
    assert all[..|out|] == out && all[|out|..] == bytes;
    assert out + GroupsBytes([]) == out;
    assert "" + ":" + onward == ":" + onward;
  }

  lemma ReadsGroup(out: seq<byte>, colon: Option<nat>, token: string, onward: string, v: Option<seq<byte>>,
                   tail: Address6)
    returns (a: Address6)
    requires |out| <= 14 && GroupText(token) && onward != ""
    requires colon.Some? ==> colon.value <= |out|
    requires Reads(tail, out + GroupBytes(token), colon, onward, v)
    ensures Reads(a, out, colon, token + ":" + onward, v)
  {
    match tail
    case Full(groups, quad) =>
      a := Full([token] + groups, quad);
      TailCons(token, groups, quad);
      assert out + (GroupBytes(token) + TailBytes(groups, quad)) == out + GroupBytes(token) + TailBytes(groups, quad);
    case Elided(left, right, quad) =>
      a := Elided([token] + left, right, quad);
      GroupsBytesCons(token, left);
      TerminatedCons(token, left, TailText(right, quad));
      assert out + (GroupBytes(token) + GroupsBytes(left)) == out + GroupBytes(token) + GroupsBytes(left);
  }

  lemma TailCons(token: string, groups: seq<string>, quad: seq<string>)
    requires GroupText(token) && TailOk(groups, quad) && TailText(groups, quad) != ""
    ensures TailOk([token] + groups, quad)
    ensures TailText([token] + groups, quad) == token + ":" + TailText(groups, quad)
    ensures TailBytes([token] + groups, quad) == GroupBytes(token) + TailBytes(groups, quad)
  {
    hide GroupBytes;
    GroupsBytesCons(token, groups);
    var items := TailItems(groups, quad);
    assert TailItems([token] + groups, quad) == [token] + items;
    JoinCons(token, items, ":");
  }

  lemma TerminatedCons(token: string, left: seq<string>, tail: string)
    ensures Terminated([token] + left) + ":" + tail == token + ":" + (Terminated(left) + ":" + tail)
  {
    assert ([token] + left)[1..] == left;
  }

  lemma GroupsBytesCons(token: string, groups: seq<string>)
    requires GroupText(token) && AllGroups(groups)
    ensures AllGroups([token] + groups)
    ensures GroupsBytes([token] + groups) == GroupBytes(token) + GroupsBytes(groups)
  {
    assert ([token] + groups)[1..] == groups;
  }

  lemma {:induction false} GroupsBytesAppend(a: seq<string>, b: seq<string>)
    requires AllGroups(a) && AllGroups(b)
    ensures AllGroups(a + b)
    ensures GroupsBytes(a + b) == GroupsBytes(a) + GroupsBytes(b)
  {
    if a == [] {
      assert a + b == b;
    } else {
      GroupsBytesAppend(a[1..], b);
      assert (a + b)[1..] == a[1..] + b;
    }
  }

  // Scanning hexadecimal digits only extends the token.
  lemma {:induction false} Scan6Digits(out: seq<byte>, colon: Option<nat>, token: string, more: string, rest: string)
    requires |out| <= 16 && AllHex(token) && AllHex(more) && |token| + |more| <= 4
    requires colon.Some? ==> colon.value <= |out|
    ensures Scan6(out, colon, token, more + rest) == Scan6(out, colon, token + more, rest)
    decreases |more|
  {
    if more == "" {
      assert token + more == token && more + rest == rest;
    } else {
      assert (more + rest)[1..] == more[1..] + rest;
      assert token + [more[0]] + more[1..] == token + more;
      Scan6Digits(out, colon, token + [more[0]], more[1..], rest);
    }
  }

  lemma Scan6Group(out: seq<byte>, colon: Option<nat>, group: string, rest: string)
    requires GroupText(group) && |out| + 2 <= 16 && rest != ""
    requires colon.Some? ==> colon.value <= |out|
    ensures Scan6(out, colon, "", group + (":" + rest)) == Scan6(out + GroupBytes(group), colon, "", rest)
  {
    Scan6Digits(out, colon, "", group, ":" + rest);
    assert "" + group == group;
    assert (":" + rest)[1..] == rest;
  }

  lemma {:induction false} Scan6Groups(out: seq<byte>, colon: Option<nat>, groups: seq<string>, rest: string)
    requires AllGroups(groups) && |out| + 2 * |groups| <= 16 && rest != ""
    requires colon.Some? ==> colon.value <= |out|
    ensures Scan6(out, colon, "", Terminated(groups) + rest) == Scan6(out + GroupsBytes(groups), colon, "", rest)
    decreases |groups|
  {
    if groups == [] {
      assert out + GroupsBytes(groups) == out;
      assert Terminated(groups) + rest == rest;
    } else {
      hide Scan6, GroupBytes;
      var others := Terminated(groups[1..]) + rest;
      var out' := out + GroupBytes(groups[0]);
      assert groups[0] + ":" + Terminated(groups[1..]) + rest == groups[0] + (":" + others);
      Scan6Group(out, colon, groups[0], others);
      Scan6Groups(out', colon, groups[1..], rest);
      assert out' + GroupsBytes(groups[1..]) == out + GroupsBytes(groups);
    }
  }

  lemma {:induction false} Scan6Quad(out: seq<byte>, colon: Option<nat>, quad: seq<string>)
    requires |quad| == 4 && AllOctets(quad) && |out| + 4 <= 16
    requires colon.Some? ==> colon.value <= |out|
    ensures Scan6(out, colon, "", Join(quad, ".")) == Expand(out + Octets(quad), colon)
  {
    var text := Join(quad, ".");
    var rest := "." + Join(quad[1..], ".");
    assert text == quad[0] + rest;
    Scan6Digits(out, colon, "", quad[0], rest);
    assert "" + quad[0] == quad[0];
    Parse4IsGrammar(text, Octets(quad));
    assert DottedQuad(text, quad);
  }

  // Scanning an ordinary tail to the end of the text.
  lemma {:induction false} Scan6Tail(out: seq<byte>, colon: Option<nat>, groups: seq<string>, quad: seq<string>)
    requires TailOk(groups, quad) && |out + TailBytes(groups, quad)| <= 16
    requires colon.Some? ==> colon.value <= |out|
    ensures Scan6(out, colon, "", TailText(groups, quad)) == Expand(out + TailBytes(groups, quad), colon)
  {
    if quad != [] {
      var text := Join(quad, ".");
      JoinTerminated(groups, [text]);
      Scan6Groups(out, colon, groups, text);
      Scan6Quad(out + GroupsBytes(groups), colon, quad);
      assert out + GroupsBytes(groups) + Octets(quad) == out + TailBytes(groups, quad);
    } else if groups == [] {
      assert out + TailBytes(groups, quad) == out;
      assert TailItems(groups, quad) == [];
    } else {
      Scan6LastGroup(out, colon, groups[..|groups| - 1], groups[|groups| - 1]);
      assert groups == groups[..|groups| - 1] + [groups[|groups| - 1]];
      assert TailItems(groups, quad) == groups;
      assert TailBytes(groups, quad) == GroupsBytes(groups);
    }
  }

  lemma {:induction false} Scan6LastGroup(out: seq<byte>, colon: Option<nat>, init: seq<string>, last: string)
    requires AllGroups(init) && GroupText(last) && |out| + 2 * |init| + 2 <= 16
    requires colon.Some? ==> colon.value <= |out|
    ensures AllGroups(init + [last])
    ensures Scan6(out, colon, "", Join(init + [last], ":")) == Expand(out + GroupsBytes(init + [last]), colon)
  {
    hide Scan6, GroupBytes;
    JoinTerminated(init, [last]);
    Scan6Turn(out + GroupsBytes(init), colon, last, "");
    Scan6Groups(out, colon, init, last);
    Scan6Digits(out + GroupsBytes(init), colon, "", last, "");
    assert last + "" == last && "" + last == last;
    GroupsBytesAppend(init, [last]);
    assert GroupsBytes([last]) == GroupBytes(last);
    assert out + GroupsBytes(init) + GroupBytes(last) == out + (GroupsBytes(init) + GroupBytes(last));
  }

  lemma {:induction false} Parse6Complete(a: Address6)
    requires WellFormed(a)
    ensures Parse6(Text(a)) == Some(Denotation(a))
  {
    hide Scan6, Denotation;
    match a
    case Full(groups, quad) =>
      HexFirst(groups, quad);
      FullComplete(groups, quad);
    case Elided(left, right, quad) =>
      if left == [] {
        var onward := ":" + TailText(right, quad);
        assert "" + "::" + TailText(right, quad) == ":" + onward;
        assert (":" + onward)[1..] == onward;
        Scan6Elided(left, right, quad);
      } else {
        HexFirst(left, []);
        ElidedComplete(left, right, quad);
      }
  }

  lemma FullComplete(groups: seq<string>, quad: seq<string>)
    requires WellFormed(Full(groups, quad))
    ensures Scan6([], None, "", TailText(groups, quad)) == Some(Denotation(Full(groups, quad)))
  {
    hide Scan6, TailText, TailBytes;
    Scan6Tail([], None, groups, quad);
    assert [] + TailBytes(groups, quad) == TailBytes(groups, quad);
  }

  lemma ElidedComplete(left: seq<string>, right: seq<string>, quad: seq<string>)
    requires WellFormed(Elided(left, right, quad)) && left != []
    ensures Scan6([], None, "", Join(left, ":") + "::" + TailText(right, quad))
            == Some(Denotation(Elided(left, right, quad)))
  {
    hide Scan6, TailText, TailBytes, Join, Terminated, Denotation;
    var onward := ":" + TailText(right, quad);
    Scan6Elided(left, right, quad);
    TerminatedJoin(left);
    Scan6Groups([], None, left, onward);
    assert [] + GroupsBytes(left) == GroupsBytes(left);
    assert Join(left, ":") + "::" + TailText(right, quad) == Join(left, ":") + ":" + onward;
  }

  // A text that begins with a group or an octet begins with a digit.
  lemma HexFirst(groups: seq<string>, quad: seq<string>)
    requires TailOk(groups, quad) && (groups != [] || quad != [])
    ensures TailText(groups, quad) != "" && Hex(TailText(groups, quad)[0])
    ensures quad == [] ==> TailText(groups, quad) == Join(groups, ":")
  {
    assert quad == [] ==> groups + [] == groups;
  }

  // The second colon of "::" and what follows it.
  lemma {:induction false} Scan6Elided(left: seq<string>, right: seq<string>, quad: seq<string>)
    requires WellFormed(Elided(left, right, quad))
    ensures Scan6(GroupsBytes(left), None, "", ":" + TailText(right, quad)) == Some(Denotation(Elided(left, right,
        quad)))
  {
    var tail := TailText(right, quad);
    var out := GroupsBytes(left);
    var all := out + TailBytes(right, quad);
    Scan6Tail(out, Some(|out|), right, quad);
    assert all[..|out|] == out && all[|out|..] == TailBytes(right, quad);
    assert (":" + tail)[1..] == tail;
  }

  lemma {:induction false} Parse6Sound(s: string) returns (a: Address6)
    requires Parse6(s).Some?
    ensures WellFormed(a) && Text(a) == s && Parse6(s) == Some(Denotation(a))
  {
    if s[0] != ':' {
      var b := Scan6Sound([], None, "", s, s);
      a := PlainStart(s, b, Parse6(s));
    } else {
      var b := Scan6Sound([], None, "", s[1..], s[1..]);
      assert s == ":" + s[1..];
      a := ColonStart(s[1..], b, Parse6(s));
    }
  }

  lemma PlainStart(s: string, b: Address6, v: Option<seq<byte>>) returns (a: Address6)
    requires s != "" && s[0] != ':' && v.Some? && Reads(b, [], None, s, v)
    ensures WellFormed(a) && Text(a) == s && v == Some(Denotation(a))
  {
    a := b;
    match b
    case Full(groups, quad) =>
      assert [] + TailBytes(groups, quad) == TailBytes(groups, quad);
    case Elided(left, right, quad) =>
      var tail := TailText(right, quad);
      TerminatedJoin(left);
      assert Join(left, ":") + ":" + ":" + tail == Join(left, ":") + "::" + tail;
      assert [] + GroupsBytes(left) == GroupsBytes(left);
  }

  lemma ColonStart(s: string, b: Address6, v: Option<seq<byte>>) returns (a: Address6)
    requires s != "" && s[0] == ':' && v.Some? && Reads(b, [], None, s, v)
    ensures WellFormed(a) && Text(a) == ":" + s && v == Some(Denotation(a))
  {
    a := b;
    match b
    case Full(groups, quad) =>
      assert false;
    case Elided(left, right, quad) =>
      var tail := TailText(right, quad);
      assert left == [];
      assert "" + "::" + tail == ":" + ("" + ":" + tail);
      assert [] + GroupsBytes(left) == GroupsBytes(left);
  }

  /** The IPv6 parser accepts exactly the text forms of section 2.2 of RFC 4291, and
      yields the bytes the form denotes. */
  lemma {:induction false} Parse6IsGrammar(s: string, v: seq<byte>)
    ensures Parse6(s) == Some(v) <==> exists a :: WellFormed(a) && Text(a) == s && Denotation(a) == v
  {
    if Parse6(s) == Some(v) {
      var a := Parse6Sound(s);
    }
    forall a | WellFormed(a) && Text(a) == s
      ensures Parse6(s) == Some(Denotation(a))
    {
      Parse6Complete(a);
    }
  }

  // No text is both kinds of address, so the order AF_UNSPEC tries them in is immaterial.
  lemma {:induction false} FamiliesDisjoint(s: string)
    ensures !(Parse4(s).Some? && Parse6(s).Some?)
  {
    if Parse4(s).Some? && Parse6(s).Some? {
      Parse4IsGrammar(s, Parse4(s).value);
      var parts :| DottedQuad(s, parts);
      Scan6Quad([], None, parts);
    }
  }

  // ---------- The loops ----------

  // inet_pton4 on src[start..], writing at dst[at..at + 4].
  method InetPton4(src: string, start: nat, dst: array<byte>, at: nat) returns (ok: bool)
    requires start <= |src| && at + 4 <= dst.Length
    modifies dst
    ensures ok == Parse4(src[start..]).Some?
    ensures dst[..] == if ok then old(dst[..at]) + Parse4(src[start..]).value + old(dst[at + 4..]) else old(dst[..])
  {
    var sawDigit, octets, tp := 0, 0, 0;
    var tmp := new byte[4];
    tmp[0] := 0;
    var i := start;
    while i < |src|
      invariant start <= i <= |src| && 0 <= tp <= 3 && 0 <= sawDigit
      invariant octets == tp + if sawDigit > 0 then 1 else 0
      invariant Scan4(tmp[..tp], tmp[tp], sawDigit, src[i..]) == Parse4(src[start..])
      invariant fresh(tmp) && dst[..] == old(dst[..])
    {
      var ch := src[i];
      assert src[i..][1..] == src[i + 1..];
      i := i + 1;
      if '0' <= ch <= '9' {
        var next := tmp[tp] * 10 + (ch as int - '0' as int);
        if sawDigit > 3 {
          return false;
        }
        if next > 255 {
          return false;
        }
        ghost var done := tmp[..tp];
        tmp[tp] := next;
        assert tmp[..tp] == done;
        if sawDigit == 0 {
          octets := octets + 1;
          if octets > 4 {
            return false;
          }
        }
        sawDigit := sawDigit + 1;
      } else if ch == '.' && sawDigit > 0 {
        if octets == 4 {
          return false;
        }
        ghost var done := tmp[..tp] + [tmp[tp]];
        tp := tp + 1;
        tmp[tp] := 0;
        assert tmp[..tp] == done;
        sawDigit := 0;
      } else {
        return false;
      }
    }
    if octets < 4 {
      return false;
    }
    assert tmp[..] == tmp[..tp] + [tmp[tp]];
    forall k | 0 <= k < 4 {
      dst[at + k] := tmp[k];
    }
    ok := true;
  }

  // The two stores that put a completed group at tmp[tp..].
  method StoreGroup(tmp: array<byte>, tp: nat, val: nat, ghost token: string)
    requires tp + 2 <= tmp.Length
    requires AllHex(token) && |token| <= 4 && val == Hexadecimal(token)
    modifies tmp
    ensures tmp[..tp + 2] == old(tmp[..tp]) + GroupBytes(token)
  {
    HexadecimalBound(token);
    tmp[tp], tmp[tp + 1] := val / 256, val % 256;
  }

  // Opens "::" in place: the memmove to the end of tmp and the memset of the gap.
  method OpenElision(tmp: array<byte>, tp: nat, first: nat)
    requires tmp.Length == 16 && first <= tp < 16
    modifies tmp
    ensures Some(tmp[..]) == Expand(old(tmp[..tp]), Some(first))
  {
    var n := tp - first;
    forall k | 0 <= k < n {
      tmp[16 - n + k] := tmp[first + k];
    }
    forall k | first <= k < 16 - n {
      tmp[k] := 0;
    }
    ghost var all := old(tmp[..tp]);
    assert tmp[..] == all[..first] + Zeros(16 - |all|) + all[first..];
  }

  lemma DigitAdded(token: string, ch: char)
    requires AllHex(token) && |token| < 4 && Hex(ch)
    ensures AllHex(token + [ch]) && Hexadecimal(token + [ch]) == 16 * Hexadecimal(token) + HexValue(ch) <= 0xffff
  {
    assert (token + [ch])[..|token|] == token;
    HexadecimalBound(token + [ch]);
  }

  // One turn of Scan6.
  lemma Scan6Turn(out: seq<byte>, colon: Option<nat>, token: string, rest: string)
    requires |out| <= 16 && AllHex(token) && |token| <= 4
    requires colon.Some? ==> colon.value <= |out|
    ensures Scan6(out, colon, token, rest) ==
            if rest == "" then Finish6(out, colon, token)
            else if Hex(rest[0]) then if |token| == 4 then None else Scan6(out, colon, token + [rest[0]], rest[1..])
            else if rest[0] == ':' then
              if token == "" then if colon.Some? then None else Scan6(out, Some(|out|), "", rest[1..])
              else if rest[1..] == "" || |out| + 2 > 16 then None
              else Scan6(out + GroupBytes(token), colon, "", rest[1..])
            else if rest[0] == '.' && |out| + 4 <= 16 && Parse4(token + rest).Some? then
              Finish6(out + Parse4(token + rest).value, colon, "")
            else None
  {
  }

  // The scanning loop of inet_pton6, up to the first character it cannot use.
  method ScanLoop6(src: string, start: nat, tmp: array<byte>)
    returns (ok: bool, tp: nat, colonp: Option<nat>, xdigitsSeen: nat, val: nat, ghost token: string)
    requires start <= |src| && tmp.Length == 16
    modifies tmp
    ensures !ok ==> Scan6([], None, "", src[start..]) == None
    ensures ok ==> tp <= 16 && (colonp.Some? ==> colonp.value <= tp)
    ensures ok ==> xdigitsSeen == |token| <= 4 && AllHex(token) && val == Hexadecimal(token)
    ensures ok ==> Finish6(tmp[..tp], colonp, token) == Scan6([], None, "", src[start..])
  {
    hide Scan6, GroupBytes, Parse4, Finish6, Hexadecimal;
    tp, colonp, xdigitsSeen, val := 0, None, 0, 0;
    ok, token := true, "";
    HexadecimalBound("");
    var i, curtok := start, start;
    ghost var result := Scan6([], None, "", src[start..]);
    assert tmp[..tp] == [];
    while i < |src|
      invariant start <= curtok <= i <= |src| && token == src[curtok..i]
      invariant tp <= 16 && (colonp.Some? ==> colonp.value <= tp)
      invariant xdigitsSeen == |token| <= 4 && AllHex(token) && val == Hexadecimal(token)
      invariant Scan6(tmp[..tp], colonp, token, src[i..]) == result
    {
      var ch := src[i];
      var digit := HexValue(ch);
      assert src[i..][0] == ch && src[i..][1..] == src[i + 1..];
      ghost var unread := src[i..];
      Scan6Turn(tmp[..tp], colonp, token, unread);
      i := i + 1;
      if digit >= 0 {
        if xdigitsSeen == 4 {
          return false, tp, colonp, xdigitsSeen, val, token;
        }
        DigitAdded(token, ch);
        token := token + [ch];
        val := 16 * val + digit;
        if val > 0xffff {
          return false, tp, colonp, xdigitsSeen, val, token;
        }
        xdigitsSeen := xdigitsSeen + 1;
      } else if ch == ':' {
        curtok := i;
        if xdigitsSeen == 0 {
          if colonp.Some? {
            return false, tp, colonp, xdigitsSeen, val, token;
          }
          colonp := Some(tp);
          token := src[curtok..i];
        } else {
          if i == |src| || tp + 2 > 16 {
            return false, tp, colonp, xdigitsSeen, val, token;
          }
          StoreGroup(tmp, tp, val, token);
          tp, xdigitsSeen, val, token := tp + 2, 0, 0, src[curtok..i];
        }
      } else {
        assert token + unread == src[curtok..];
        if ch != '.' || tp + 4 > 16 {
          return false, tp, colonp, xdigitsSeen, val, token;
        }
        ghost var out := tmp[..tp];
        var quad := InetPton4(src, curtok, tmp, tp);
        if !quad {
          return false, tp, colonp, xdigitsSeen, val, token;
        }
        assert tmp[..tp + 4] == out + Parse4(src[curtok..]).value;
        return true, tp + 4, colonp, 0, 0, "";
      }
    }
    Scan6Turn(tmp[..tp], colonp, token, src[i..]);
  }

  // inet_pton6
  method InetPton6(src: string, dst: array<byte>) returns (ok: bool)
    requires dst.Length >= 16
    modifies dst
    ensures ok == Parse6(src).Some?
    ensures dst[..] == if ok then Parse6(src).value + old(dst[16..]) else old(dst[..])
  {
    var tmp := new byte[16](_ => 0);
    if src == "" {
      return false;
    }
    var start := 0;
    if src[0] == ':' {
      start := 1;
      if start == |src| || src[start] != ':' {
        return false;
      }
    }
    assert start == 0 ==> src[start..] == src;
    var tp, colonp, xdigitsSeen, val;
    ghost var token;
    ok, tp, colonp, xdigitsSeen, val, token := ScanLoop6(src, start, tmp);
    if !ok {
      return;
    }
    if xdigitsSeen > 0 {
      if tp + 2 > 16 {
        return false;
      }
      StoreGroup(tmp, tp, val, token);
      tp := tp + 2;
    }
    assert Expand(tmp[..tp], colonp) == Parse6(src);
    if colonp.Some? {
      if tp == 16 {
        return false;
      }
      OpenElision(tmp, tp, colonp.value);
      tp := 16;
    }
    assert tp == 16 ==> tmp[..tp] == tmp[..];
    if tp != 16 {
      return false;
    }
    forall k | 0 <= k < 16 {
      dst[k] := tmp[k];
    }
    ok := true;
  }

  const AF_UNSPEC := 0
  const AF_INET := 2
  const AF_INET6 := 26

  /** mobile_inet_pton_length.  A negative or zero result leaves `dst` alone. */
  method InetPtonLength(af: int, src: string, dst: array<byte>) returns (rc: int)
    requires dst.Length >= if af == AF_INET then 4 else if af == AF_INET6 || af == AF_UNSPEC then 16 else 0
    modifies dst
    ensures af == AF_INET ==> rc == if Parse4(src).Some? then 1 else 0
    ensures af == AF_INET6 ==> rc == if Parse6(src).Some? then 1 else 0
    ensures af == AF_UNSPEC ==>
      rc == if Parse4(src).Some? then AF_INET else if Parse6(src).Some? then AF_INET6 else -1
    ensures af != AF_INET && af != AF_INET6 && af != AF_UNSPEC ==> rc == -1
    ensures rc <= 0 ==> dst[..] == old(dst[..])
    ensures rc > 0 && af != AF_INET6 && Parse4(src).Some? ==> dst[..] == Parse4(src).value + old(dst[4..])
    ensures rc > 0 && af != AF_INET && Parse6(src).Some? ==> dst[..] == Parse6(src).value + old(dst[16..])
  {
    FamiliesDisjoint(src);
    assert src[0..] == src;
    var ok: bool;
    if af == AF_INET {
      ok := InetPton4(src, 0, dst, 0);
      return if ok then 1 else 0;
    } else if af == AF_INET6 {
      ok := InetPton6(src, dst);
      return if ok then 1 else 0;
    } else if af == AF_UNSPEC {
      ok := InetPton4(src, 0, dst, 0);
      if ok {
        return AF_INET;
      }
      ok := InetPton6(src, dst);
      if ok {
        return AF_INET6;
      }
    }
    return -1;
  }
}
