/**
 The persistent settings (config.c): the library's own image at 0x100 of the configuration
 data, the check of the area that games use, and the flag that says the image is out of date.
 */
module Config {
  import opened Bytes

  const CONFIG_SIZE := 0x200
  const GAME_AREA := 0x100
  const INTERNAL_SIZE := 0xC0
  const LIBRARY_OFFSET := 0x100
  const LIBRARY_SIZE := 0x60
  const TOKEN_SIZE := 16
  const UNMETERED := 0x80
  const DEFAULT_P2P_PORT := 1027

  // struct mobile_addr as it lies in memory: what the type does not use keeps its old bytes.
  datatype Record = Record(kind: byte, port: nat, host: seq<byte>)

  // The saved fields of struct mobile_adapter_config.
  datatype Fields = Fields(device: byte, dns1: Record, dns2: Record, port: nat, relay: Record,
                           tokenInit: bool, token: seq<byte>)

  // What the fields say.
  datatype Settings = Settings(device: byte, dns1: Addr, dns2: Addr, port: nat, relay: Addr, token: Option<seq<byte>>)

  predicate FieldsOk(f: Fields) {
    |f.dns1.host| == |f.dns2.host| == |f.relay.host| == |f.token| == 16
  }

  // config_check_addrtype: absent, IPv4 or IPv6
  predicate KindOk(kind: byte) {
    kind <= 2
  }

  predicate KindsOk(f: Fields) {
    KindOk(f.dns1.kind) && KindOk(f.dns2.kind) && KindOk(f.relay.kind)
  }

  function AddrOf(kind: byte, port: nat, host: seq<byte>): Addr
    requires |host| == 16
  {
    if kind == 1 then Addr4(port, host[..4]) else if kind == 2 then Addr6(port, host) else NoAddr
  }

  function RecordAddr(r: Record): Addr
    requires |r.host| == 16
  {
    AddrOf(r.kind, r.port, r.host)
  }

  function Meaning(f: Fields): Settings
    requires FieldsOk(f)
  {
    Settings(f.device, RecordAddr(f.dns1), RecordAddr(f.dns2), f.port, RecordAddr(f.relay),
             if f.tokenInit then Some(f.token) else None)
  }

  // ---------- The image ----------

  lemma SplitPort(n: nat)
    ensures LittleEndian(Low(n), High(n)) == n % 0x1_0000
  {
    var m := n / 256;
    var q, r := m / 256, 256 * (m % 256) + n % 256;
    assert n == 256 * m + n % 256 && m == 256 * q + m % 256;
    Remainder(n, q, r);
  }

  lemma Remainder(n: nat, q: nat, r: nat)
    requires n == 0x1_0000 * q + r && r < 0x1_0000
    ensures n % 0x1_0000 == r
  {
  }

  lemma RemainderOfSum(a: nat, b: nat)
    ensures (a % 0x1_0000 + b % 0x1_0000) % 0x1_0000 == (a + b) % 0x1_0000
  {
  }

  // Byte i of the two at `port` of a saved address, and of the sixteen at `host`.
  function PortByte(r: Record, i: nat): byte {
    if r.kind != 1 && r.kind != 2 then 0 else if i == 0 then Low(r.port) else High(r.port)
  }

  function HostByte(r: Record, i: nat): byte
    requires i < 16 == |r.host|
  {
    if (r.kind == 1 && i < 4) || r.kind == 2 then r.host[i] else 0
  }

  // Byte i of the image, from 5 on.
  function BodyByte(f: Fields, i: nat): byte
    requires FieldsOk(f) && 5 <= i < LIBRARY_SIZE
  {
    if i == 0x05 then f.device
    else if i == 0x06 then f.dns1.kind
    else if i == 0x07 then f.dns2.kind
    else if i == 0x08 then Low(f.port)
    else if i == 0x09 then High(f.port)
    else if i == 0x0a then f.relay.kind
    else if i == 0x0b then if f.tokenInit then 1 else 0
    else if i < 0x1a then 0
    else if i < 0x1c then PortByte(f.dns1, i - 0x1a)
    else if i < 0x1e then PortByte(f.dns2, i - 0x1c)
    else if i < 0x20 then PortByte(f.relay, i - 0x1e)
    else if i < 0x30 then HostByte(f.dns1, i - 0x20)
    else if i < 0x40 then HostByte(f.dns2, i - 0x30)
    else if i < 0x50 then HostByte(f.relay, i - 0x40)
    else if f.tokenInit then f.token[i - 0x50] else 0
  }

  function Body(f: Fields): (s: seq<byte>)
    requires FieldsOk(f)
    ensures |s| == LIBRARY_SIZE - 5
  {
    seq(LIBRARY_SIZE - 5, i requires 0 <= i < LIBRARY_SIZE - 5 => BodyByte(f, i + 5))
  }

  function Checksum(s: seq<byte>): (sum: nat)
    ensures sum < 0x1_0000
  {
    Sum(s) % 0x1_0000
  }

  lemma ChecksumAppend(a: seq<byte>, b: seq<byte>)
    ensures Checksum(a + b) == (Checksum(a) + Checksum(b)) % 0x1_0000
  {
    hide Sum;
    SumAppend(a, b);
    RemainderOfSum(Sum(a), Sum(b));
  }

  lemma ChecksumStep(s: seq<byte>, b: byte)
    ensures Checksum(s + [b]) == (Checksum(s) + Length(b)) % 0x1_0000
  {
    ChecksumAppend(s, [b]);
    assert [b][..0] == [];
    assert Sum([b]) == b;
  }

  /** What config_library_save writes. */
  function Image(f: Fields): (s: seq<byte>)
    requires FieldsOk(f)
    ensures |s| == LIBRARY_SIZE
  {
    var sum := Checksum(Body(f));
    [76, 77, 0, Low(sum), High(sum)] + Body(f)
  }

  lemma ImageIs(s: seq<byte>, f: Fields)
    requires FieldsOk(f) && |s| == LIBRARY_SIZE && s[5..] == Body(f)
    requires s[0] == 76 && s[1] == 77 && s[2] == 0 && s[3] == Low(Checksum(Body(f)))
             && s[4] == High(Checksum(Body(f)))
    ensures s == Image(f)
  {
    hide Body, Checksum, Low, High;
    assert s == s[..5] + s[5..];
  }

  // "LM", 0, and the checksum of the rest.
  predicate HeaderOk(s: seq<byte>)
    requires |s| == LIBRARY_SIZE
  {
    s[0] == 76 && s[1] == 77 && s[2] == 0 && Checksum(s[5..]) == LittleEndian(s[3], s[4])
  }

  predicate Decodes(s: seq<byte>)
    requires |s| == LIBRARY_SIZE
  {
    HeaderOk(s) && KindOk(s[6]) && KindOk(s[7]) && KindOk(s[0x0a])
  }

  /** What an image says, whatever the fields were before. */
  function Decode(s: seq<byte>): Settings
    requires |s| == LIBRARY_SIZE
  {
    Settings(s[5], AddrOf(s[6], LittleEndian(s[0x1a], s[0x1b]), s[0x20..0x30]),
             AddrOf(s[7], LittleEndian(s[0x1c], s[0x1d]), s[0x30..0x40]), LittleEndian(s[8], s[9]),
             AddrOf(s[0x0a], LittleEndian(s[0x1e], s[0x1f]), s[0x40..0x50]),
             if s[0x0b] != 0 then Some(s[0x50..0x60]) else None)
  }

  // Ports are saved in 16 bits.
  function FitAddr(a: Addr): Addr {
    match a
    case NoAddr => NoAddr
    case Addr4(port, host) => Addr4(port % 0x1_0000, host)
    case Addr6(port, host) => Addr6(port % 0x1_0000, host)
  }

  function Fit(s: Settings): Settings {
    s.(dns1 := FitAddr(s.dns1), dns2 := FitAddr(s.dns2), port := s.port % 0x1_0000, relay := FitAddr(s.relay))
  }

  predicate PortFits(a: Addr) {
    a == NoAddr || a.port < 0x1_0000
  }

  predicate Fits(s: Settings) {
    PortFits(s.dns1) && PortFits(s.dns2) && s.port < 0x1_0000 && PortFits(s.relay)
  }

  lemma FitsIsFixed(s: Settings)
    ensures Fit(s) == s <==> Fits(s)
  {
  }

  lemma ImageParts(f: Fields)
    requires FieldsOk(f)
    ensures forall i | 5 <= i < LIBRARY_SIZE :: Image(f)[i] == BodyByte(f, i)
    ensures Image(f)[5..] == Body(f)
  {
  }

  lemma AddrImage(r: Record, lo: byte, hi: byte, host: seq<byte>)
    requires |r.host| == |host| == 16 && lo == PortByte(r, 0) && hi == PortByte(r, 1)
    requires forall i | 0 <= i < 16 :: host[i] == HostByte(r, i)
    ensures AddrOf(r.kind, LittleEndian(lo, hi), host) == FitAddr(RecordAddr(r))
  {
    SplitPort(r.port);
    if r.kind == 1 {
      assert host[..4] == r.host[..4];
    } else if r.kind == 2 {
      assert host == r.host;
    }
  }

  /** The image is always well formed, decodes exactly when every address type is one there
      is, and then says what the fields say, up to the 16 bits of a port. */
  lemma {:induction false} ImageDecodes(f: Fields)
    requires FieldsOk(f)
    ensures HeaderOk(Image(f))
    ensures Decodes(Image(f)) <==> KindsOk(f)
    ensures Decode(Image(f)) == Fit(Meaning(f))
  {
    hide BodyByte, Checksum, PortByte, HostByte, AddrOf, FitAddr, LittleEndian, Low, High;
    var s := Image(f);
    ImageParts(f);
    SplitPort(Checksum(Body(f)));
    BodyRegions(f);
    AddrImage(f.dns1, s[0x1a], s[0x1b], s[0x20..0x30]);
    AddrImage(f.dns2, s[0x1c], s[0x1d], s[0x30..0x40]);
    AddrImage(f.relay, s[0x1e], s[0x1f], s[0x40..0x50]);
    SplitPort(f.port);
    if f.tokenInit {
      assert s[0x50..0x60] == f.token;
    }
  }

  // The body by the offsets of the image.
  lemma BodyRegions(f: Fields)
    requires FieldsOk(f)
    ensures BodyByte(f, 5) == f.device && BodyByte(f, 6) == f.dns1.kind && BodyByte(f, 7) == f.dns2.kind
    ensures BodyByte(f, 8) == Low(f.port) && BodyByte(f, 9) == High(f.port) && BodyByte(f, 0x0a) == f.relay.kind
    ensures BodyByte(f, 0x0b) == if f.tokenInit then 1 else 0
    ensures forall k | 0x0c <= k < 0x1a :: BodyByte(f, k) == 0
    ensures forall k | 0x1a <= k < 0x1c :: BodyByte(f, k) == PortByte(f.dns1, k - 0x1a)
    ensures forall k | 0x1c <= k < 0x1e :: BodyByte(f, k) == PortByte(f.dns2, k - 0x1c)
    ensures forall k | 0x1e <= k < 0x20 :: BodyByte(f, k) == PortByte(f.relay, k - 0x1e)
    ensures forall k | 0x20 <= k < 0x30 :: BodyByte(f, k) == HostByte(f.dns1, k - 0x20)
    ensures forall k | 0x30 <= k < 0x40 :: BodyByte(f, k) == HostByte(f.dns2, k - 0x30)
    ensures forall k | 0x40 <= k < 0x50 :: BodyByte(f, k) == HostByte(f.relay, k - 0x40)
    ensures forall k | 0x50 <= k < 0x60 :: BodyByte(f, k) == if f.tokenInit then f.token[k - 0x50] else 0
  {
  }

  // ---------- Loading ----------

  // config_library_load_host, for a record whose type has been set.
  function LoadHost(r: Record, lo: byte, hi: byte, host: seq<byte>): (g: Record)
    requires |r.host| == |host| == 16
    ensures |g.host| == 16 && g.kind == r.kind
  {
    if r.kind == 1 then Record(r.kind, LittleEndian(lo, hi), host[..4] + r.host[4..])
    else if r.kind == 2 then Record(r.kind, LittleEndian(lo, hi), host)
    else r
  }

  // config_library_load: the simple fields are overwritten before the types are checked.
  function LoadFields(s: seq<byte>, f: Fields): (r: (bool, Fields))
    requires |s| == LIBRARY_SIZE && FieldsOk(f)
    ensures FieldsOk(r.1)
  {
    if !HeaderOk(s) then (false, f)
    else
      var g := f.(device := s[5], dns1 := f.dns1.(kind := s[6]), dns2 := f.dns2.(kind := s[7]),
                  port := LittleEndian(s[8], s[9]), relay := f.relay.(kind := s[0x0a]), tokenInit := s[0x0b] != 0);
      if !KindsOk(g) then (false, g)
      else (true, g.(dns1 := LoadHost(g.dns1, s[0x1a], s[0x1b], s[0x20..0x30]),
                     dns2 := LoadHost(g.dns2, s[0x1c], s[0x1d], s[0x30..0x40]),
                     relay := LoadHost(g.relay, s[0x1e], s[0x1f], s[0x40..0x50]),
                     token := if g.tokenInit then s[0x50..0x60] else g.token))
  }

  lemma LoadHostMeans(r: Record, lo: byte, hi: byte, host: seq<byte>)
    requires |r.host| == |host| == 16
    ensures RecordAddr(LoadHost(r, lo, hi, host)) == AddrOf(r.kind, LittleEndian(lo, hi), host)
  {
    if r.kind == 1 {
      assert (host[..4] + r.host[4..])[..4] == host[..4];
    }
  }

  /** Loading succeeds exactly on what decodes, and then the fields say what the image says,
      whatever they said before; an image without its header and checksum changes nothing. */
  lemma {:induction false} LoadMeans(s: seq<byte>, f: Fields)
    requires |s| == LIBRARY_SIZE && FieldsOk(f)
    ensures var (ok, g) := LoadFields(s, f);
            && (ok <==> Decodes(s))
            && (ok ==> KindsOk(g) && Meaning(g) == Decode(s))
            && (!ok && HeaderOk(s) ==> !KindsOk(g))
            && (!HeaderOk(s) ==> g == f)
  {
    hide HeaderOk;
    LoadHostMeans(f.dns1.(kind := s[6]), s[0x1a], s[0x1b], s[0x20..0x30]);
    LoadHostMeans(f.dns2.(kind := s[7]), s[0x1c], s[0x1d], s[0x30..0x40]);
    LoadHostMeans(f.relay.(kind := s[0x0a]), s[0x1e], s[0x1f], s[0x40..0x50]);
  }

  lemma AddrOfFits(kind: byte, port: nat, host: seq<byte>)
    requires |host| == 16 && port < 0x1_0000
    ensures FitAddr(AddrOf(kind, port, host)) == AddrOf(kind, port, host)
  {
  }

  lemma DecodeFits(s: seq<byte>)
    requires |s| == LIBRARY_SIZE
    ensures Fit(Decode(s)) == Decode(s)
  {
    hide FitAddr, AddrOf, LittleEndian;
    AddrOfFits(s[6], LittleEndian(s[0x1a], s[0x1b]), s[0x20..0x30]);
    AddrOfFits(s[7], LittleEndian(s[0x1c], s[0x1d]), s[0x30..0x40]);
    AddrOfFits(s[0x0a], LittleEndian(s[0x1e], s[0x1f]), s[0x40..0x50]);
  }

  /** Saving and loading again gives back every meaningful field, whatever the fields were in
      between, exactly when the address types are known ones and the ports fit 16 bits. */
  lemma {:induction false} ImageRoundTrip(f: Fields, before: Fields)
    requires FieldsOk(f) && FieldsOk(before)
    ensures var (ok, g) := LoadFields(Image(f), before);
            && (ok <==> KindsOk(f))
            && (ok && Meaning(g) == Meaning(f) <==> KindsOk(f) && Fits(Meaning(f)))
  {
    hide Image, HeaderOk, Meaning, Decode;
    ImageDecodes(f);
    LoadMeans(Image(f), before);
    FitsIsFixed(Meaning(f));
  }

  /** An unknown address type survives a load that refuses it, and is saved again: such an
      image can be loaded neither before nor after. */
  lemma {:induction false} UnknownTypeStays(f: Fields, before: Fields)
    requires FieldsOk(f) && FieldsOk(before) && !KindsOk(f)
    ensures var (ok, g) := LoadFields(Image(f), before);
            !ok && !KindsOk(g) && !Decodes(Image(g))
  {
    ImageDecodes(f);
    ImageParts(f);
    BodyRegions(f);
    ImageDecodes(LoadFields(Image(f), before).1);
  }

  // The game's own part: "MA", and a big-endian checksum at its end.
  predicate InternalOk(s: seq<byte>)
    requires |s| == INTERNAL_SIZE
  {
    s[0] == 77 && s[1] == 65 && Checksum(s[..INTERNAL_SIZE - 2]) == BigEndian(s[INTERNAL_SIZE - 2],
        s[INTERNAL_SIZE - 1])
  }

  // mobile_addr_copy onto a record.
  function Copied(r: Record, a: Addr): (g: Record)
    requires |r.host| == 16
    ensures |g.host| == 16
  {
    match a
    case NoAddr => r.(kind := 0)
    case Addr4(port, host) => if |host| == 4 then Record(1, port, host + r.host[4..]) else r.(kind := 0)
    case Addr6(port, host) => if |host| == 16 then Record(2, port, host) else r.(kind := 0)
  }

  predicate AddrOk(a: Addr) {
    (a.Addr4? ==> |a.host| == 4) && (a.Addr6? ==> |a.host| == 16)
  }

  lemma CopiedMeans(r: Record, a: Addr)
    requires |r.host| == 16 && AddrOk(a)
    ensures RecordAddr(Copied(r, a)) == a && KindOk(Copied(r, a).kind)
  {
    if a.Addr4? {
      assert (a.host + r.host[4..])[..4] == a.host;
    }
  }

  // ---------- The configuration data ----------

  /** The storage callbacks.  Either may fail: a failed read gives anything, a failed write
      leaves anything where it was to go.  `said` is what they have answered. */
  class Storage {
    const data: array<byte>
    ghost var said: seq<bool>

    ghost predicate Valid()
      reads this
    {
      data.Length == CONFIG_SIZE
    }

    constructor (data: array<byte>)
      requires data.Length == CONFIG_SIZE
      ensures this.data == data && Valid()
    {
      this.data := data;
    }

    method Read(buffer: array<byte>, offset: nat) returns (ok: bool)
      requires Valid() && buffer != data && offset + buffer.Length <= CONFIG_SIZE
      modifies this`said, buffer
      ensures said == old(said) + [ok]
      ensures ok ==> buffer[..] == data[offset..offset + buffer.Length]
    {
      ok := *;
      var bytes: seq<byte> := *;
      if ok || |bytes| != buffer.Length {
        bytes := data[offset..offset + buffer.Length];
      }
      forall k | 0 <= k < buffer.Length {
        buffer[k] := bytes[k];
      }
      said := said + [ok];
    }

    method Write(offset: nat, bytes: seq<byte>) returns (ok: bool)
      requires Valid() && offset + |bytes| <= CONFIG_SIZE
      modifies this`said, data
      ensures said == old(said) + [ok]
      ensures ok ==> data[offset..offset + |bytes|] == bytes
      ensures data[..offset] == old(data[..offset])
      ensures data[offset + |bytes|..] == old(data[offset + |bytes|..])
    {
      ok := *;
      var written: seq<byte> := *;
      if ok || |written| != |bytes| {
        written := bytes;
      }
      forall k | offset <= k < offset + |bytes| {
        data[k] := written[k - offset];
      }
      assert ok ==> data[offset..offset + |bytes|] == bytes;
      said := said + [ok];
    }
  }

  // What the two reads of config_internal_verify answer, and what it makes of them.
  predicate VerifyAnswer(s: seq<byte>, ok: bool, heard: seq<bool>)
    requires |s| == INTERNAL_SIZE
  {
    || (heard == [false] && !ok)
    || (heard == [true] && !ok && (s[0] != 77 || s[1] != 65))
    || (heard == [true, false] && !ok && s[0] == 77 && s[1] == 65)
    || (heard == [true, true] && ok == InternalOk(s) && s[0] == 77 && s[1] == 65)
  }

  // The image lies behind the game's area.
  lemma ImageBehind(a: seq<byte>, b: seq<byte>)
    requires |a| == |b| == CONFIG_SIZE && a[INTERNAL_SIZE..] == b[INTERNAL_SIZE..]
    ensures a[LIBRARY_OFFSET..LIBRARY_OFFSET + LIBRARY_SIZE] == b[LIBRARY_OFFSET..LIBRARY_OFFSET + LIBRARY_SIZE]
  {
    SliceBehind(a, INTERNAL_SIZE, LIBRARY_OFFSET, LIBRARY_OFFSET + LIBRARY_SIZE);
    SliceBehind(b, INTERNAL_SIZE, LIBRARY_OFFSET, LIBRARY_OFFSET + LIBRARY_SIZE);
  }

  lemma SliceBehind(a: seq<byte>, from: nat, i: nat, j: nat)
    requires from <= i <= j <= |a|
    ensures a[i..j] == a[from..][i - from..j - from]
  {
  }

  // What the storage answers during a load: to the check of the game area, to clearing it,
  // which is only done if that fails, and to reading the image.
  datatype LoadReport = LoadReport(verified: bool, heard: seq<bool>, first: bool, second: bool, read: bool)

  function LoadSaid(r: LoadReport): seq<bool> {
    r.heard + (if r.verified then [] else [r.first, r.second]) + [r.read]
  }

  // ---------- struct mobile_adapter_config ----------

  // What the user, the game and the library do with the settings.
  datatype Event =
    | Load(start: bool)
    | Save
    | SetDevice(device: byte, unmetered: bool)
    | SetDns(second: bool, addr: Addr)
    | SetPort(port: nat)
    | SetRelay(addr: Addr)
    | SetToken(token: Option<seq<byte>>)
    | GameWrite(offset: nat, bytes: seq<byte>)

  class Adapter {
    var loaded: bool
    var dirty: bool
    var tokenInit: bool
    var device: byte
    var dns1: Record
    var dns2: Record
    var port: nat
    var relay: Record
    var token: seq<byte>
    const storage: Storage
    // The last write of the image has not failed, or it has been loaded since; and whether
    // any has ever failed.
    ghost var intact: bool
    ghost var lost: bool

    ghost function Now(): Fields
      reads this
    {
      Fields(device, dns1, dns2, port, relay, tokenInit, token)
    }

    ghost predicate Valid()
      reads this, storage
    {
      storage.Valid() && FieldsOk(Now()) && (!lost ==> intact)
    }

    ghost function Stored(): (s: seq<byte>)
      reads storage, storage.data
      requires storage.Valid()
      ensures |s| == LIBRARY_SIZE
    {
      storage.data[LIBRARY_OFFSET..LIBRARY_OFFSET + LIBRARY_SIZE]
    }

    // The part of the configuration data that is checked at every load.
    ghost function Internal(): (s: seq<byte>)
      reads storage, storage.data
      requires storage.Valid()
      ensures |s| == INTERNAL_SIZE
    {
      storage.data[..INTERNAL_SIZE]
    }

    /** The dirty flag means what it should: while the settings are clean, and no write of the
        image has failed, it decodes exactly when their address types are known, and then to
        those settings. */
    ghost predicate Coherent()
      reads this, storage, storage.data
    {
      Valid() &&
      (!dirty && intact ==>
         && (Decodes(Stored()) <==> KindsOk(Now()))
         && (KindsOk(Now()) ==> Decode(Stored()) == Fit(Meaning(Now()))))
    }

    // No unknown address type is about, in memory or in the stored image.
    ghost predicate Known()
      reads this, storage, storage.data
      requires storage.Valid()
    {
      KindsOk(Now()) && (HeaderOk(Stored()) ==> Decodes(Stored()))
    }

    // mobile_config_init
    constructor (storage: Storage)
      requires storage.Valid()
      ensures this.storage == storage && Coherent() && !loaded && dirty && !lost && KindsOk(Now())
      ensures Meaning(Now()) == Settings(8, NoAddr, NoAddr, DEFAULT_P2P_PORT, NoAddr, None)
    {
      this.storage := storage;
      loaded, dirty, tokenInit, device, port := false, true, false, 8, DEFAULT_P2P_PORT;
      var none := Record(0, 0, Zeros(16));
      dns1, dns2, relay, token := none, none, none, Zeros(16);
      intact, lost := true, false;
    }

    // checksum, over `n` bytes from `at`
    method Sum16(buffer: array<byte>, at: nat, n: nat) returns (sum: nat)
      requires at + n <= buffer.Length
      ensures sum == Checksum(buffer[at..at + n])
    {
      sum := 0;
      var i := 0;
      assert buffer[at..at] == [] && Checksum([]) == 0;
      hide Checksum;
      while i < n
        invariant 0 <= i <= n && sum == Checksum(buffer[at..at + i])
      {
        ChecksumStep(buffer[at..at + i], buffer[at + i]);
        assert buffer[at..at + i + 1] == buffer[at..at + i] + [buffer[at + i]];
        sum := (sum + Length(buffer[at + i])) % 0x1_0000;
        i := i + 1;
      }
    }

    // config_internal_verify, over the two halves of the area
    method InternalVerify() returns (ok: bool, ghost heard: seq<bool>)
      requires Valid()
      modifies storage`said
      ensures storage.said == old(storage.said) + heard && VerifyAnswer(Internal(), ok, heard)
    {
      hide Checksum, Sum;
      ghost var s := Internal();
      var half := INTERNAL_SIZE / 2;
      var buffer := new byte[half](_ => 0);
      ok := storage.Read(buffer, 0);
      heard := [ok];
      if !ok {
        return;
      }
      assert buffer[0..half] == buffer[..] == s[..half] && buffer[0] == s[0] && buffer[1] == s[1];
      if buffer[0] != 77 || buffer[1] != 65 {
        return false, heard;
      }
      var sum := Sum16(buffer, 0, half);
      ok := storage.Read(buffer, half);
      heard := heard + [ok];
      if !ok {
        return;
      }
      assert buffer[..] == s[half..];
      var more := Sum16(buffer, 0, half - 2);
      assert s[..INTERNAL_SIZE - 2] == s[..half] + buffer[0..half - 2];
      assert buffer[half - 2] == s[INTERNAL_SIZE - 2] && buffer[half - 1] == s[INTERNAL_SIZE - 1];
      ChecksumAppend(s[..half], buffer[0..half - 2]);
      sum := (sum + more) % 0x1_0000;
      ok := sum == BigEndian(buffer[half - 2], buffer[half - 1]);
    }

    // config_internal_clear, which does not ask whether its writes succeed
    method InternalClear() returns (ghost first: bool, ghost second: bool)
      requires Valid()
      modifies storage`said, storage.data
      ensures storage.said == old(storage.said) + [first, second]
      ensures first && second ==> Internal() == Zeros(INTERNAL_SIZE)
      ensures storage.data[INTERNAL_SIZE..] == old(storage.data[INTERNAL_SIZE..])
    {
      var half := INTERNAL_SIZE / 2;
      var done := storage.Write(0, Zeros(half));
      first := done;
      ghost var rest := storage.data[half..];
      assert rest[half..] == old(storage.data[INTERNAL_SIZE..]);
      done := storage.Write(half, Zeros(half));
      second := done;
      assert first && second ==> storage.data[..half] + storage.data[half..half + half] == Zeros(INTERNAL_SIZE);
      assert Internal() == storage.data[..half] + storage.data[half..half + half];
    }

    method VerifyImage(buffer: array<byte>) returns (ok: bool)
      requires buffer.Length == LIBRARY_SIZE
      ensures ok == HeaderOk(buffer[..])
    {
      hide Checksum;
      ghost var s := buffer[..];
      assert buffer[5..5 + (LIBRARY_SIZE - 5)] == s[5..];
      if buffer[0] != 76 || buffer[1] != 77 || buffer[2] != 0 {
        return false;
      }
      var sum := Sum16(buffer, 5, LIBRARY_SIZE - 5);
      ok := sum == LittleEndian(buffer[3], buffer[4]);
    }

    // config_library_load; `read` is what the read answers
    method LibraryLoad() returns (ok: bool, ghost read: bool)
      requires Valid()
      modifies this`tokenInit, this`device, this`dns1, this`dns2, this`port, this`relay, this`token, storage`said
      ensures storage.said == old(storage.said) + [read]
      ensures if read then (ok, Now()) == LoadFields(Stored(), old(Now())) else !ok && Now() == old(Now())
    {
      hide HeaderOk, LoadHost;
      var buffer := new byte[LIBRARY_SIZE](_ => 0);
      var found := storage.Read(buffer, LIBRARY_OFFSET);
      read := found;
      if !found {
        return false, read;
      }
      assert buffer[..] == Stored();
      var verified := VerifyImage(buffer);
      if !verified {
        return false, read;
      }
      device := buffer[0x05];
      dns1 := dns1.(kind := buffer[0x06]);
      dns2 := dns2.(kind := buffer[0x07]);
      port := LittleEndian(buffer[0x08], buffer[0x09]);
      relay := relay.(kind := buffer[0x0a]);
      tokenInit := buffer[0x0b] != 0;
      if !KindOk(dns1.kind) || !KindOk(dns2.kind) || !KindOk(relay.kind) {
        return false, read;
      }
      LoadHosts(buffer[..]);
      return true, read;
    }

    // The end of config_library_load, once the types are known to be valid.
    method LoadHosts(s: seq<byte>)
      requires Valid() && |s| == LIBRARY_SIZE
      modifies this`dns1, this`dns2, this`relay, this`token
      ensures dns1 == LoadHost(old(dns1), s[0x1a], s[0x1b], s[0x20..0x30])
      ensures dns2 == LoadHost(old(dns2), s[0x1c], s[0x1d], s[0x30..0x40])
      ensures relay == LoadHost(old(relay), s[0x1e], s[0x1f], s[0x40..0x50])
      ensures token == if tokenInit then s[0x50..0x60] else old(token)
    {
      hide LoadHost;
      dns1 := LoadHost(dns1, s[0x1a], s[0x1b], s[0x20..0x30]);
      dns2 := LoadHost(dns2, s[0x1c], s[0x1d], s[0x30..0x40]);
      relay := LoadHost(relay, s[0x1e], s[0x1f], s[0x40..0x50]);
      if tokenInit {
        token := s[0x50..0x60];
      }
    }

    // config_library_save_host
    method SaveHost(r: Record, buffer: array<byte>, host: nat, at: nat)
      requires |r.host| == 16 && at + 2 <= host && host + 16 <= buffer.Length
      requires forall k | at <= k < at + 2 || host <= k < host + 16 :: buffer[k] == 0
      modifies buffer
      ensures forall k | at <= k < at + 2 :: buffer[k] == PortByte(r, k - at)
      ensures forall k | host <= k < host + 16 :: buffer[k] == HostByte(r, k - host)
      ensures forall k | 0 <= k < buffer.Length && !(at <= k < at + 2)
               && !(host <= k < host + 16) :: buffer[k] == old(buffer[k])
    {
      if r.kind == 1 || r.kind == 2 {
        buffer[at], buffer[at + 1] := Low(r.port), High(r.port);
        forall k | host <= k < host + if r.kind == 1 then 4 else 16 {
          buffer[k] := r.host[k - host];
        }
      }
    }

    method SaveSimple(buffer: array<byte>)
      requires buffer.Length == LIBRARY_SIZE
      modifies buffer
      ensures buffer[0x05] == device && buffer[0x06] == dns1.kind && buffer[0x07] == dns2.kind
      ensures buffer[0x08] == Low(port) && buffer[0x09] == High(port) && buffer[0x0a] == relay.kind
      ensures buffer[0x0b] == if tokenInit then 1 else 0
      ensures forall k | 0x0c <= k < LIBRARY_SIZE :: buffer[k] == old(buffer[k])
    {
      hide Low, High;
      buffer[0x05], buffer[0x06], buffer[0x07] := device, dns1.kind, dns2.kind;
      buffer[0x08], buffer[0x09], buffer[0x0a] := Low(port), High(port), relay.kind;
      buffer[0x0b] := if tokenInit then 1 else 0;
    }

    // The part of config_library_save before the checksum.
    method SaveBody(buffer: array<byte>)
      requires Valid() && buffer != storage.data && buffer.Length == LIBRARY_SIZE
      requires forall k | 0 <= k < LIBRARY_SIZE :: buffer[k] == 0
      modifies buffer
      ensures buffer[5..] == Body(Now())
    {
      hide PortByte, HostByte, Low, High, BodyByte;
      SaveSimple(buffer);
      SaveHost(dns1, buffer, 0x20, 0x1a);
      SaveHost(dns2, buffer, 0x30, 0x1c);
      SaveHost(relay, buffer, 0x40, 0x1e);
      if tokenInit {
        forall k | 0x50 <= k < 0x60 {
          buffer[k] := token[k - 0x50];
        }
      }
      BodyRegions(Now());
      assert forall k | 5 <= k < LIBRARY_SIZE :: buffer[k] == BodyByte(Now(), k);
    }

    // config_library_save, which does not ask whether its write succeeds
    method LibrarySave() returns (ghost written: bool)
      requires Valid()
      modifies storage`said, storage.data
      ensures storage.said == old(storage.said) + [written]
      ensures written ==> Stored() == Image(Now())
      ensures storage.data[..LIBRARY_OFFSET] == old(storage.data[..LIBRARY_OFFSET])
      ensures storage.data[LIBRARY_OFFSET + LIBRARY_SIZE..] == old(storage.data[LIBRARY_OFFSET + LIBRARY_SIZE..])
    {
      hide BodyByte, Checksum, Body, Image;
      var buffer := new byte[LIBRARY_SIZE](_ => 0);
      SaveBody(buffer);
      buffer[0], buffer[1], buffer[2] := 76, 77, 0;
      assert buffer[5..5 + (LIBRARY_SIZE - 5)] == buffer[5..] == Body(Now());
      var sum := Sum16(buffer, 5, LIBRARY_SIZE - 5);
      buffer[0x03], buffer[0x04] := Low(sum), High(sum);
      ImageIs(buffer[..], Now());
      var ok := storage.Write(LIBRARY_OFFSET, buffer[..]);
      written := ok;
    }

    /** mobile_config_load; `start` is global.start.  A bad or unreadable game area is cleared;
        the settings become those of the image if it can be read and decodes, and are clean
        then. */
    method LoadConfig(start: bool) returns (ghost r: LoadReport)
      requires Coherent()
      modifies this, storage, storage.data
      ensures Coherent() && (old(Known()) && !lost ==> Known())
      ensures Stored() == old(Stored()) && lost == old(lost) && (old(intact) ==> intact)
      ensures if start then Now() == old(Now()) && loaded == old(loaded) && dirty == old(dirty)
                            && storage.said == old(storage.said) && storage.data[..] == old(storage.data[..])
              else
                && storage.said == old(storage.said) + LoadSaid(r)
                && VerifyAnswer(old(Internal()), r.verified, r.heard)
                && loaded && Now() == (if r.read then LoadFields(Stored(), old(Now())).1 else old(Now()))
                && dirty == (old(dirty) && !(r.read && Decodes(Stored())))
                && storage.data[INTERNAL_SIZE..] == old(storage.data[INTERNAL_SIZE..])
                && (r.verified ==> Internal() == old(Internal()))
                && (!r.verified && r.first && r.second ==> Internal() == Zeros(INTERNAL_SIZE))
    {
      hide VerifyAnswer, LoadFields, Decodes;
      r := LoadReport(false, [], false, false, false);
      if start {
        return;
      }
      r := CheckInternal();
      ghost var read;
      read := LoadImage();
      r := r.(read := read);
    }

    // The first half of mobile_config_load: the game's area is checked, or else cleared.
    method CheckInternal() returns (ghost r: LoadReport)
      requires Coherent()
      modifies storage`said, storage.data
      ensures Coherent() && Stored() == old(Stored())
      ensures VerifyAnswer(old(Internal()), r.verified, r.heard)
      ensures storage.said == old(storage.said) + r.heard + if r.verified then [] else [r.first, r.second]
      ensures storage.data[INTERNAL_SIZE..] == old(storage.data[INTERNAL_SIZE..])
      ensures if r.verified then Internal() == old(Internal())
              else r.first && r.second ==> Internal() == Zeros(INTERNAL_SIZE)
    {
      hide VerifyAnswer, Decodes, Decode, Meaning, KindsOk;
      ghost var heard, first, second;
      first, second := false, false;
      var verified;
      verified, heard := InternalVerify();
      if !verified {
        first, second := InternalClear();
      }
      r := LoadReport(verified, heard, first, second, false);
      ImageBehind(storage.data[..], old(storage.data[..]));
    }

    // The second half: the image.
    method LoadImage() returns (ghost read: bool)
      requires Coherent()
      modifies this, storage`said
      ensures Coherent() && (old(Known()) && !lost ==> Known())
      ensures lost == old(lost) && (old(intact) ==> intact) && loaded && storage.said == old(storage.said) + [read]
      ensures Now() == (if read then LoadFields(Stored(), old(Now())).1 else old(Now()))
      ensures dirty == (old(dirty) && !(read && Decodes(Stored())))
    {
      hide LoadFields, HeaderOk, Decode, Meaning;
      LoadMeans(Stored(), Now());
      DecodeFits(Stored());
      var ok;
      ok, read := LibraryLoad();
      if ok {
        dirty, intact := false, true;
      }
      loaded := true;
    }

    /** mobile_config_save: the image is written exactly when it is out of date, and the
        settings are clean afterwards even if that fails. */
    method SaveConfig() returns (ghost written: bool)
      requires Coherent()
      modifies this`dirty, this`intact, this`lost, storage, storage.data
      ensures Coherent() && !dirty && (old(Known()) && !lost ==> Known())
      ensures storage.said == if old(dirty) then old(storage.said) + [written] else old(storage.said)
      ensures written && old(dirty) ==> Stored() == Image(Now())
      ensures if old(dirty) then intact == written && lost == (old(lost) || !written)
              else Stored() == old(Stored()) && intact == old(intact) && lost == old(lost)
      ensures storage.data[..LIBRARY_OFFSET] == old(storage.data[..LIBRARY_OFFSET])
    {
      hide Decode, Decodes, Meaning, Image, KindsOk, HeaderOk;
      written := true;
      if !dirty {
        return;
      }
      written := LibrarySave();
      dirty, intact, lost := false, written, lost || !written;
      ImageDecodes(Now());
    }

    // mobile_config_apply
    method Apply()
      modifies this`dirty, this`loaded
      ensures dirty && loaded
    {
      dirty, loaded := true, true;
    }

    // mobile_config_set_device
    method SetDevice(value: byte, unmetered: bool)
      requires Coherent()
      modifies this`device, this`dirty, this`loaded
      ensures Coherent() && dirty && loaded && (old(Known()) ==> Known())
      ensures Meaning(Now()) == old(Meaning(Now())).(device := if unmetered then SetTop(value) else value)
    {
      device := if unmetered then SetTop(value) else value;
      Apply();
    }

    // mobile_config_get_device
    method GetDevice() returns (value: byte, unmetered: bool)
      ensures device == if unmetered then SetTop(value) else value
      ensures value < UNMETERED && (unmetered <==> device >= UNMETERED)
    {
      value, unmetered := device % 128, device >= 128;
    }

    // mobile_config_set_dns
    method SetDns(addr: Addr, second: bool)
      requires Coherent() && AddrOk(addr)
      modifies this`dns1, this`dns2, this`dirty, this`loaded
      ensures Coherent() && dirty && loaded && (old(Known()) ==> Known())
      ensures Meaning(Now()) == if second then old(Meaning(Now())).(dns2 := addr)
                                else old(Meaning(Now())).(dns1 := addr)
    {
      if second {
        CopiedMeans(dns2, addr);
        dns2 := Copied(dns2, addr);
      } else {
        CopiedMeans(dns1, addr);
        dns1 := Copied(dns1, addr);
      }
      Apply();
    }

    // mobile_config_set_p2p_port, which ignores port 0
    method SetPort(value: nat)
      requires Coherent()
      modifies this`port, this`dirty, this`loaded
      ensures Coherent() && (old(Known()) ==> Known())
      ensures if value == 0 then Now() == old(Now()) && dirty == old(dirty) && loaded == old(loaded)
              else Meaning(Now()) == old(Meaning(Now())).(port := value) && dirty && loaded
    {
      if value == 0 {
        return;
      }
      port := value;
      Apply();
    }

    // mobile_config_set_relay
    method SetRelay(addr: Addr)
      requires Coherent() && AddrOk(addr)
      modifies this`relay, this`dirty, this`loaded
      ensures Coherent() && dirty && loaded && (old(Known()) ==> Known())
      ensures Meaning(Now()) == old(Meaning(Now())).(relay := addr)
    {
      CopiedMeans(relay, addr);
      relay := Copied(relay, addr);
      Apply();
    }

    // mobile_config_set_relay_token_internal
    method SetRelayToken(value: Option<seq<byte>>)
      requires Coherent() && (value.Some? ==> |value.value| == TOKEN_SIZE)
      modifies this`tokenInit, this`token, this`dirty, this`loaded
      ensures Coherent() && dirty && loaded && (old(Known()) ==> Known())
      ensures Meaning(Now()) == old(Meaning(Now())).(token := value)
    {
      tokenInit := value.Some?;
      if value.Some? {
        token := value.value;
      }
      Apply();
    }

    // mobile_config_get_relay_token
    method GetRelayToken() returns (value: Option<seq<byte>>)
      requires Valid()
      ensures value == Meaning(Now()).token
    {
      value := if tokenInit then Some(token) else None;
    }

    // The write of command_eeprom_write: inside the area that games may use.
    method GameWrite(offset: nat, bytes: seq<byte>) returns (ok: bool)
      requires Coherent() && |bytes| <= 0x80 && offset + |bytes| <= GAME_AREA
      modifies storage, storage.data
      ensures Coherent() && (old(Known()) ==> Known()) && Stored() == old(Stored())
      ensures storage.said == old(storage.said) + [ok]
      ensures storage.data[..offset] == old(storage.data[..offset])
      ensures storage.data[offset + |bytes|..] == old(storage.data[offset + |bytes|..])
      ensures ok ==> storage.data[offset..offset + |bytes|] == bytes
    {
      var end := offset + |bytes|;
      ok := storage.Write(offset, bytes);
      assert Stored() == storage.data[end..][LIBRARY_OFFSET - end..][..LIBRARY_SIZE];
      assert old(Stored()) == old(storage.data[end..])[LIBRARY_OFFSET - end..][..LIBRARY_SIZE];
    }

    /** Any run of loads, saves, setters and game writes, with storage that may fail at any
        time: whenever the settings are clean and the last write of the image has not failed,
        it says what they say, provided that their address types are known; and without a
        failed write an unknown address type never comes about unless there was one, in memory
        or in the stored image, to begin with. */
    method Live(events: seq<Event>)
      requires Coherent()
      modifies this, storage, storage.data
      ensures Coherent() && (old(Known()) && !lost ==> Known())
      ensures !dirty && intact && KindsOk(Now()) ==> Decodes(Stored()) && Decode(Stored()) == Fit(Meaning(Now()))
      ensures old(Known()) && !lost && !dirty ==> Decodes(Stored()) && Decode(Stored()) == Fit(Meaning(Now()))
      ensures old(lost) ==> lost
      ensures |events| > 0 && events[|events| - 1] == Save ==> !dirty
    {
      hide KindsOk, HeaderOk, Decodes, Meaning, Decode;
      for i := 0 to |events|
        invariant Coherent() && (old(Known()) && !lost ==> Known()) && (old(lost) ==> lost)
        invariant i > 0 && events[i - 1] == Save ==> !dirty
      {
        match events[i]
        case Load(start) =>
          ghost var report;
          report := LoadConfig(start);
        case Save =>
          ghost var written;
          written := SaveConfig();
        case SetDevice(value, unmetered) => SetDevice(value, unmetered);
        case SetDns(second, addr) =>
          if AddrOk(addr) {
            SetDns(addr, second);
          }
        case SetPort(value) => SetPort(value);
        case SetRelay(addr) =>
          if AddrOk(addr) {
            SetRelay(addr);
          }
        case SetToken(value) =>
          if value.None? || |value.value| == TOKEN_SIZE {
            SetRelayToken(value);
          }
        case GameWrite(offset, bytes) =>
          // anything else is refused by command_eeprom_write
          if |bytes| <= 0x80 && offset + |bytes| <= GAME_AREA {
            var _ := GameWrite(offset, bytes);
          }
      }
    }
  }
}
