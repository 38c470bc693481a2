/** Bytes, options and the few byte-sequence functions shared by the other modules. */
module Bytes {
  type byte = b: int | 0 <= b < 256

  datatype Option<+T> = None | Some(value: T)

  function Zeros(n: nat): (s: seq<byte>)
    ensures |s| == n && forall i | 0 <= i < n :: s[i] == 0
  {
    seq(n, _ => 0)
  }

  // b | 0x80
  function SetTop(b: byte): byte {
    if b < 128 then b + 128 else b
  }

  // b ^ 0x80
  function FlipTop(b: byte): byte {
    if b < 128 then b + 128 else b - 128
  }

  // A byte as a plain number.
  function Length(b: byte): (n: nat)
    ensures n == b
  {
    b
  }

  // The two low bytes of a number.
  function Low(n: nat): byte {
    n % 256
  }

  function High(n: nat): byte {
    n / 256 % 256
  }

  function LittleEndian(lo: byte, hi: byte): (n: nat)
    ensures n < 0x1_0000
  {
    lo + 256 * hi
  }

  function BigEndian(hi: byte, lo: byte): (v: nat)
    ensures v < 0x1_0000
  {
    256 * hi + lo
  }

  // The plain, unbounded sum of the bytes.
  function Sum(s: seq<byte>): (v: nat)
    ensures v <= 255 * |s|
  {
    if s == [] then 0 else Sum(s[..|s| - 1]) + s[|s| - 1]
  }

  lemma {:induction false} SumAppend(a: seq<byte>, b: seq<byte>)
    ensures Sum(a + b) == Sum(a) + Sum(b)
  {
    if b == [] {
      assert a + b == a;
    } else {
      var init := b[..|b| - 1];
      assert (a + b)[..|a + b| - 1] == a + init;
      SumAppend(a, init);
    }
  }

  // The 16-bit big-endian value at `at`.
  function Word(p: seq<byte>, at: nat): nat
    requires at + 2 <= |p|
  {
    BigEndian(p[at], p[at + 1])
  }

  // struct mobile_addr: no address, or a port and 4 or 16 bytes of host.
  datatype Addr = NoAddr | Addr4(port: nat, host: seq<byte>) | Addr6(port: nat, host: seq<byte>)

  // mobile_addr_compare: two absent addresses are not the same address.
  predicate SameAddr(a: Addr, b: Addr) {
    a == b && a != NoAddr
  }
}
