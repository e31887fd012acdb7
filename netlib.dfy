/**
  Address arithmetic of pkg/wgnetlib/helpers.go: NextIP, a big-endian increment
  with carry on a copy of a byte slice, and EstimateNetworkSize; together with
  the dotted-decimal text of an IPv4 address (Go's IP.String) and the 16-byte
  IPv4-mapped form in which Go's net.ParseCIDR returns an IPv4 address.
*/
module NetLib {
  import opened Text

  /** Go's byte; wrap-around is written out where the source relies on it. */
  newtype byte = x: int | 0 <= x < 256

  /** Number of IPv4 addresses. */
  const IPV4_SPACE: nat := 0x1_0000_0000

  function Pow2(n: nat): (r: nat)
    ensures r >= 1
  {
    if n == 0 then 1 else 2 * Pow2(n - 1)
  }

  function Pow256(n: nat): (r: nat)
    ensures r >= 1
  {
    if n == 0 then 1 else 256 * Pow256(n - 1)
  }

  lemma {:induction false} Pow2Add(a: nat, b: nat)
    ensures Pow2(a + b) == Pow2(a) * Pow2(b)
  {
    if a > 0 {
      Pow2Add(a - 1, b);
    }
  }

  /** The unsigned number a byte slice denotes when read big-endian. */
  function BigEndian(s: seq<byte>): nat {
    if s == [] then 0 else BigEndian(s[..|s| - 1]) * 256 + s[|s| - 1] as nat
  }

  lemma {:induction false} BigEndianBound(s: seq<byte>)
    ensures BigEndian(s) < Pow256(|s|)
  {
    if s != [] {
      BigEndianBound(s[..|s| - 1]);
    }
  }

  /** The |len|-byte big-endian encoding of n modulo 256^len. */
  function ToBytes(n: nat, len: nat): (s: seq<byte>)
    ensures |s| == len
  {
    if len == 0 then [] else ToBytes(n / 256, len - 1) + [(n % 256) as byte]
  }

  lemma {:induction false} ToBytesValue(n: nat, len: nat)
    requires n < Pow256(len)
    ensures BigEndian(ToBytes(n, len)) == n
  {
    if len > 0 {
      var s := ToBytes(n, len);
      assert s[..len - 1] == ToBytes(n / 256, len - 1);
      ToBytesValue(n / 256, len - 1);
    }
  }

  lemma {:induction false} BigEndianToBytes(s: seq<byte>)
    ensures ToBytes(BigEndian(s), |s|) == s
  {
    if s != [] {
      var t := s[..|s| - 1];
      BigEndianToBytes(t);
      assert BigEndian(s) / 256 == BigEndian(t);
      assert s == t + [s[|s| - 1]];
    }
  }

  /** Encoding hi and lo side by side is encoding hi * 256^k + lo. */
  lemma {:induction false} ToBytesSplit(hi: nat, lo: nat, m: nat, k: nat)
    requires lo < Pow256(k)
    ensures ToBytes(hi * Pow256(k) + lo, m + k) == ToBytes(hi, m) + ToBytes(lo, k)
  {
    if k > 0 {
      var n := hi * Pow256(k) + lo;
      assert n / 256 == hi * Pow256(k - 1) + lo / 256 by {
        assert hi * Pow256(k) == (hi * Pow256(k - 1)) * 256;
      }
      assert n % 256 == lo % 256 by {
        assert hi * Pow256(k) == (hi * Pow256(k - 1)) * 256;
      }
      ToBytesSplit(hi, lo / 256, m, k - 1);
    }
  }

  /**
    The effect of NextIP: add one to the last byte; a byte that wraps from 0xFF
    to 0x00 carries into the byte on its left.
  */
  function Increment(s: seq<byte>): (r: seq<byte>)
    ensures |r| == |s|
  {
    if s == [] then []
    else if s[|s| - 1] == 255 then Increment(s[..|s| - 1]) + [0]
    else s[..|s| - 1] + [s[|s| - 1] + 1]
  }

  /** Kept apart from IncrementValue, where the modulus is nonlinear. */
  lemma {:induction false} ModBelow(x: nat, m: nat)
    requires x < m
    ensures x % m == x
  {
  }

  lemma {:induction false} ModSelf(m: nat)
    requires m > 0
    ensures m % m == 0
  {
  }

  /** Read as a big-endian number, NextIP adds one modulo 256^len. */
  lemma {:induction false} IncrementValue(s: seq<byte>)
    ensures BigEndian(Increment(s)) == (BigEndian(s) + 1) % Pow256(|s|)
  {
    if s != [] {
      var t, x := s[..|s| - 1], s[|s| - 1];
      var b, p := BigEndian(t), Pow256(|t|);
      assert Pow256(|s|) == 256 * p;
      BigEndianBound(t);
      var r := Increment(s);
      if x == 255 {
        assert r[..|r| - 1] == Increment(t);
        IncrementValue(t);
        assert BigEndian(r) == ((b + 1) % p) * 256;
        assert BigEndian(s) + 1 == (b + 1) * 256;
        if b + 1 < p {
          ModBelow(b + 1, p);
          ModBelow((b + 1) * 256, 256 * p);
        } else {
          ModSelf(p);
          ModSelf(256 * p);
        }
      } else {
        assert r[..|r| - 1] == t;
        assert BigEndian(s) == b * 256 + x as nat;
        assert b * 256 + 256 <= 256 * p;
        ModBelow(BigEndian(s) + 1, 256 * p);
      }
    }
  }

  /**
    The carry pattern of NextIP: the 0xFF bytes after position k become 0x00,
    byte k (the first one from the right that is not 0xFF) goes up by one, and
    the bytes before k are unchanged.
  */
  lemma {:induction false} IncrementCarry(s: seq<byte>, k: nat)
    requires k < |s| && s[k] != 255
    requires forall j :: k < j < |s| ==> s[j] == 255
    ensures var r := Increment(s);
      r[..k] == s[..k] && r[k] == s[k] + 1 && forall j :: k < j < |s| ==> r[j] == 0
    decreases |s|
  {
    var r := Increment(s);
    var t := s[..|s| - 1];
    if k < |s| - 1 {
      IncrementCarry(t, k);
      assert r == Increment(t) + [0];
      assert t[..k] == s[..k];
      assert r[..k] == Increment(t)[..k];
    } else {
      assert r == t + [s[k] + 1];
      assert r[..k] == t;
    }
  }

  /** All 0xFF wraps to all zeros. */
  lemma {:induction false} IncrementAllOnes(s: seq<byte>)
    requires forall j :: 0 <= j < |s| ==> s[j] == 255
    ensures forall j :: 0 <= j < |s| ==> Increment(s)[j] == 0
  {
    if s != [] {
      var t := s[..|s| - 1];
      IncrementAllOnes(t);
      assert Increment(s) == Increment(t) + [0];
    }
  }

  /**
    helpers.go NextIP: a new slice of the same length holding ip + 1 with carry;
    ip itself is only read.
  */
  method NextIP(ip: array<byte>) returns (newIP: array<byte>)
    ensures fresh(newIP)
    ensures newIP[..] == Increment(ip[..])
  {
    newIP := new byte[ip.Length];
    forall j | 0 <= j < ip.Length {
      newIP[j] := ip[j];
    }
    ghost var s := ip[..];
    var i := newIP.Length;
    while i > 0
      invariant 0 <= i <= newIP.Length == |s|
      invariant newIP[..i] == s[..i]
      invariant forall j :: i <= j < |s| ==> s[j] == 255 && newIP[j] == 0
    {
      i := i - 1;
      newIP[i] := ((newIP[i] as int + 1) % 256) as byte;
      if newIP[i] > 0 {
        IncrementCarry(s, i);
        assert newIP[..] == Increment(s);
        return;
      }
    }
    IncrementAllOnes(s);
    assert newIP[..] == Increment(s);
  }

  /** helpers.go EstimateNetworkSize for an IPv4 network: 1 << (32 - prefix). */
  function EstimateNetworkSize(prefix: nat): (r: nat)
    requires prefix <= 32
    ensures r * Pow2(prefix) == IPV4_SPACE
  {
    Pow2Add(32 - prefix, prefix);
    Pow2Of32();
    Pow2(32 - prefix)
  }

  lemma {:induction false} Pow2Of32()
    ensures Pow2(32) == IPV4_SPACE
  {
    assert Pow2(8) == 256;
    assert Pow2(16) == 256 * 256 by { Pow2Add(8, 8); }
    assert Pow2(32) == 0x1_0000 * 0x1_0000 by { Pow2Add(16, 16); }
  }

  lemma {:induction false} Pow256Values()
    ensures Pow256(4) == IPV4_SPACE
    ensures Pow256(6) == 0x1_0000_0000_0000
    ensures Pow256(16) == 0x1_0000_0000_0000_0000_0000_0000_0000_0000
  {
    assert Pow256(2) == 0x1_0000;
    assert Pow256(3) == 0x100_0000;
    assert Pow256(4) == 0x1_0000_0000;
    assert Pow256(5) == 0x100_0000_0000;
    assert Pow256(6) == 0x1_0000_0000_0000;
    assert Pow256(7) == 0x100_0000_0000_0000;
    assert Pow256(8) == 0x1_0000_0000_0000_0000;
    assert Pow256(9) == 0x100_0000_0000_0000_0000;
    assert Pow256(10) == 0x1_0000_0000_0000_0000_0000;
    assert Pow256(11) == 0x100_0000_0000_0000_0000_0000;
    assert Pow256(12) == 0x1_0000_0000_0000_0000_0000_0000;
    assert Pow256(13) == 0x100_0000_0000_0000_0000_0000_0000;
    assert Pow256(14) == 0x1_0000_0000_0000_0000_0000_0000_0000;
    assert Pow256(15) == 0x100_0000_0000_0000_0000_0000_0000_0000;
  }

  /**
    ::ffff:0.0.0.0 as a 128-bit number. Go's net.ParseCIDR returns an IPv4
    address in this 16-byte form, so the walker's address v is held as
    ToBytes(IPV4_MAPPED + v, 16).
  */
  const IPV4_MAPPED: nat := 0xFFFF_0000_0000

  function Mapped(v: nat): seq<byte> {
    ToBytes(IPV4_MAPPED + v, 16)
  }

  /**
    Stepping the 16-byte form with NextIP is adding one to v, also from
    255.255.255.255 (v = 2^32 - 1) on.
  */
  lemma {:induction false} MappedStep(v: nat)
    requires v < IPV4_SPACE
    ensures Increment(Mapped(v)) == Mapped(v + 1)
  {
    Pow256Values();
    ToBytesValue(IPV4_MAPPED + v, 16);
    IncrementValue(Mapped(v));
    BigEndianToBytes(Increment(Mapped(v)));
  }

  /**
    Below 2^32 the 16-byte form is ten zero bytes, 0xFF 0xFF and the four bytes
    of v: an IPv4 address. At 2^32, where the walker arrives after
    255.255.255.255, byte 9 is 1 and bytes 10 and 11 are 0: an IPv6 address
    that no IPv4 network contains and whose text has no dotted part.
  */
  lemma {:induction false} MappedForm(v: nat)
    requires v <= IPV4_SPACE
    ensures v < IPV4_SPACE ==> Mapped(v) == ToBytes(0, 10) + [255 as byte, 255 as byte] + ToBytes(v, 4)
    ensures v == IPV4_SPACE ==> Mapped(v)[9] == 1 && Mapped(v)[10] == 0 && Mapped(v)[11] == 0
  {
    if v < IPV4_SPACE {
      MappedFormV4(v);
    } else {
      MappedFormPastV4();
    }
  }

  lemma {:induction false} MappedFormV4(v: nat)
    requires v < IPV4_SPACE
    ensures Mapped(v) == ToBytes(0, 10) + [255 as byte, 255 as byte] + ToBytes(v, 4)
  {
    Pow256Values();
    ToBytesSplit(0xFFFF, v, 12, 4);
    ToBytesSplit(0, 0xFFFF, 10, 2);
    ToBytesTwo(0xFFFF);
  }

  lemma {:induction false} MappedFormPastV4()
    ensures Mapped(IPV4_SPACE)[9] == 1 && Mapped(IPV4_SPACE)[10] == 0 && Mapped(IPV4_SPACE)[11] == 0
  {
    Pow256Values();
    ToBytesSplit(1, 0, 10, 6);
    ToBytesLast(1, 10);
    ToBytesZero(6);
  }

  /** The last byte of a big-endian encoding is the number modulo 256. */
  lemma {:induction false} ToBytesLast(n: nat, len: nat)
    requires len > 0
    ensures ToBytes(n, len)[len - 1] == (n % 256) as byte
  {
  }

  /** Two bytes hold the high and the low byte of a number below 65536. */
  lemma {:induction false} ToBytesTwo(n: nat)
    requires n < 0x1_0000
    ensures ToBytes(n, 2) == [(n / 256) as byte, (n % 256) as byte]
  {
    assert ToBytes(n, 2) == ToBytes(n / 256, 1) + [(n % 256) as byte];
    assert ToBytes(n / 256, 1) == ToBytes(n / 256 / 256, 0) + [(n / 256 % 256) as byte];
  }

  lemma {:induction false} ToBytesZero(len: nat)
    ensures forall j :: 0 <= j < len ==> ToBytes(0, len)[j] == 0
  {
    if len > 0 {
      ToBytesZero(len - 1);
    }
  }

  /**
    net.IP.To4 accepts a 16-byte address: ten zero bytes, then 0xFF 0xFF, then
    the four bytes of the IPv4 address.
  */
  predicate IsV4(s: seq<byte>) {
    |s| == 16 && (forall j :: 0 <= j < 10 ==> s[j] == 0) && s[10] == 255 && s[11] == 255
  }

  /** The IPv4 address of a 16-byte IPv4 form, as a number. */
  function V4(s: seq<byte>): (v: nat)
    requires IsV4(s)
    ensures v < IPV4_SPACE
  {
    BigEndianBound(s[12..]);
    Pow256Values();
    BigEndian(s[12..])
  }

  /** The walker's position is an IPv4 address exactly while it is below 2^32. */
  lemma {:induction false} MappedV4(v: nat)
    requires v <= IPV4_SPACE
    ensures IsV4(Mapped(v)) <==> v < IPV4_SPACE
    ensures v < IPV4_SPACE ==> V4(Mapped(v)) == v
  {
    MappedForm(v);
    Pow256Values();
    if v < IPV4_SPACE {
      var s := Mapped(v);
      ToBytesZero(10);
      assert s[12..] == ToBytes(v, 4);
      ToBytesValue(v, 4);
    }
  }

  /** Every 16-byte IPv4 form is the mapped form of its address. */
  lemma {:induction false} V4Mapped(s: seq<byte>)
    requires IsV4(s)
    ensures s == Mapped(V4(s))
  {
    var v := V4(s);
    Pow256Values();
    MappedForm(v);
    ToBytesZero(10);
    BigEndianToBytes(s[12..]);
    assert s == s[..10] + s[10..12] + s[12..];
    assert s[..10] == ToBytes(0, 10);
  }
  /**
    The walker's position: a 16-byte form that holds the IPv4 address v while
    v is below 2^32, and no IPv4 address once v has reached 2^32.
  */
  predicate At(s: seq<byte>, v: nat) {
    if v < IPV4_SPACE then IsV4(s) && V4(s) == v else v == IPV4_SPACE && !IsV4(s)
  }

  /** The 16-byte form of an IPv4 address is at that address. */
  lemma {:induction false} AtStart(s: seq<byte>)
    requires IsV4(s)
    ensures At(s, V4(s))
  {
  }

  /** NextIP moves the position on by one, also from 255.255.255.255. */
  lemma {:induction false} AtStep(s: seq<byte>, v: nat)
    requires v < IPV4_SPACE && At(s, v)
    ensures At(Increment(s), v + 1)
  {
    V4Mapped(s);
    MappedStep(v);
    MappedV4(v + 1);
  }

  /** Go's IP.String for an IPv4 address: four decimal octets joined by dots. */
  function Dotted(v: nat): string {
    Decimal(v / 0x100_0000) + "." + Decimal(v / 0x1_0000 % 256) + "."
      + Decimal(v / 0x100 % 256) + "." + Decimal(v % 256)
  }

  /**
    The walker's textual test is a test of the last octet: the dotted text ends
    in ".0" exactly when the last octet is 0, and in ".255" exactly when it is 255.
  */
  lemma {:induction false} DottedSuffix(v: nat)
    requires v < IPV4_SPACE
    ensures HasSuffix(Dotted(v), ".0") <==> v % 256 == 0
    ensures HasSuffix(Dotted(v), ".255") <==> v % 256 == 255
  {
    var d := Decimal(v % 256);
    var pre := Decimal(v / 0x100_0000) + "." + Decimal(v / 0x1_0000 % 256) + "."
      + Decimal(v / 0x100 % 256);
    assert Dotted(v) == pre + "." + d;
    DecimalOfOctet(v % 256);
    assert Decimal(0) == "0";
    assert Decimal(255) == "255" by {
      assert Decimal(25) == "25";
    }
    DotSuffix(pre, d, "0");
    DotSuffix(pre, d, "255");
    assert ".0" == "." + "0" && ".255" == "." + "255";
    if d == "0" {
      DecimalInjective(v % 256, 0);
    }
    if d == "255" {
      DecimalInjective(v % 256, 255);
    }
  }

  /** After a dot, a run of digits ends the text in "." + t exactly when it is t. */
  lemma {:induction false} DotSuffix(pre: string, d: string, t: string)
    requires |pre| >= 3 && 1 <= |d| <= 3 && AllDigits(d) && AllDigits(t) && 1 <= |t| <= 3
    ensures HasSuffix(pre + "." + d, "." + t) <==> d == t
  {
    var s := pre + "." + d;
    var n := |s|;
    if |d| > |t| {
      assert s[n - |t| - 1] == d[|d| - |t| - 1];
      assert IsDigit(s[n - |t| - 1]);
      assert s[n - |t| - 1..][0] == s[n - |t| - 1];
    } else if |d| < |t| {
      assert s[n - |d| - 1] == '.';
      assert s[n - |t| - 1..][|t| - |d|] == '.';
      assert ("." + t)[|t| - |d|] == t[|t| - |d| - 1];
    } else {
      assert s[n - |t| - 1..] == "." + d;
      assert ("." + d)[1..] == d && ("." + t)[1..] == t;
    }
  }
}
