/**
  The checks at the top of Generate and the address walk that lists every
  address the generator gives a peer (gen/generator.go:283-313, 386-421).
*/
module Walker {
  import opened Text
  import opened NetLib
  import opened Models

  /** The number of addresses of a network with this prefix length. */
  function BlockSize(prefix: PrefixLen): (r: nat)
    ensures r >= 1
  {
    Pow2(32 - prefix)
  }

  /** The network address: the CIDR's address with its host bits cleared (IPNet.IP). */
  function Base(c: Cidr): nat {
    ModAtMost(c.ip, BlockSize(c.prefix));
    c.ip - c.ip % BlockSize(c.prefix)
  }

  lemma {:induction false} ModAtMost(a: nat, n: nat)
    requires n >= 1
    ensures a % n <= a
  {
  }

  lemma {:induction false} MulMono(a: nat, b: nat, n: nat)
    requires a <= b
    ensures a * n <= b * n
  {
  }

  /** The first address past the network. */
  function End(c: Cidr): nat {
    Base(c) + BlockSize(c.prefix)
  }

  /** q * n <= a < q * n + n says that a / n is q. */
  lemma {:induction false} DivBetween(a: nat, n: nat, q: nat)
    requires n >= 1
    ensures (q * n <= a < q * n + n) <==> a / n == q
  {
    var r := a % n;
    assert a == a / n * n + r;
    if a / n < q {
      assert a / n * n + n <= q * n by {
        assert (a / n + 1) * n <= q * n;
      }
    } else if a / n > q {
      assert q * n + n <= a / n * n by {
        assert (q + 1) * n <= a / n * n;
      }
    }
  }

  /** An aligned block of n addresses fits below n * m when its start does. */
  lemma {:induction false} AlignedBlockBelow(a: nat, n: nat, m: nat)
    requires n >= 1 && a < n * m
    ensures a - a % n + n <= n * m
    ensures a - a % n == a / n * n
  {
    var q := a / n;
    assert a == q * n + a % n;
    assert q < m by {
      if q >= m {
        MulMono(m, q, n);
      }
    }
    MulMono(q + 1, m, n);
  }

  /** A network lies within the IPv4 space and holds its own address. */
  lemma {:induction false} NetworkBounds(c: Cidr)
    ensures Base(c) <= c.ip < End(c) <= IPV4_SPACE
    ensures Base(c) == c.ip / BlockSize(c.prefix) * BlockSize(c.prefix)
  {
    var n := BlockSize(c.prefix);
    assert n * Pow2(c.prefix) == IPV4_SPACE by {
      assert EstimateNetworkSize(c.prefix) == n;
    }
    AlignedBlockBelow(c.ip, n, Pow2(c.prefix));
  }

  /**
    IPNet.Contains for an address given as a number: masking the address with
    the prefix gives the network address, that is, the address lies in the
    block [Base, End). Numbers of 2^32 and above are not IPv4 and lie in no block.
  */
  predicate Contains(c: Cidr, a: nat) {
    Base(c) <= a < End(c)
  }

  /** The block test is the masked comparison: the address and the network agree above the prefix. */
  lemma {:induction false} ContainsMasked(c: Cidr, a: nat)
    ensures Contains(c, a) <==> a < IPV4_SPACE && a / BlockSize(c.prefix) == c.ip / BlockSize(c.prefix)
  {
    NetworkBounds(c);
    DivBetween(a, BlockSize(c.prefix), c.ip / BlockSize(c.prefix));
  }

  /** The 16-byte form of a network's own address is an IPv4 address the network contains. */
  lemma {:induction false} FirstInNetwork(c: Cidr)
    ensures IsV4(Mapped(c.ip)) && V4(Mapped(c.ip)) == c.ip && Contains(c, c.ip)
  {
    MappedV4(c.ip);
    NetworkBounds(c);
  }

  /** The canonical text of a network: the address in dotted form, "/", the prefix length in decimal. */
  function CanonicalText(a: nat, n: nat): string {
    Dotted(a) + "/" + Decimal(n)
  }

  /** IPNet.String: the network address and the prefix length. */
  function CidrText(c: Cidr): string {
    NetworkBounds(c);
    Dotted(Base(c)) + "/" + Decimal(c.prefix)
  }

  /**
    What net.ParseCIDR is known to do with canonical text: it reads the dotted
    address and the decimal prefix length as written. The model takes the
    parser as a parameter; this is the one fact about it the walk's start needs.
  */
  ghost predicate ReadsCanonical(parsers: Parsers) {
    forall a: IPv4, n: PrefixLen :: parsers.parseCidr(CanonicalText(a, n)) == Some(Cidr(a, n))
  }

  /** The inputs Generate has checked: the parsed network and server address. */
  datatype Checked = Checked(cidr: Cidr, server: nat)

  /**
    The input checks of Generate in their order (gen/generator.go:283-313):
    the CIDR must parse, its text must be the text of the network it parses
    to (IPNet.String), the server must parse as an address and lie inside the
    network. The text comparison rules out host bits only for a parser that
    reads canonical text as written (see CheckedAtBase).
  */
  function CheckInput(form: GenerationForm, parsers: Parsers): (r: Result<Checked>)
    ensures r == Fail(CidrUnparsable) <==> parsers.parseCidr(form.cidr) == None
    ensures r == Fail(CidrMisaligned) <==>
      parsers.parseCidr(form.cidr).Some? && CidrText(parsers.parseCidr(form.cidr).value) != form.cidr
    ensures r == Fail(ServerNotAnIP) <==>
      parsers.parseCidr(form.cidr).Some? && CidrText(parsers.parseCidr(form.cidr).value) == form.cidr
      && parsers.parseIP(form.server) == None
    ensures r.Ok? <==>
      && parsers.parseCidr(form.cidr).Some? && CidrText(parsers.parseCidr(form.cidr).value) == form.cidr
      && parsers.parseIP(form.server).Some?
      && Contains(parsers.parseCidr(form.cidr).value, parsers.parseIP(form.server).value)
    ensures r.Ok? ==> r.value == Checked(parsers.parseCidr(form.cidr).value, parsers.parseIP(form.server).value)
    ensures r.Fail? ==> r.error in {CidrUnparsable, CidrMisaligned, ServerNotAnIP, ServerOutsideCidr}
  {
    match parsers.parseCidr(form.cidr)
    case None => Fail(CidrUnparsable)
    case Some(c) =>
      if CidrText(c) != form.cidr then Fail(CidrMisaligned)
      else
        match parsers.parseIP(form.server)
        case None => Fail(ServerNotAnIP)
        case Some(server) =>
          if !Contains(c, server) then Fail(ServerOutsideCidr)
          else Ok(Checked(c, server))
  }

  /** An address the generator hands out: its last octet is neither 0 nor 255. */
  predicate Usable(a: nat) {
    a % 256 != 0 && a % 256 != 255
  }

  /** The usable addresses of [lo, hi), in increasing order. */
  function Kept(lo: nat, hi: nat): seq<nat>
    decreases hi
  {
    if hi <= lo then []
    else Kept(lo, hi - 1) + (if Usable(hi - 1) then [hi - 1] else [])
  }

  /** An address is kept exactly when it is usable and within the range. */
  lemma {:induction false} KeptMembers(lo: nat, hi: nat)
    ensures forall a :: a in Kept(lo, hi) <==> lo <= a < hi && Usable(a)
    decreases hi
  {
    if hi > lo {
      KeptMembers(lo, hi - 1);
    }
  }

  /**
    For a parser that reads canonical text as written, an input that passes the
    checks names its network by the network address itself, so the walk from
    the parsed address runs over exactly the usable addresses of the network.
  */
  lemma {:induction false} CheckedAtBase(form: GenerationForm, parsers: Parsers)
    requires ReadsCanonical(parsers) && CheckInput(form, parsers).Ok?
    ensures CheckInput(form, parsers).value.cidr.ip == Base(CheckInput(form, parsers).value.cidr)
    ensures forall a ::
              a in Kept(CheckInput(form, parsers).value.cidr.ip, End(CheckInput(form, parsers).value.cidr))
              <==> Contains(CheckInput(form, parsers).value.cidr, a) && Usable(a)
  {
    var c := CheckInput(form, parsers).value.cidr;
    NetworkBounds(c);
    var b: IPv4 := Base(c);
    assert parsers.parseCidr(CanonicalText(b, c.prefix)) == Some(Cidr(b, c.prefix));
    KeptMembers(c.ip, End(c));
  }

  /** The kept addresses come out strictly increasing. */
  lemma {:induction false} KeptIncreasing(lo: nat, hi: nat)
    ensures forall i, j :: 0 <= i < j < |Kept(lo, hi)| ==> Kept(lo, hi)[i] < Kept(lo, hi)[j]
    decreases hi
  {
    if hi > lo {
      KeptIncreasing(lo, hi - 1);
      KeptMembers(lo, hi - 1);
      var k := Kept(lo, hi - 1);
      forall i | 0 <= i < |k| ensures k[i] < hi - 1 {
        assert k[i] in k;
      }
    }
  }

  /** There are no more kept addresses than addresses in the range. */
  lemma {:induction false} KeptLength(lo: nat, hi: nat)
    ensures |Kept(lo, hi)| <= if hi <= lo then 0 else hi - lo
    decreases hi
  {
    if hi > lo {
      KeptLength(lo, hi - 1);
    }
  }

  /** Kept ranges put side by side. */
  lemma {:induction false} KeptSplit(lo: nat, mid: nat, hi: nat)
    requires lo <= mid <= hi
    ensures Kept(lo, hi) == Kept(lo, mid) + Kept(mid, hi)
    decreases hi
  {
    if hi > mid {
      KeptSplit(lo, mid, hi - 1);
    }
  }

  /** (256 q + j) % 256 is j. */
  lemma {:induction false} OctetOf(q: nat, j: nat)
    requires j < 256
    ensures (256 * q + j) % 256 == j
  {
  }

  /** Within one block of 256, all addresses but the first are kept up to k. */
  lemma {:induction false} KeptInBlock(q: nat, k: nat)
    requires 1 <= k <= 255
    ensures |Kept(256 * q, 256 * q + k)| == k - 1
  {
    if k > 1 {
      KeptInBlock(q, k - 1);
      OctetOf(q, k - 1);
    } else {
      OctetOf(q, 0);
      assert Kept(256 * q, 256 * q) == [];
    }
  }

  /** A block of 256 addresses, .0 to .255, yields the 254 addresses .1 to .254. */
  lemma {:induction false} Kept256(q: nat)
    ensures |Kept(256 * q, 256 * q + 256)| == 254
  {
    KeptInBlock(q, 255);
    OctetOf(q, 255);
  }

  /** The walker's record of an address (gen/generator.go:261-268). */
  datatype IPAddress = IPAddress(s: string, ip: nat, isServerIP: bool)

  /** The walker's list is the kept addresses, each with its text and its server flag. */
  predicate WalkedAs(allIPs: seq<IPAddress>, kept: seq<nat>, server: nat) {
    && |allIPs| == |kept|
    && forall k :: 0 <= k < |kept| ==>
         kept[k] < IPV4_SPACE && allIPs[k] == IPAddress(Dotted(kept[k]), kept[k], kept[k] == server)
  }

  /** The walker's list for the kept addresses: each address with its text and its server flag. */
  function Walk(kept: seq<nat>, server: nat): (allIPs: seq<IPAddress>)
    ensures |allIPs| == |kept|
    ensures forall k :: 0 <= k < |kept| ==> allIPs[k].ip == kept[k] && (allIPs[k].isServerIP <==> kept[k] == server)
  {
    if kept == [] then []
    else
      var n := |kept| - 1;
      Walk(kept[..n], server) + [IPAddress(Dotted(kept[n]), kept[n], kept[n] == server)]
  }

  /** Each record of the walk carries the dotted text of its address. */
  lemma {:induction false} WalkText(kept: seq<nat>, server: nat)
    ensures forall k :: 0 <= k < |kept| ==> Walk(kept, server)[k].s == Dotted(kept[k])
  {
    if kept != [] {
      var n := |kept| - 1;
      WalkText(kept[..n], server);
      assert forall k :: 0 <= k < n ==> kept[..n][k] == kept[k];
    }
  }

  /** The walk of IPv4 addresses is a list of the walker's form. */
  lemma {:induction false} WalkWalkedAs(kept: seq<nat>, server: nat)
    requires forall k :: 0 <= k < |kept| ==> kept[k] < IPV4_SPACE
    ensures WalkedAs(Walk(kept, server), kept, server)
  {
    WalkText(kept, server);
  }

  /** Walking one more address appends its record. */
  lemma {:induction false} WalkSnoc(kept: seq<nat>, v: nat, server: nat)
    ensures Walk(kept + [v], server) == Walk(kept, server) + [IPAddress(Dotted(v), v, v == server)]
  {
    assert (kept + [v])[..|kept|] == kept;
  }

  /** The position of x in s, or -1 when x does not occur. */
  function IndexOf(s: seq<nat>, x: nat): (r: int)
    ensures r == -1 <==> x !in s
    ensures r != -1 ==> 0 <= r < |s| && s[r] == x
    ensures forall j :: 0 <= j < r ==> s[j] != x
  {
    if s == [] then -1
    else if s[0] == x then 0
    else
      var r := IndexOf(s[1..], x);
      if r == -1 then -1 else r + 1
  }

  /** The server index is -1 when the server is not kept, and its position otherwise. */
  predicate ServerIndexOf(index: int, kept: seq<nat>, server: nat) {
    || (index == -1 && server !in kept)
    || (0 <= index < |kept| && kept[index] == server)
  }

  /** In a strictly increasing list the walker's server index is the position of the server. */
  lemma {:induction false} ServerIndexIsIndexOf(index: int, kept: seq<nat>, server: nat)
    requires forall i, j :: 0 <= i < j < |kept| ==> kept[i] < kept[j]
    requires ServerIndexOf(index, kept, server)
    ensures index == IndexOf(kept, server)
  {
  }

  /**
    Go's IP.String on a 16-byte address, for the walker's suffix test. An
    address that is not IPv4 prints in colon form, which has no "." and so ends
    in neither ".0" nor ".255"; it stands here as the empty text.
  */
  function IPString(ip: seq<byte>): string {
    if IsV4(ip) then Dotted(V4(ip)) else ""
  }

  /** IPNet.Contains on a 16-byte address. */
  predicate ContainsIP(c: Cidr, ip: seq<byte>) {
    IsV4(ip) && Contains(c, V4(ip))
  }

  /**
    The address walk (gen/generator.go:386-421): from the CIDR's own address,
    step with NextIP; skip every address whose text ends in ".0" or ".255",
    stop at the first other address outside the network, keep the rest in
    order and note the index of the server's address.

    It ends for every prefix length, /0 included: past 255.255.255.255 the
    16-byte form steps to an IPv6 address, which the network does not contain.
  */
  method WalkAddresses(firstIP: array<byte>, c: Cidr, server: nat) returns (allIPs: seq<IPAddress>, serverIPIndex: int)
    requires IsV4(firstIP[..]) && Contains(c, V4(firstIP[..]))
    ensures allIPs == Walk(Kept(V4(firstIP[..]), End(c)), server)
    ensures ServerIndexOf(serverIPIndex, Kept(V4(firstIP[..]), End(c)), server)
    ensures serverIPIndex == IndexOf(Kept(V4(firstIP[..]), End(c)), server)
  {
    ghost var first := V4(firstIP[..]);
    ghost var end := End(c);
    NetworkBounds(c);
    AtStart(firstIP[..]);
    allIPs, serverIPIndex := [], -1;
    var ip := firstIP;
    ghost var v := first;
    while true
      invariant Base(c) <= first <= v <= IPV4_SPACE && At(ip[..], v)
      invariant WalkInv(allIPs, serverIPIndex, first, v, end, server)
      decreases IPV4_SPACE - v
    {
      var bytes := ip[..];
      PositionFacts(c, bytes, v);
      var s := IPString(bytes);
      var skip := HasSuffix(s, ".0") || HasSuffix(s, ".255");
      if !skip && !ContainsIP(c, bytes) {
        StepStop(allIPs, serverIPIndex, first, v, end, server);
        break;
      }
      ghost var before, index := allIPs, serverIPIndex;
      if !skip {
        var isServer := false;
        if V4(bytes) == server {
          isServer := true;
          serverIPIndex := |allIPs|;
        }
        allIPs := allIPs + [IPAddress(s, V4(bytes), isServer)];
      }
      Step(before, index, allIPs, serverIPIndex, first, v, end, server);
      AtStep(bytes, v);
      ip := NextIP(ip);
      v := v + 1;
    }
  }

  /**
    The loop invariant of the walk: the list so far is the kept addresses
    below v. It is stated for the one bound Min(v, end), under a trigger, so
    that the loop checks it as one fact. Logically it is just
    allIPs == Walk(Kept(first, Min(v, end)), server) and
    ServerIndexOf(index, Kept(first, Min(v, end)), server).
  */
  ghost predicate WalkInv(allIPs: seq<IPAddress>, index: int, first: nat, v: nat, end: nat, server: nat) {
    forall n: nat {:trigger Kept(first, n)} :: n == Min(v, end) ==>
      allIPs == Walk(Kept(first, n), server) && ServerIndexOf(index, Kept(first, n), server)
  }

  /** What the walker's tests on the 16-byte form say about the position v. */
  lemma {:induction false} PositionFacts(c: Cidr, ip: seq<byte>, v: nat)
    requires Base(c) <= v <= IPV4_SPACE && At(ip, v)
    ensures IsV4(ip) <==> v < IPV4_SPACE
    ensures IsV4(ip) ==> V4(ip) == v && IPString(ip) == Dotted(v)
    ensures HasSuffix(IPString(ip), ".0") || HasSuffix(IPString(ip), ".255") <==> v < IPV4_SPACE && !Usable(v)
    ensures ContainsIP(c, ip) <==> v < End(c)
    ensures End(c) <= IPV4_SPACE
  {
    NetworkBounds(c);
    if v < IPV4_SPACE {
      DottedSuffix(v);
    } else {
      assert IPString(ip) == "";
    }
  }

  /** One step of the walk: a skipped address leaves the list, a kept one is appended. */
  lemma {:induction false} Step(before: seq<IPAddress>, index: int, after: seq<IPAddress>, index': int,
             first: nat, v: nat, end: nat, server: nat)
    requires first <= v && end <= IPV4_SPACE && (Usable(v) ==> v < end)
    requires WalkInv(before, index, first, v, end, server)
    requires !Usable(v) ==> after == before && index' == index
    requires Usable(v) ==> after == before + [IPAddress(Dotted(v), v, v == server)]
    requires Usable(v) ==> index' == if v == server then |before| else index
    ensures WalkInv(after, index', first, v + 1, end, server)
  {
    if Usable(v) {
      KeptKeep(first, v, end, server, index');
      WalkSnoc(Kept(first, v), v, server);
    } else {
      KeptSkip(first, v, end);
    }
  }

  /** At the first usable address outside the network the list is complete. */
  lemma {:induction false} StepStop(allIPs: seq<IPAddress>, index: int, first: nat, v: nat, end: nat, server: nat)
    requires WalkInv(allIPs, index, first, v, end, server) && first <= end <= v
    ensures allIPs == Walk(Kept(first, end), server)
    ensures ServerIndexOf(index, Kept(first, end), server)
    ensures index == IndexOf(Kept(first, end), server)
  {
    KeptIncreasing(first, end);
    ServerIndexIsIndexOf(index, Kept(first, end), server);
  }

  /** A skipped or out-of-network step leaves the list as it is. */
  lemma {:induction false} KeptSkip(first: nat, v: nat, end: nat)
    requires !Usable(v) || v >= end
    ensures Kept(first, Min(v + 1, end)) == Kept(first, Min(v, end))
  {
  }

  /** A kept step appends the address; the server index follows it. */
  lemma {:induction false} KeptKeep(first: nat, v: nat, end: nat, server: nat, index: int)
    requires first <= v < end <= IPV4_SPACE && Usable(v)
    requires if v == server then index == |Kept(first, v)| else ServerIndexOf(index, Kept(first, v), server)
    ensures Kept(first, Min(v + 1, end)) == Kept(first, v) + [v]
    ensures ServerIndexOf(index, Kept(first, v) + [v], server)
  {
    KeptMembers(first, v);
    var kept := Kept(first, v);
    if v == server {
      assert server !in kept;
    }
  }

  function Min(a: nat, b: nat): nat {
    if a < b then a else b
  }

  /**
    The walk hands out at most as many addresses as EstimateNetworkSize
    counts for the network.
  */
  lemma {:induction false} WalkCount(c: Cidr, first: nat)
    requires Contains(c, first)
    ensures |Kept(first, End(c))| <= EstimateNetworkSize(c.prefix)
  {
    NetworkBounds(c);
    KeptLength(first, End(c));
  }

  /** A /24 yields 254 peer addresses, .1 to .254. */
  lemma {:induction false} SlashTwentyFour(c: Cidr)
    requires c.prefix == 24 && c.ip % 256 == 0
    ensures |Kept(c.ip, End(c))| == 254
  {
    assert BlockSize(24) == 256 by {
      Pow2Add(4, 4);
    }
    var q := c.ip / 256;
    assert Base(c) == c.ip == 256 * q;
    Kept256(q);
  }
}
