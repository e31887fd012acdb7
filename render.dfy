/**
  The renderers of gen/generator.go: a peer's configuration file, the server's
  [Peer] stanza for each peer, and the server's configuration file assembled
  from its interface header and the spool of stanzas, which may be held
  gzip-compressed while the peers are processed.

  The multi-line templates are written as the list of their lines joined by
  newlines, which is the text the template denotes.
*/
module Render {
  import opened Text
  import opened Models

  /** A non-empty Extra goes on lines of its own right after "[Interface]". */
  function ExtraSuffix(extra: string): string {
    if extra != "" then "\n" + extra else ""
  }

  /** The keepalive line: printed with the literal 25 whatever the record's value. */
  function KeepAliveSuffix(persistentKeepAlive: nat): string {
    if persistentKeepAlive > 0 then "\n" + "PersistentKeepAlive = 25" else ""
  }

  /** The server's DNS line, only when it has a DNS server. */
  function DnsSuffix(dns: string): string {
    if dns != "" then "\n" + ("DNS = " + dns) else ""
  }

  /** WgConfig.GenerateConfig (gen/generator.go:164-198): a peer's configuration file. */
  function GenerateConfig(w: WgConfig, server: WgConfig): string {
    JoinLines(
      ["[Interface]" + ExtraSuffix(w.extra)]
      + PeerBody(w, server)
      + ["AllowedIPs = " + w.allowedIPs + KeepAliveSuffix(w.persistentKeepAlive), ""])
  }

  /** The template's lines from PrivateKey to Endpoint. */
  function PeerBody(w: WgConfig, server: WgConfig): seq<string> {
    ["PrivateKey = " + w.privateKey,
     "Address = " + w.ip + "/32",
     "DNS = " + w.dns,
     "MTU = " + Decimal(w.mtu),
     "",
     "[Peer]",
     "PublicKey = " + server.publicKey,
     "PresharedKey = " + w.preSharedKey,
     "Endpoint = " + w.endpoint + ":" + Decimal(w.endpointPort)]
  }

  predicate SingleLine(s: string) {
    '\n' !in s
  }

  /** The values a peer configuration prints on a line of their own hold no newline. */
  predicate PeerFieldsSingleLine(w: WgConfig, server: WgConfig) {
    && SingleLine(w.privateKey) && SingleLine(w.ip) && SingleLine(w.dns)
    && SingleLine(server.publicKey) && SingleLine(w.preSharedKey)
    && SingleLine(w.endpoint) && SingleLine(w.allowedIPs)
  }

  /**
    The lines of a peer configuration file as a reader of the file sees them:
    the Extra lines only when Extra is set, the Endpoint and AllowedIPs lines
    always, the server's public key in the [Peer] section and a keepalive line
    of fixed text only when a keepalive is set.
  */
  function ConfigLines(w: WgConfig, server: WgConfig): seq<string> {
    ["[Interface]"]
    + (if w.extra != "" then Lines(w.extra) else [])
    + PeerBody(w, server)
    + ["AllowedIPs = " + w.allowedIPs]
    + (if w.persistentKeepAlive > 0 then ["PersistentKeepAlive = 25"] else [])
    + [""]
  }

  lemma {:induction false} SingleLineConcat(a: string, b: string)
    requires SingleLine(a) && SingleLine(b)
    ensures SingleLine(a + b)
  {
  }

  /** A number's digits hold no newline. */
  lemma {:induction false} DecimalSingleLine(n: nat)
    ensures SingleLine(Decimal(n))
  {
    var d := Decimal(n);
    forall i | 0 <= i < |d| ensures d[i] != '\n' {
      assert IsDigit(d[i]);
    }
  }

  /** The labels of the peer template hold no newline. */
  lemma {:induction false} PeerLabelsSingleLine()
    ensures SingleLine("PrivateKey = ") && SingleLine("Address = ") && SingleLine("/32")
    ensures SingleLine("DNS = ") && SingleLine("MTU = ") && SingleLine("[Peer]")
    ensures SingleLine("PublicKey = ") && SingleLine("PresharedKey = ") && SingleLine("Endpoint = ")
    ensures SingleLine(":") && SingleLine("AllowedIPs = ")
  {
  }

  /** With single-line fields, every line of the template body is a single line. */
  lemma {:induction false} PeerBodySingleLines(w: WgConfig, server: WgConfig)
    requires PeerFieldsSingleLine(w, server)
    ensures forall i :: 0 <= i < |PeerBody(w, server)| ==> '\n' !in PeerBody(w, server)[i]
  {
    PeerLabelsSingleLine();
    DecimalSingleLine(w.mtu);
    DecimalSingleLine(w.endpointPort);
    SingleLineConcat("PrivateKey = ", w.privateKey);
    SingleLineConcat("Address = ", w.ip);
    SingleLineConcat("Address = " + w.ip, "/32");
    SingleLineConcat("DNS = ", w.dns);
    SingleLineConcat("MTU = ", Decimal(w.mtu));
    SingleLineConcat("PublicKey = ", server.publicKey);
    SingleLineConcat("PresharedKey = ", w.preSharedKey);
    SingleLineConcat("Endpoint = ", w.endpoint);
    SingleLineConcat("Endpoint = " + w.endpoint, ":");
    SingleLineConcat("Endpoint = " + w.endpoint + ":", Decimal(w.endpointPort));
  }

  /** "[Interface]" followed by the Extra lines. */
  lemma {:induction false} InterfaceLineSplit(extra: string)
    ensures Lines("[Interface]" + ExtraSuffix(extra)) ==
      ["[Interface]"] + (if extra != "" then Lines(extra) else [])
  {
    LinesOfLine("[Interface]");
    if extra != "" {
      assert "[Interface]" + ExtraSuffix(extra) == "[Interface]" + "\n" + extra;
      LinesSplit("[Interface]", extra);
    } else {
      assert "[Interface]" + ExtraSuffix(extra) == "[Interface]";
    }
  }

  /** A single line followed by the keepalive line when there is one. */
  lemma {:induction false} KeepAliveLineSplit(line: string, persistentKeepAlive: nat)
    requires SingleLine(line)
    ensures Lines(line + KeepAliveSuffix(persistentKeepAlive)) ==
      [line] + (if persistentKeepAlive > 0 then ["PersistentKeepAlive = 25"] else [])
  {
    LinesOfLine(line);
    if persistentKeepAlive > 0 {
      assert line + KeepAliveSuffix(persistentKeepAlive) == line + "\n" + "PersistentKeepAlive = 25";
      LinesOfLine("PersistentKeepAlive = 25");
      LinesSplit(line, "PersistentKeepAlive = 25");
    } else {
      assert line + KeepAliveSuffix(persistentKeepAlive) == line;
    }
  }

  /** A peer configuration file consists of exactly the lines ConfigLines lists. */
  lemma {:induction false} GenerateConfigLines(w: WgConfig, server: WgConfig)
    requires PeerFieldsSingleLine(w, server)
    ensures Lines(GenerateConfig(w, server)) == ConfigLines(w, server)
  {
    var first := "[Interface]" + ExtraSuffix(w.extra);
    var body := PeerBody(w, server);
    var allowed := "AllowedIPs = " + w.allowedIPs;
    var last := allowed + KeepAliveSuffix(w.persistentKeepAlive);
    var extra := if w.extra != "" then Lines(w.extra) else [];
    var keepAlive := if w.persistentKeepAlive > 0 then ["PersistentKeepAlive = 25"] else [];
    PeerBodySingleLines(w, server);
    LinesJoin([first] + body + [last, ""]);
    LinesEachFramed(first, body, [last, ""]);
    LinesEachLast(last);
    InterfaceLineSplit(w.extra);
    PeerLabelsSingleLine();
    SingleLineConcat("AllowedIPs = ", w.allowedIPs);
    KeepAliveLineSplit(allowed, w.persistentKeepAlive);
    assert ["[Interface]"] + extra + body + ([allowed] + keepAlive + [""])
        == ["[Interface]"] + extra + body + ([allowed] + keepAlive) + [""];
    assert ["[Interface]"] + extra + body + ([allowed] + keepAlive)
        == ["[Interface]"] + extra + body + [allowed] + keepAlive;
  }

  /** The [Peer] stanza the server's file carries for one peer (gen/generator.go:488-493). */
  function ServerPeer(w: WgConfig): string {
    JoinLines(["[Peer]", "PublicKey = " + w.publicKey, "AllowedIPs = " + w.ip + "/32", "PresharedKey = " + w.preSharedKey, "", ""])
  }

  /** A stanza is its four lines followed by an empty line. */
  lemma {:induction false} ServerPeerLines(w: WgConfig)
    requires SingleLine(w.publicKey) && SingleLine(w.ip) && SingleLine(w.preSharedKey)
    ensures Lines(ServerPeer(w)) ==
      ["[Peer]", "PublicKey = " + w.publicKey, "AllowedIPs = " + w.ip + "/32", "PresharedKey = " + w.preSharedKey, "", ""]
  {
    var ts := ["[Peer]", "PublicKey = " + w.publicKey, "AllowedIPs = " + w.ip + "/32", "PresharedKey = " + w.preSharedKey, "", ""];
    PeerLabelsSingleLine();
    SingleLineConcat("PublicKey = ", w.publicKey);
    SingleLineConcat("AllowedIPs = ", w.ip);
    SingleLineConcat("AllowedIPs = " + w.ip, "/32");
    SingleLineConcat("PresharedKey = ", w.preSharedKey);
    assert forall i :: 0 <= i < |ts| ==> '\n' !in ts[i];
    LinesJoin(ts);
    LinesEachOfLines(ts);
  }

  /**
    The firewall commands of the server's PostUp (-A, append) and PostDown
    (-D, delete) lines: forward traffic in and out of the tunnel interface and
    masquerade it on the outgoing interface.
  */
  function Iptables(op: string, iface: string): string {
    "iptables -" + op + " FORWARD -i %i -j ACCEPT; "
      + "iptables -" + op + " FORWARD -o %i -j ACCEPT; "
      + "iptables -t nat -" + op + " POSTROUTING -o " + iface + " -j MASQUERADE"
  }

  lemma {:induction false} IptablesSingleLine(op: string, iface: string)
    requires SingleLine(op) && SingleLine(iface)
    ensures SingleLine(Iptables(op, iface))
  {
  }

  /**
    The interface header of the server's configuration file (gen/generator.go:225-240):
    the server record's keys, address and DNS, the prefix length of the network,
    and the form's listen port, MTU and outgoing interface.
  */
  function ServerHeader(w: WgConfig, form: GenerationForm, prefix: nat): string {
    JoinLines([
      "[Interface]" + ExtraSuffix(w.extra),
      "PrivateKey = " + w.privateKey,
      "Address = " + w.ip + "/" + Decimal(prefix),
      "ListenPort = " + Decimal(form.endpointPort) + DnsSuffix(w.dns),
      "MTU = " + Decimal(form.mtu),
      "PostUp = " + Iptables("A", form.serverInterface),
      "PostDown = " + Iptables("D", form.serverInterface),
      "",
      ""])
  }

  /** The server's lines for the port and DNS: the DNS line only when it has a DNS server. */
  lemma {:induction false} ListenPortLineSplit(line: string, dns: string)
    requires SingleLine(line) && SingleLine(dns)
    ensures Lines(line + DnsSuffix(dns)) == [line] + (if dns != "" then ["DNS = " + dns] else [])
  {
    LinesOfLine(line);
    if dns != "" {
      assert line + DnsSuffix(dns) == line + "\n" + ("DNS = " + dns);
      SingleLineConcat("DNS = ", dns);
      LinesOfLine("DNS = " + dns);
      LinesSplit(line, "DNS = " + dns);
    } else {
      assert line + DnsSuffix(dns) == line;
    }
  }

  /**
    The server's header consists of these lines: the listen port and MTU are
    the form's, the address carries the network's prefix length, and the DNS
    line appears only when the server record has a DNS server.
  */
  lemma {:induction false} ServerHeaderLines(w: WgConfig, form: GenerationForm, prefix: nat)
    requires SingleLine(w.privateKey) && SingleLine(w.ip) && SingleLine(w.dns) && SingleLine(form.serverInterface)
    ensures Lines(ServerHeader(w, form, prefix)) ==
      ["[Interface]"]
      + (if w.extra != "" then Lines(w.extra) else [])
      + ["PrivateKey = " + w.privateKey, "Address = " + w.ip + "/" + Decimal(prefix)]
      + ["ListenPort = " + Decimal(form.endpointPort)]
      + (if w.dns != "" then ["DNS = " + w.dns] else [])
      + ["MTU = " + Decimal(form.mtu),
         "PostUp = " + Iptables("A", form.serverInterface),
         "PostDown = " + Iptables("D", form.serverInterface),
         "",
         ""]
  {
    ServerHeaderBlocks(w, form, prefix);
    InterfaceLineSplit(w.extra);
    var port := "ListenPort = " + Decimal(form.endpointPort);
    ListenPortLineSplit(port, w.dns);
    var listen := Lines(port + DnsSuffix(w.dns));
    assert Lines("[Interface]" + ExtraSuffix(w.extra)) + ServerAddressLines(w, prefix) + ([port] + listen[1..])
        == Lines("[Interface]" + ExtraSuffix(w.extra)) + ServerAddressLines(w, prefix) + [port] + listen[1..];
  }

  function ServerAddressLines(w: WgConfig, prefix: nat): seq<string> {
    ["PrivateKey = " + w.privateKey, "Address = " + w.ip + "/" + Decimal(prefix)]
  }

  function ServerRuleLines(form: GenerationForm): seq<string> {
    ["MTU = " + Decimal(form.mtu),
     "PostUp = " + Iptables("A", form.serverInterface),
     "PostDown = " + Iptables("D", form.serverInterface),
     "",
     ""]
  }

  /** The header's fixed lines hold no newline. */
  lemma {:induction false} ServerBlocksSingleLine(w: WgConfig, form: GenerationForm, prefix: nat)
    requires SingleLine(w.privateKey) && SingleLine(w.ip) && SingleLine(form.serverInterface)
    ensures forall i :: 0 <= i < |ServerAddressLines(w, prefix)| ==> '\n' !in ServerAddressLines(w, prefix)[i]
    ensures forall i :: 0 <= i < |ServerRuleLines(form)| ==> '\n' !in ServerRuleLines(form)[i]
  {
    PeerLabelsSingleLine();
    DecimalSingleLine(prefix);
    DecimalSingleLine(form.mtu);
    SingleLineConcat("PrivateKey = ", w.privateKey);
    SingleLineConcat("Address = ", w.ip);
    SingleLineConcat("Address = " + w.ip, "/");
    SingleLineConcat("Address = " + w.ip + "/", Decimal(prefix));
    SingleLineConcat("MTU = ", Decimal(form.mtu));
    IptablesSingleLine("A", form.serverInterface);
    IptablesSingleLine("D", form.serverInterface);
    SingleLineConcat("PostUp = ", Iptables("A", form.serverInterface));
    SingleLineConcat("PostDown = ", Iptables("D", form.serverInterface));
  }

  /** The header's lines, before its two free-form lines are split. */
  lemma {:induction false} ServerHeaderBlocks(w: WgConfig, form: GenerationForm, prefix: nat)
    requires SingleLine(w.privateKey) && SingleLine(w.ip) && SingleLine(form.serverInterface)
    ensures Lines(ServerHeader(w, form, prefix)) ==
      Lines("[Interface]" + ExtraSuffix(w.extra)) + ServerAddressLines(w, prefix)
      + Lines("ListenPort = " + Decimal(form.endpointPort) + DnsSuffix(w.dns)) + ServerRuleLines(form)
  {
    var first := "[Interface]" + ExtraSuffix(w.extra);
    var listen := "ListenPort = " + Decimal(form.endpointPort) + DnsSuffix(w.dns);
    var m1, m2 := ServerAddressLines(w, prefix), ServerRuleLines(form);
    ServerBlocksSingleLine(w, form, prefix);
    var ts := [first, m1[0], m1[1], listen, m2[0], m2[1], m2[2], m2[3], m2[4]];
    assert ServerHeader(w, form, prefix) == JoinLines(ts);
    assert ts == [first] + m1 + [listen] + m2;
    LinesOfTwoBlocks(first, m1, listen, m2);
  }

  /** The server's header is the same whatever MTU and port its own record holds. */
  lemma {:induction false} ServerHeaderUsesForm(w: WgConfig, form: GenerationForm, prefix: nat, mtu: UInt16, port: UInt16)
    ensures ServerHeader(w.(mtu := mtu, endpointPort := port), form, prefix) == ServerHeader(w, form, prefix)
  {
  }

  /**
    How the spool is held: each stanza gzip-compressed (GzipString,
    GunzipString) or as it is.
  */
  datatype Codec = Codec(gzip: string -> Option<string>, gunzip: string -> Option<string>)

  /** Decompression undoes compression. */
  ghost predicate RoundTrip(codec: Codec) {
    forall s :: codec.gzip(s).Some? ==> codec.gunzip(codec.gzip(s).value) == Some(s)
  }

  /** A stanza as it goes into the spool. */
  function Spooled(stanza: string, useGzip: bool, codec: Codec): Option<string> {
    if useGzip then codec.gzip(stanza) else Some(stanza)
  }

  /** A spool entry as the server's file receives it. */
  function Unspooled(entry: string, useGzip: bool, codec: Codec): Option<string> {
    if useGzip then codec.gunzip(entry) else Some(entry)
  }

  /** Every stanza spooled in order; None once one fails. */
  function SpoolAll(stanzas: seq<string>, useGzip: bool, codec: Codec): Option<seq<string>> {
    if stanzas == [] then Some([])
    else
      match SpoolAll(stanzas[..|stanzas| - 1], useGzip, codec)
      case None => None
      case Some(es) =>
        match Spooled(stanzas[|stanzas| - 1], useGzip, codec)
        case None => None
        case Some(e) => Some(es + [e])
  }

  /** Every spool entry read back in order; None once one fails. */
  function UnspoolAll(spool: seq<string>, useGzip: bool, codec: Codec): Option<seq<string>> {
    if spool == [] then Some([])
    else
      match UnspoolAll(spool[..|spool| - 1], useGzip, codec)
      case None => None
      case Some(ss) =>
        match Unspooled(spool[|spool| - 1], useGzip, codec)
        case None => None
        case Some(s) => Some(ss + [s])
  }

  /** Once a prefix of the spool fails to read back, the whole spool does. */
  lemma {:induction false} UnspoolAllFails(spool: seq<string>, i: nat, useGzip: bool, codec: Codec)
    requires i <= |spool| && UnspoolAll(spool[..i], useGzip, codec).None?
    ensures UnspoolAll(spool, useGzip, codec).None?
    decreases |spool|
  {
    if i < |spool| {
      var p := spool[..|spool| - 1];
      assert p[..i] == spool[..i];
      UnspoolAllFails(p, i, useGzip, codec);
    } else {
      assert spool[..i] == spool;
    }
  }

  /**
    Without compression the spool reads back as it is; with a codec whose
    decompression undoes its compression, a compressed spool reads back as the
    stanzas that went in. Either way the server receives the same stanzas.
  */
  lemma {:induction false} SpoolRoundTrip(stanzas: seq<string>, useGzip: bool, codec: Codec)
    requires (!useGzip || RoundTrip(codec)) && SpoolAll(stanzas, useGzip, codec).Some?
    ensures UnspoolAll(SpoolAll(stanzas, useGzip, codec).value, useGzip, codec) == Some(stanzas)
  {
    if stanzas != [] {
      var init := stanzas[..|stanzas| - 1];
      var es := SpoolAll(init, useGzip, codec).value;
      var e := Spooled(stanzas[|stanzas| - 1], useGzip, codec).value;
      SpoolRoundTrip(init, useGzip, codec);
      var spool := es + [e];
      assert spool[..|spool| - 1] == es;
      assert Unspooled(e, useGzip, codec) == Some(stanzas[|stanzas| - 1]);
      assert init + [stanzas[|stanzas| - 1]] == stanzas;
    }
  }

  /**
    WgConfig.GenerateServerConfig (gen/generator.go:205-259): the header,
    then every spool entry read back, in spool order. A failing decompression
    ends the program in the source (log.Fatalf); here it is an error result.
    The entries are gathered first and the header put in front of them, which
    yields the same text as writing the header first.
  */
  method GenerateServerConfig(w: WgConfig, form: GenerationForm, prefix: nat, spool: seq<string>, useGzip: bool, codec: Codec)
    returns (err: Option<Error>, config: string)
    ensures err == None <==> UnspoolAll(spool, useGzip, codec).Some?
    ensures err == None ==> config == ServerHeader(w, form, prefix) + Concat(UnspoolAll(spool, useGzip, codec).value)
    ensures err != None ==> err == Some(GunzipFailed)
  {
    var body := "";
    err, config := None, "";
    ghost var read: seq<string> := [];
    var i := 0;
    while i < |spool|
      invariant 0 <= i <= |spool|
      invariant UnspoolAll(spool[..i], useGzip, codec) == Some(read)
      invariant body == Concat(read)
    {
      UnspoolStep(spool, i, useGzip, codec);
      var piece := spool[i];
      if useGzip {
        var s := codec.gunzip(spool[i]);
        if s == None {
          err := Some(GunzipFailed);
          UnspoolAllFails(spool, i + 1, useGzip, codec);
          return;
        }
        piece := s.value;
      }
      ConcatStep(read, piece);
      body := body + piece;
      read := read + [piece];
      i := i + 1;
    }
    assert spool[..i] == spool;
    config := ServerHeader(w, form, prefix) + body;
  }

  /** Reading back one more spool entry. */
  lemma {:induction false} UnspoolStep(spool: seq<string>, i: nat, useGzip: bool, codec: Codec)
    requires i < |spool|
    ensures UnspoolAll(spool[..i + 1], useGzip, codec) ==
      match UnspoolAll(spool[..i], useGzip, codec)
      case None => None
      case Some(ss) =>
        match Unspooled(spool[i], useGzip, codec)
        case None => None
        case Some(s) => Some(ss + [s])
  {
    assert spool[..i + 1][..i] == spool[..i];
  }

  /** Writing one more piece after the pieces so far. */
  lemma {:induction false} ConcatStep(read: seq<string>, piece: string)
    ensures Concat(read) + piece == Concat(read + [piece])
  {
    assert (read + [piece])[..|read|] == read;
  }
}
