/**
  The three passes prepDevice runs over a record (gen/generator.go): the soft
  pass fills empty fields from the form, the forced pass overwrites the fields
  whose Force flag is set, and the key pass draws key material where it is
  missing or a regeneration is asked for; plus the sanity check on the server
  record.

  Each pass is a method that updates a copy of the record field by field, as
  the source does through its pointer, and is proved equal to a function that
  gives the whole resulting record at once.
*/
module Rules {
  import opened Text
  import opened Models

  const ID_TOKEN: string := "${id}"
  const NAME_TOKEN: string := "${name}"

  /** A form template with the record's id and name substituted, in that order. */
  function Expand(template: string, id: nat, name: string): string {
    ReplaceAll(ReplaceAll(template, ID_TOKEN, Decimal(id)), NAME_TOKEN, name)
  }

  /** The name the soft pass gives a record with an empty name. */
  function SoftName(form: GenerationForm, id: nat): string {
    ReplaceAll(form.name, ID_TOKEN, Decimal(id))
  }

  /**
    The record applySoftRules leaves: every empty (or zero) field takes the
    form's value, with the templates of name, description and extra expanded,
    AllowedIPs falling back to the default when the form leaves it empty, MTU
    taking the default rather than the form's value, and DNS left alone on the
    server; every other field is kept.
  */
  function SoftFilled(w: WgConfig, form: GenerationForm): WgConfig {
    var name := if w.name == "" then SoftName(form, w.id) else w.name;
    w.(
      name := name,
      description := if w.description == "" then Expand(form.description, w.id, name) else w.description,
      extra := if w.extra == "" then Expand(form.extra, w.id, name) else w.extra,
      allowedIPs :=
        if w.allowedIPs != "" then w.allowedIPs
        else if form.allowedIPs == "" then DEFAULT_ALLOWED_IPS
        else form.allowedIPs,
      dns := if w.dns == "" && !w.isServer then form.dns else w.dns,
      persistentKeepAlive := if w.persistentKeepAlive == 0 then form.persistentKeepAlive else w.persistentKeepAlive,
      mtu := if w.mtu == 0 then DEFAULT_MTU else w.mtu,
      endpoint := if w.endpoint == "" then form.endpoint else w.endpoint,
      endpointPort := if w.endpointPort == 0 then form.endpointPort else w.endpointPort)
  }

  /**
    applySoftRules (gen/generator.go:18-69). The record is worked on field by
    field in locals and written back once, which is what the source's updates
    through its pointer amount to.
  */
  method ApplySoftRules(w: WgConfig, form: GenerationForm) returns (r: WgConfig)
    ensures r == SoftFilled(w, form)
  {
    var name, description, extra := w.name, w.description, w.extra;
    var allowedIPs, dns, persistentKeepAlive := w.allowedIPs, w.dns, w.persistentKeepAlive;
    var mtu, endpoint, endpointPort := w.mtu, w.endpoint, w.endpointPort;
    if name == "" {
      name := form.name;
      name := ReplaceAll(name, ID_TOKEN, Decimal(w.id));
    }
    if description == "" {
      description := form.description;
      description := ReplaceAll(description, ID_TOKEN, Decimal(w.id));
      description := ReplaceAll(description, NAME_TOKEN, name);
    }
    if extra == "" {
      extra := form.extra;
      extra := ReplaceAll(extra, ID_TOKEN, Decimal(w.id));
      extra := ReplaceAll(extra, NAME_TOKEN, name);
    }
    if allowedIPs == "" {
      if form.allowedIPs == "" {
        allowedIPs := DEFAULT_ALLOWED_IPS;
      } else {
        allowedIPs := form.allowedIPs;
      }
    }
    if dns == "" && !w.isServer {
      dns := form.dns;
    }
    if persistentKeepAlive == 0 {
      persistentKeepAlive := form.persistentKeepAlive;
    }
    if mtu == 0 {
      mtu := DEFAULT_MTU;
    }
    if endpoint == "" {
      endpoint := form.endpoint;
    }
    if endpointPort == 0 {
      endpointPort := form.endpointPort;
    }
    r := w.(name := name, description := description, extra := extra,
            allowedIPs := allowedIPs, dns := dns, persistentKeepAlive := persistentKeepAlive,
            mtu := mtu, endpoint := endpoint, endpointPort := endpointPort);
  }

  /**
    The soft pass only writes empty fields: every non-empty field, and every
    field it never touches, comes out as it went in; AllowedIPs and MTU always
    come out non-empty.
  */
  lemma {:induction false} SoftFilledPreserves(w: WgConfig, form: GenerationForm)
    ensures var r := SoftFilled(w, form);
      && (w.name != "" ==> r.name == w.name)
      && (w.description != "" ==> r.description == w.description)
      && (w.extra != "" ==> r.extra == w.extra)
      && (w.allowedIPs != "" ==> r.allowedIPs == w.allowedIPs)
      && (w.dns != "" || w.isServer ==> r.dns == w.dns)
      && (w.persistentKeepAlive != 0 ==> r.persistentKeepAlive == w.persistentKeepAlive)
      && (w.mtu != 0 ==> r.mtu == w.mtu)
      && (w.endpoint != "" ==> r.endpoint == w.endpoint)
      && (w.endpointPort != 0 ==> r.endpointPort == w.endpointPort)
      && r.id == w.id && r.ip == w.ip && r.isServer == w.isServer && r.config == w.config
      && r.privateKey == w.privateKey && r.publicKey == w.publicKey && r.preSharedKey == w.preSharedKey
      && r.allowedIPs != "" && r.mtu != 0
  {
  }

  /** No character of a decimal number's text occurs in a template token. */
  lemma {:induction false} DecimalDisjointFromToken(n: nat, token: string)
    requires forall i :: 0 <= i < |token| ==> !IsDigit(token[i])
    ensures Disjoint(token, Decimal(n))
  {
    var d := Decimal(n);
    forall i | 0 <= i < |token| ensures token[i] !in d {
      forall j | 0 <= j < |d| ensures d[j] != token[i] {
        assert IsDigit(d[j]);
      }
    }
  }

  /** A name filled in by the soft pass has no "${id}" left in it. */
  lemma {:induction false} SoftNameExpanded(w: WgConfig, form: GenerationForm)
    requires w.name == ""
    ensures !Occurs(SoftFilled(w, form).name, ID_TOKEN)
  {
    DecimalDisjointFromToken(w.id, ID_TOKEN);
    ReplaceAllRemovesPattern(form.name, ID_TOKEN, Decimal(w.id));
  }

  /** A name template without "${id}" is used as it is. */
  lemma {:induction false} SoftNameVerbatim(w: WgConfig, form: GenerationForm)
    requires w.name == "" && !Occurs(form.name, ID_TOKEN)
    ensures SoftFilled(w, form).name == form.name
  {
    ReplaceAllAbsent(form.name, ID_TOKEN, Decimal(w.id));
  }

  /** Running the soft pass twice gives what running it once gives. */
  lemma {:induction false} SoftFilledIdempotent(w: WgConfig, form: GenerationForm)
    ensures SoftFilled(SoftFilled(w, form), form) == SoftFilled(w, form)
  {
  }

  /**
    The record applyForcedRules leaves: each field whose Force flag is set takes
    the form's raw value (no template expansion, no default), DNS only on a
    record that is not the server; every other field is kept.
  */
  function Forced(w: WgConfig, form: GenerationForm): WgConfig {
    w.(
      allowedIPs := if form.forceAllowedIPs then form.allowedIPs else w.allowedIPs,
      persistentKeepAlive := if form.forcePersistentKeepAlive then form.persistentKeepAlive else w.persistentKeepAlive,
      mtu := if form.forceMtu then form.mtu else w.mtu,
      endpoint := if form.forceEndpoint then form.endpoint else w.endpoint,
      endpointPort := if form.forceEndpointPort then form.endpointPort else w.endpointPort,
      dns := if form.forceDns && !w.isServer then form.dns else w.dns,
      name := if form.forceName then form.name else w.name,
      description := if form.forceDescription then form.description else w.description,
      extra := if form.forceExtra then form.extra else w.extra)
  }

  /** applyForcedRules (gen/generator.go:101-143). */
  method ApplyForcedRules(w: WgConfig, form: GenerationForm) returns (r: WgConfig)
    ensures r == Forced(w, form)
  {
    var allowedIPs, persistentKeepAlive, mtu := w.allowedIPs, w.persistentKeepAlive, w.mtu;
    var endpoint, endpointPort, dns := w.endpoint, w.endpointPort, w.dns;
    var name, description, extra := w.name, w.description, w.extra;
    if form.forceAllowedIPs {
      allowedIPs := form.allowedIPs;
    }
    if form.forcePersistentKeepAlive {
      persistentKeepAlive := form.persistentKeepAlive;
    }
    if form.forceMtu {
      mtu := form.mtu;
    }
    if form.forceEndpoint {
      endpoint := form.endpoint;
    }
    if form.forceEndpointPort {
      endpointPort := form.endpointPort;
    }
    if form.forceDns && !w.isServer {
      dns := form.dns;
    }
    if form.forceName {
      name := form.name;
    }
    if form.forceDescription {
      description := form.description;
    }
    if form.forceExtra {
      extra := form.extra;
    }
    r := w.(allowedIPs := allowedIPs, persistentKeepAlive := persistentKeepAlive, mtu := mtu,
            endpoint := endpoint, endpointPort := endpointPort, dns := dns,
            name := name, description := description, extra := extra);
  }

  /**
    The two passes together decide each field by precedence: a forced field is
    the form's raw value, otherwise a non-empty stored value is kept, otherwise
    the soft pass fills it. The server's DNS is never written by either pass.
  */
  lemma {:induction false} MergePrecedence(w: WgConfig, form: GenerationForm)
    ensures var r := Forced(SoftFilled(w, form), form);
      && r.name == (if form.forceName then form.name else if w.name != "" then w.name else SoftName(form, w.id))
      && r.description == (if form.forceDescription then form.description
                           else if w.description != "" then w.description
                           else Expand(form.description, w.id, SoftFilled(w, form).name))
      && r.extra == (if form.forceExtra then form.extra
                     else if w.extra != "" then w.extra
                     else Expand(form.extra, w.id, SoftFilled(w, form).name))
      && r.allowedIPs == (if form.forceAllowedIPs then form.allowedIPs
                          else if w.allowedIPs != "" then w.allowedIPs
                          else if form.allowedIPs != "" then form.allowedIPs
                          else DEFAULT_ALLOWED_IPS)
      && r.persistentKeepAlive == (if form.forcePersistentKeepAlive || w.persistentKeepAlive == 0
                                   then form.persistentKeepAlive else w.persistentKeepAlive)
      && r.mtu == (if form.forceMtu then form.mtu else if w.mtu != 0 then w.mtu else DEFAULT_MTU)
      && r.endpoint == (if form.forceEndpoint || w.endpoint == "" then form.endpoint else w.endpoint)
      && r.endpointPort == (if form.forceEndpointPort || w.endpointPort == 0 then form.endpointPort else w.endpointPort)
      && r.dns == (if w.isServer then w.dns else if form.forceDns || w.dns == "" then form.dns else w.dns)
      && r.id == w.id && r.ip == w.ip && r.isServer == w.isServer && r.config == w.config
      && r.privateKey == w.privateKey && r.publicKey == w.publicKey && r.preSharedKey == w.preSharedKey
  {
  }

  /**
    The randomness the key pass consumes, as the values it would produce in
    order: wgtypes.GeneratePrivateKey and GeneratePreSharedKey each take the
    next value of their stream, and an exhausted stream is a failing random
    source.
  */
  datatype Entropy = Entropy(privateKeys: seq<string>, preSharedKeys: seq<string>)

  predicate NeedsKeyPair(w: WgConfig, regenerate: bool) {
    w.privateKey == "" || w.publicKey == "" || regenerate
  }

  predicate NeedsPreSharedKey(w: WgConfig, regenerate: bool) {
    w.preSharedKey == "" || regenerate
  }

  /**
    How the key pass fails: the private key is drawn first; the pre-shared key
    generator panics when the random source fails.
  */
  function KeyFailure(w: WgConfig, regenerate: bool, src: Entropy): Option<Error> {
    if NeedsKeyPair(w, regenerate) && src.privateKeys == [] then Some(PrivateKeyFailed)
    else if NeedsPreSharedKey(w, regenerate) && src.preSharedKeys == [] then Some(PreSharedKeyFailed)
    else None
  }

  /**
    The record after a successful key pass: a needed key pair is the next
    private key and the public key derived from it, a needed pre-shared key is
    the next one; keys that are present and not to be regenerated are kept.
  */
  function Rekeyed(w: WgConfig, regenerate: bool, src: Entropy, derive: string -> string): WgConfig
    requires KeyFailure(w, regenerate, src) == None
  {
    var pair := NeedsKeyPair(w, regenerate);
    var psk := NeedsPreSharedKey(w, regenerate);
    w.(
      privateKey := if pair then src.privateKeys[0] else w.privateKey,
      publicKey := if pair then derive(src.privateKeys[0]) else w.publicKey,
      preSharedKey := if psk then src.preSharedKeys[0] else w.preSharedKey)
  }

  /** What is left of the random source after the key pass. */
  function Drawn(w: WgConfig, regenerate: bool, src: Entropy): Entropy
    requires KeyFailure(w, regenerate, src) == None
  {
    Entropy(
      if NeedsKeyPair(w, regenerate) then src.privateKeys[1..] else src.privateKeys,
      if NeedsPreSharedKey(w, regenerate) then src.preSharedKeys[1..] else src.preSharedKeys)
  }

  /** wgtypes.GeneratePrivateKey with the random source made explicit. */
  method GeneratePrivateKey(src: Entropy) returns (key: Option<string>, rest: Entropy)
    ensures src.privateKeys == [] ==> key == None && rest == src
    ensures src.privateKeys != [] ==> key == Some(src.privateKeys[0]) && rest == src.(privateKeys := src.privateKeys[1..])
  {
    if src.privateKeys == [] {
      key, rest := None, src;
    } else {
      key, rest := Some(src.privateKeys[0]), src.(privateKeys := src.privateKeys[1..]);
    }
  }

  /** GeneratePreSharedKey with the random source made explicit; None is its panic. */
  method GeneratePreSharedKey(src: Entropy) returns (key: Option<string>, rest: Entropy)
    ensures src.preSharedKeys == [] ==> key == None && rest == src
    ensures src.preSharedKeys != [] ==> key == Some(src.preSharedKeys[0]) && rest == src.(preSharedKeys := src.preSharedKeys[1..])
  {
    if src.preSharedKeys == [] {
      key, rest := None, src;
    } else {
      key, rest := Some(src.preSharedKeys[0]), src.(preSharedKeys := src.preSharedKeys[1..]);
    }
  }

  /**
    applyKeyRules (gen/generator.go:73-96). derive is the public key of a
    private key (privKey.PublicKey().String()).
  */
  method ApplyKeyRules(w: WgConfig, regenerate: bool, src: Entropy, derive: string -> string)
    returns (err: Option<Error>, r: WgConfig, rest: Entropy)
    ensures err == KeyFailure(w, regenerate, src)
    ensures err == None ==> r == Rekeyed(w, regenerate, src, derive) && rest == Drawn(w, regenerate, src)
  {
    r, rest, err := w, src, None;
    if r.privateKey == "" || r.publicKey == "" || regenerate {
      var key;
      key, rest := GeneratePrivateKey(rest);
      if key == None {
        err := Some(PrivateKeyFailed);
        return;
      }
      r := r.(privateKey := key.value);
      r := r.(publicKey := derive(key.value));
    }
    if r.preSharedKey == "" || regenerate {
      var key;
      key, rest := GeneratePreSharedKey(rest);
      if key == None {
        err := Some(PreSharedKeyFailed);
        return;
      }
      r := r.(preSharedKey := key.value);
    }
  }

  /**
    After the key pass every key is present (given a derivation that never
    yields the empty text and a source whose values are non-empty); without a
    regeneration, keys already present are kept; a key that is needed is the
    next draw of its source, and the public key is the one derived from the
    drawn private key; and no other field changes.
  */
  lemma {:induction false} RekeyedKeys(w: WgConfig, regenerate: bool, src: Entropy, derive: string -> string)
    requires KeyFailure(w, regenerate, src) == None
    ensures var r := Rekeyed(w, regenerate, src, derive);
      && (NeedsKeyPair(w, regenerate) ==> r.privateKey == src.privateKeys[0] && r.publicKey == derive(r.privateKey))
      && (NeedsPreSharedKey(w, regenerate) ==> r.preSharedKey == src.preSharedKeys[0])
      && (!regenerate && w.privateKey != "" && w.publicKey != "" ==>
            r.privateKey == w.privateKey && r.publicKey == w.publicKey)
      && (!regenerate && w.preSharedKey != "" ==> r.preSharedKey == w.preSharedKey)
      && r == w.(privateKey := r.privateKey, publicKey := r.publicKey, preSharedKey := r.preSharedKey)
      && ((forall k :: derive(k) != "") && (forall i :: 0 <= i < |src.privateKeys| ==> src.privateKeys[i] != "")
          && (forall i :: 0 <= i < |src.preSharedKeys| ==> src.preSharedKeys[i] != "") ==>
            r.privateKey != "" && r.publicKey != "" && r.preSharedKey != "")
  {
    var r := Rekeyed(w, regenerate, src, derive);
    if NeedsKeyPair(w, regenerate) {
      assert r.privateKey == src.privateKeys[0];
    }
    if NeedsPreSharedKey(w, regenerate) {
      assert r.preSharedKey == src.preSharedKeys[0];
    }
  }

  /** The order of validateServer's checks (gen/generator.go:145-162). */
  function ValidateServer(server: WgConfig): (r: Option<Error>)
    ensures r == None <==> server.id != 0 && server.publicKey != "" && server.privateKey != "" && server.ip != ""
    ensures r == Some(InvalidServerId) <==> server.id == 0
    ensures r == Some(ServerEmptyKeys) <==> server.id != 0 && (server.publicKey == "" || server.privateKey == "")
    ensures r == Some(ServerEmptyIP) <==>
      server.id != 0 && server.publicKey != "" && server.privateKey != "" && server.ip == ""
  {
    if server.id == 0 then Some(InvalidServerId)
    else if server.publicKey == "" || server.privateKey == "" then Some(ServerEmptyKeys)
    else if server.ip == "" then Some(ServerEmptyIP)
    else None
  }
}
