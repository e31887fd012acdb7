/**
  What Configuration.Generate (gen/generator.go:280-628) computes, as a function
  of the configuration it starts from, the two parsers, the random source, the
  key derivation and the gzip codec; and what that outcome is worth: its
  shape, its server, its peer files and the server's file.

  The session state of the source is a slice of records (Peers) and a map of
  records keyed by number (peers). The map is filled with the stored records
  under their 0-based positions and then with the generated ones under their
  1-based ids, and is read back into the slice at keys 1 to its size. A
  missing key reads as the zero record.
*/
module Generation {
  import opened Text
  import opened NetLib
  import opened Models
  import opened Rules
  import opened Render
  import opened Walker

  /** What a run depends on besides the stored records: the form, the gzip switch, the key derivation and the codec. */
  datatype Env = Env(form: GenerationForm, useGzip: bool, derive: string -> string, codec: Codec)

  /** The stored records after the reset (gen/generator.go:330-332) and the flag clearing (gen/generator.go:337-343). */
  function Cleared(stored: seq<WgConfig>, resetAll: bool): (r: seq<WgConfig>)
    ensures |r| == if resetAll then 0 else |stored|
    ensures forall k :: 0 <= k < |r| ==> !r[k].isServer && r[k].(isServer := stored[k].isServer) == stored[k]
  {
    if resetAll then [] else seq(|stored|, i requires 0 <= i < |stored| => stored[i].(isServer := false))
  }

  /** The map the clearing pass builds: each stored record under its 0-based position. */
  function StoredMap(stored: seq<WgConfig>): map<nat, WgConfig> {
    map k: nat | k < |stored| :: stored[k]
  }

  /** A map read as Go reads it: a missing key yields the zero record. */
  function Lookup(m: map<nat, WgConfig>, k: nat): WgConfig {
    if k in m then m[k] else ZERO_CONFIG
  }

  /** The slice rebuilt from the map (gen/generator.go:612-616): keys 1 to the map's size, in order. */
  function Sliced(m: map<nat, WgConfig>): seq<WgConfig> {
    seq(|m|, j requires 0 <= j => Lookup(m, j + 1))
  }

  /** The record prepDevice starts from (gen/generator.go:447-461): the stored record i-1 when there is one, with id, address and server flag set. */
  function Seeded(stored: seq<WgConfig>, i: nat, ip: IPAddress): WgConfig
    requires 1 <= i
  {
    var w := if i <= |stored| then stored[i - 1] else ZERO_CONFIG;
    w.(id := i, ip := ip.s, isServer := ip.isServerIP)
  }

  /** The seeded record after the soft and the forced pass. */
  function Merged(form: GenerationForm, stored: seq<WgConfig>, i: nat, ip: IPAddress): WgConfig
    requires 1 <= i
  {
    Forced(SoftFilled(Seeded(stored, i, ip), form), form)
  }

  /** What prepDevice yields: an error, the record it stores, the spool entry it appends, and the random source left. */
  datatype Prep = Prep(err: Option<Error>, record: WgConfig, entry: Option<string>, rest: Entropy)

  /**
    prepDevice (gen/generator.go:447-515) for record i at address ip: the rule
    passes, then, once the server is known and for a record that is not the
    server, its configuration file and its spooled stanza.
  */
  function Prepped(env: Env, stored: seq<WgConfig>, i: nat, ip: IPAddress, server: Option<WgConfig>, src: Entropy): Prep
    requires 1 <= i
  {
    var w := Merged(env.form, stored, i, ip);
    var regenerate := env.form.regenerateKeys;
    match KeyFailure(w, regenerate, src)
    case Some(e) => Prep(Some(e), w, None, src)
    case None =>
      var keyed := Rekeyed(w, regenerate, src, env.derive);
      var rest := Drawn(w, regenerate, src);
      if server.Some? && !keyed.isServer then
        var record := keyed.(config := GenerateConfig(keyed, server.value));
        match Spooled(ServerPeer(record), env.useGzip, env.codec)
        case None => Prep(Some(GzipFailed), record, None, rest)
        case Some(entry) => Prep(None, record, Some(entry), rest)
      else Prep(None, keyed, None, rest)
  }

  /** A record that came out of the key pass on w: only its keys and its configuration file differ from w. */
  predicate KeyedFrom(r: WgConfig, w: WgConfig, regenerate: bool, derive: string -> string) {
    && r.(privateKey := w.privateKey, publicKey := w.publicKey, preSharedKey := w.preSharedKey, config := w.config) == w
    && (NeedsKeyPair(w, regenerate) ==> r.publicKey == derive(r.privateKey))
    && (!NeedsKeyPair(w, regenerate) ==> r.privateKey == w.privateKey && r.publicKey == w.publicKey)
    && (!NeedsPreSharedKey(w, regenerate) ==> r.preSharedKey == w.preSharedKey)
  }

  /**
    A successful prepDevice stores the merged record with its keys drawn; a
    peer prepared after the server also gets its configuration file, rendered
    against the server, and spools its stanza; the server's own record, or
    any record prepared before the server is known, keeps its old file and
    spools nothing.
  */
  lemma {:induction false} PreppedRecord(env: Env, stored: seq<WgConfig>, i: nat, ip: IPAddress, server: Option<WgConfig>, src: Entropy)
    requires 1 <= i && Prepped(env, stored, i, ip, server, src).err == None
    ensures var p := Prepped(env, stored, i, ip, server, src);
      var w := Merged(env.form, stored, i, ip);
      && KeyFailure(w, env.form.regenerateKeys, src) == None
      && KeyedFrom(p.record, w, env.form.regenerateKeys, env.derive)
      && p.rest == Drawn(w, env.form.regenerateKeys, src)
      && p.record.id == i && p.record.ip == ip.s && p.record.isServer == ip.isServerIP
      && (server.Some? && !ip.isServerIP ==>
            && p.record.config == GenerateConfig(p.record, server.value)
            && p.entry.Some? && p.entry == Spooled(ServerPeer(p.record), env.useGzip, env.codec))
      && (server.None? || ip.isServerIP ==> p.record.config == w.config && p.entry == None)
  {
    var w := Merged(env.form, stored, i, ip);
    var regenerate := env.form.regenerateKeys;
    MergedFields(env.form, stored, i, ip);
    var keyed := Rekeyed(w, regenerate, src, env.derive);
    RekeyedFrom(w, regenerate, src, env.derive);
    if server.Some? && !ip.isServerIP {
      var record := keyed.(config := GenerateConfig(keyed, server.value));
      KeyedFromOtherConfig(keyed, w, regenerate, env.derive, record.config);
      GenerateConfigIgnoresConfig(keyed, server.value, record.config);
    }
  }

  /** The soft and forced passes leave the id, the address and the server flag alone. */
  lemma {:induction false} MergedFields(form: GenerationForm, stored: seq<WgConfig>, i: nat, ip: IPAddress)
    requires 1 <= i
    ensures var w := Merged(form, stored, i, ip); w.id == i && w.ip == ip.s && w.isServer == ip.isServerIP
  {
    MergePrecedence(Seeded(stored, i, ip), form);
  }

  /** The key pass changes nothing but the keys. */
  lemma {:induction false} RekeyedFrom(w: WgConfig, regenerate: bool, src: Entropy, derive: string -> string)
    requires KeyFailure(w, regenerate, src) == None
    ensures KeyedFrom(Rekeyed(w, regenerate, src, derive), w, regenerate, derive)
  {
    RekeyedKeys(w, regenerate, src, derive);
  }

  /** Replacing the configuration file keeps a record keyed from the same one. */
  lemma {:induction false} KeyedFromOtherConfig(r: WgConfig, w: WgConfig, regenerate: bool, derive: string -> string, config: string)
    requires KeyedFrom(r, w, regenerate, derive)
    ensures KeyedFrom(r.(config := config), w, regenerate, derive)
  {
  }

  /** A peer's file does not depend on the file the record held before. */
  lemma {:induction false} GenerateConfigIgnoresConfig(w: WgConfig, server: WgConfig, config: string)
    ensures GenerateConfig(w.(config := config), server) == GenerateConfig(w, server)
  {
    assert PeerBody(w.(config := config), server) == PeerBody(w, server);
  }

  /** What the batch loop carries: an error, the map, the spool and the random source left. */
  datatype Batch = Batch(err: Option<Error>, peers: map<nat, WgConfig>, spool: seq<string>, rest: Entropy)

  /**
    The batch loop (gen/generator.go:576-596) run in walk order from position
    l on: every address but the server's is prepared as record l+1; the first
    failure ends the run (log.Fatalf in the source).
  */
  function PrepBatch(env: Env, stored: seq<WgConfig>, allIPs: seq<IPAddress>, l: nat, server: WgConfig, b: Batch): Batch
    requires l <= |allIPs| && b.err == None
    decreases |allIPs| - l
  {
    if l == |allIPs| then b
    else if allIPs[l].isServerIP then PrepBatch(env, stored, allIPs, l + 1, server, b)
    else
      var p := Prepped(env, stored, l + 1, allIPs[l], Some(server), b.rest);
      match p.err
      case Some(e) => Batch(Some(PeerPrepFailed(l + 1, e)), b.peers, b.spool, p.rest)
      case None =>
        PreppedRecord(env, stored, l + 1, allIPs[l], Some(server), b.rest);
        PrepBatch(env, stored, allIPs, l + 1, server, Batch(None, b.peers[l + 1 := p.record], b.spool + [p.entry.value], p.rest))
  }

  /** The outcome of a run: the error, and the slice and the map as the run leaves them. */
  datatype Outcome = Outcome(err: Option<Error>, Peers: seq<WgConfig>, peers: map<nat, WgConfig>)

  /**
    Configuration.Generate as a whole: the input checks, which fail before
    anything is touched; then, on the records left by the reset and the
    clearing, the rest of the run.
  */
  function Generated(env: Env, Peers: seq<WgConfig>, peers: map<nat, WgConfig>, parsers: Parsers, src: Entropy): Outcome {
    match CheckInput(env.form, parsers)
    case Fail(e) => Outcome(Some(e), Peers, peers)
    case Ok(ck) => Run(env, Cleared(Peers, env.form.resetAll), ck, src)
  }

  /**
    The run after the clearing: the walk, the server's index checked
    (gen/generator.go:541-548), and the server prepared before any peer.
  */
  function Run(env: Env, stored: seq<WgConfig>, ck: Checked, src: Entropy): Outcome {
    var kept := Kept(ck.cidr.ip, End(ck.cidr));
    var index := IndexOf(kept, ck.server);
    if index < 0 then Outcome(Some(ServerIndexInvalid(index)), stored, StoredMap(stored))
    else ServerStage(env, stored, Walk(kept, ck.server), index, ck.cidr.prefix, src)
  }

  /** The server's stage on the walk: the server's prepDevice first (gen/generator.go:541-545), then what follows it. */
  function ServerStage(env: Env, stored: seq<WgConfig>, allIPs: seq<IPAddress>, index: nat, prefix: PrefixLen, src: Entropy): Outcome
    requires index < |allIPs|
  {
    Served(env, stored, allIPs, index, prefix, Prepped(env, stored, index + 1, allIPs[index], None, src))
  }

  /**
    After the server's prepDevice (gen/generator.go:551-574): the server
    stored under its id and validated; then the batch over the walk.
  */
  function Served(env: Env, stored: seq<WgConfig>, allIPs: seq<IPAddress>, index: nat, prefix: PrefixLen, sp: Prep): Outcome {
    match sp.err
    case Some(e) => Outcome(Some(ServerPrepFailed(e)), stored, StoredMap(stored))
    case None =>
      var m1 := StoredMap(stored)[index + 1 := sp.record];
      match ValidateServer(sp.record)
      case Some(e) => Outcome(Some(e), stored, m1)
      case None => Finished(env, stored, index, prefix, sp.record, PrepBatch(env, stored, allIPs, 0, sp.record, Batch(None, m1, [], sp.rest)))
  }

  /**
    After the batch (gen/generator.go:598-616): the spool read back, the
    server's file written, the server stored under its id, and the map read
    back into the slice.
  */
  function Finished(env: Env, stored: seq<WgConfig>, index: nat, prefix: PrefixLen, rec: WgConfig, b: Batch): Outcome {
    if b.err.Some? then Outcome(b.err, stored, b.peers)
    else
      match UnspoolAll(b.spool, env.useGzip, env.codec)
      case None => Outcome(Some(GunzipFailed), stored, b.peers)
      case Some(stanzas) =>
        Outcome(None, Sliced(b.peers[index + 1 := rec.(config := ServerHeader(rec, env.form, prefix) + Concat(stanzas))]), map[])
  }

  // ---------------------------------------------------------------------------
  // The batch loop's invariant

  /** Position k (1-based) is one the batch prepares once it has passed l. */
  predicate Prepares(allIPs: seq<IPAddress>, l: nat, k: nat) {
    1 <= k <= l && k <= |allIPs| && !allIPs[k - 1].isServerIP
  }

  /** The stanzas of the records the batch has prepared up to l, in walk order. */
  function Stanzas(m: map<nat, WgConfig>, allIPs: seq<IPAddress>, l: nat): seq<string>
    requires l <= |allIPs|
  {
    if l == 0 then []
    else Stanzas(m, allIPs, l - 1) + (if allIPs[l - 1].isServerIP then [] else [ServerPeer(Lookup(m, l))])
  }

  /** The stanzas depend only on the prepared records. */
  lemma {:induction false} StanzasFrame(m: map<nat, WgConfig>, m': map<nat, WgConfig>, allIPs: seq<IPAddress>, l: nat)
    requires l <= |allIPs|
    requires forall k :: Prepares(allIPs, l, k) ==> Lookup(m, k) == Lookup(m', k)
    ensures Stanzas(m, allIPs, l) == Stanzas(m', allIPs, l)
  {
    if l > 0 {
      assert forall k :: Prepares(allIPs, l - 1, k) ==> Prepares(allIPs, l, k);
      StanzasFrame(m, m', allIPs, l - 1);
      if !allIPs[l - 1].isServerIP {
        assert Prepares(allIPs, l, l);
      }
    }
  }

  /** Writing position l+1 leaves the stanzas up to l alone. */
  lemma {:induction false} StanzasWrite(m: map<nat, WgConfig>, allIPs: seq<IPAddress>, l: nat, r: WgConfig)
    requires l <= |allIPs|
    ensures Stanzas(m[l + 1 := r], allIPs, l) == Stanzas(m, allIPs, l)
  {
    forall k | Prepares(allIPs, l, k) ensures Lookup(m[l + 1 := r], k) == Lookup(m, k) {
    }
    StanzasFrame(m[l + 1 := r], m, allIPs, l);
  }

  /**
    r came out of the key pass on the merged record k for address ip. The fact
    is stated for every n equal to k so that the merge is only unfolded where
    a proof names it.
  */
  ghost predicate KeyedMerged(env: Env, stored: seq<WgConfig>, k: nat, ip: IPAddress, r: WgConfig) {
    forall n: nat {:trigger Merged(env.form, stored, n, ip)} ::
      1 <= n && n == k ==> KeyedFrom(r, Merged(env.form, stored, n, ip), env.form.regenerateKeys, env.derive)
  }

  /** r holds its configuration file rendered against server (stated behind a trigger, as KeyedMerged). */
  ghost predicate RenderedAgainst(r: WgConfig, server: WgConfig) {
    forall s: WgConfig {:trigger GenerateConfig(r, s)} :: s == server ==> r.config == GenerateConfig(r, s)
  }

  /** A record the batch prepared at position k. */
  ghost predicate PeerRecord(env: Env, stored: seq<WgConfig>, allIPs: seq<IPAddress>, k: nat, server: WgConfig, r: WgConfig)
    requires 1 <= k <= |allIPs|
  {
    && KeyedMerged(env, stored, k, allIPs[k - 1], r)
    && r.id == k && r.ip == allIPs[k - 1].s && !r.isServer
    && RenderedAgainst(r, server)
  }

  /**
    After position l: the map holds the starting map's keys and the prepared
    positions, the unprepared keys keep their starting records, the prepared
    ones hold their peer records, and the spool is their stanzas spooled.
  */
  ghost predicate BatchInv(env: Env, stored: seq<WgConfig>, allIPs: seq<IPAddress>, l: nat, server: WgConfig,
                           m1: map<nat, WgConfig>, b: Batch)
    requires l <= |allIPs|
  {
    && b.err == None
    && (forall k :: k in b.peers <==> k in m1 || Prepares(allIPs, l, k))
    && (forall k :: k in m1 && !Prepares(allIPs, l, k) ==> b.peers[k] == m1[k])
    && (forall k :: Prepares(allIPs, l, k) ==> PeerRecord(env, stored, allIPs, k, server, b.peers[k]))
    && SpoolAll(Stanzas(b.peers, allIPs, l), env.useGzip, env.codec) == Some(b.spool)
  }

  /** Spooling one more stanza appends its entry. */
  lemma {:induction false} SpoolAllSnoc(stanzas: seq<string>, s: string, useGzip: bool, codec: Codec)
    requires SpoolAll(stanzas, useGzip, codec).Some? && Spooled(s, useGzip, codec).Some?
    ensures SpoolAll(stanzas + [s], useGzip, codec) ==
      Some(SpoolAll(stanzas, useGzip, codec).value + [Spooled(s, useGzip, codec).value])
  {
    assert (stanzas + [s])[..|stanzas|] == stanzas;
  }

  /** One step of the batch keeps the invariant. */
  lemma {:induction false} BatchStep(env: Env, stored: seq<WgConfig>, allIPs: seq<IPAddress>, l: nat, server: WgConfig,
                  m1: map<nat, WgConfig>, b: Batch)
    requires l < |allIPs| && BatchInv(env, stored, allIPs, l, server, m1, b) && !allIPs[l].isServerIP
    requires Prepped(env, stored, l + 1, allIPs[l], Some(server), b.rest).err == None
    ensures var p := Prepped(env, stored, l + 1, allIPs[l], Some(server), b.rest);
      p.entry.Some? &&
      BatchInv(env, stored, allIPs, l + 1, server, m1, Batch(None, b.peers[l + 1 := p.record], b.spool + [p.entry.value], p.rest))
  {
    var p := Prepped(env, stored, l + 1, allIPs[l], Some(server), b.rest);
    PreppedRecord(env, stored, l + 1, allIPs[l], Some(server), b.rest);
    PeerRecordOfPrepped(env, stored, allIPs, l, server, b.rest);
    BatchWrite(env, stored, allIPs, l, server, m1, b, p.record, p.entry.value, p.rest);
  }

  /** Storing a peer record at position l+1 and spooling its stanza keeps the invariant. */
  lemma {:induction false} BatchWrite(env: Env, stored: seq<WgConfig>, allIPs: seq<IPAddress>, l: nat, server: WgConfig,
                   m1: map<nat, WgConfig>, b: Batch, r: WgConfig, entry: string, rest: Entropy)
    requires l < |allIPs| && BatchInv(env, stored, allIPs, l, server, m1, b) && !allIPs[l].isServerIP
    requires PeerRecord(env, stored, allIPs, l + 1, server, r)
    requires Spooled(ServerPeer(r), env.useGzip, env.codec) == Some(entry)
    ensures BatchInv(env, stored, allIPs, l + 1, server, m1, Batch(None, b.peers[l + 1 := r], b.spool + [entry], rest))
  {
    SpoolStep(allIPs, l, b.peers, b.spool, r, entry, env.useGzip, env.codec);
    KeysStep(allIPs, l, m1, b.peers, r);
    RecordsStep(env, stored, allIPs, l, l + 1, server, b.peers, r);
  }

  /** Storing the record at position l+1 and spooling its stanza extends the spool by the stanza's entry. */
  lemma {:induction false} SpoolStep(allIPs: seq<IPAddress>, l: nat, peers: map<nat, WgConfig>, spool: seq<string>,
                                     r: WgConfig, entry: string, useGzip: bool, codec: Codec)
    requires l < |allIPs| && !allIPs[l].isServerIP
    requires SpoolAll(Stanzas(peers, allIPs, l), useGzip, codec) == Some(spool)
    requires Spooled(ServerPeer(r), useGzip, codec) == Some(entry)
    ensures SpoolAll(Stanzas(peers[l + 1 := r], allIPs, l + 1), useGzip, codec) == Some(spool + [entry])
  {
    StanzasWrite(peers, allIPs, l, r);
    assert Stanzas(peers[l + 1 := r], allIPs, l + 1) == Stanzas(peers, allIPs, l) + [ServerPeer(r)];
    SpoolAllSnoc(Stanzas(peers, allIPs, l), ServerPeer(r), useGzip, codec);
  }

  /** Writing position l+1 keeps the map's keys and its unprepared records as the invariant has them. */
  lemma {:induction false} KeysStep(allIPs: seq<IPAddress>, l: nat, m1: map<nat, WgConfig>, peers: map<nat, WgConfig>, r: WgConfig)
    requires l < |allIPs| && !allIPs[l].isServerIP
    requires forall k :: k in peers <==> k in m1 || Prepares(allIPs, l, k)
    requires forall k :: k in m1 && !Prepares(allIPs, l, k) ==> peers[k] == m1[k]
    ensures forall k :: k in peers[l + 1 := r] <==> k in m1 || Prepares(allIPs, l + 1, k)
    ensures forall k :: k in m1 && !Prepares(allIPs, l + 1, k) ==> peers[l + 1 := r][k] == m1[k]
  {
    forall k ensures k in peers[l + 1 := r] <==> k in m1 || Prepares(allIPs, l + 1, k) {
      assert Prepares(allIPs, l + 1, k) <==> Prepares(allIPs, l, k) || k == l + 1;
    }
    forall k | k in m1 && !Prepares(allIPs, l + 1, k) ensures peers[l + 1 := r][k] == m1[k] {
      assert !Prepares(allIPs, l, k) && k != l + 1;
    }
  }

  /** Writing a peer record at position l+1 keeps every prepared position a peer record. */
  lemma {:induction false} RecordsStep(env: Env, stored: seq<WgConfig>, allIPs: seq<IPAddress>, l: nat, next: nat, server: WgConfig,
                    peers: map<nat, WgConfig>, r: WgConfig)
    requires l < |allIPs| && next == l + 1
    requires forall k :: Prepares(allIPs, l, k) ==> k in peers && PeerRecord(env, stored, allIPs, k, server, peers[k])
    requires PeerRecord(env, stored, allIPs, next, server, r)
    ensures forall k :: Prepares(allIPs, next, k) ==>
      k in peers[next := r] && PeerRecord(env, stored, allIPs, k, server, peers[next := r][k])
  {
    forall k | Prepares(allIPs, next, k)
      ensures k in peers[next := r] && PeerRecord(env, stored, allIPs, k, server, peers[next := r][k])
    {
      if k != next {
        assert Prepares(allIPs, l, k);
      }
    }
  }

  /** The record prepared at position l is a peer record. */
  lemma {:induction false} PeerRecordOfPrepped(env: Env, stored: seq<WgConfig>, allIPs: seq<IPAddress>, l: nat, server: WgConfig, src: Entropy)
    requires l < |allIPs| && !allIPs[l].isServerIP
    requires Prepped(env, stored, l + 1, allIPs[l], Some(server), src).err == None
    ensures PeerRecord(env, stored, allIPs, l + 1, server, Prepped(env, stored, l + 1, allIPs[l], Some(server), src).record)
  {
    PreppedRecord(env, stored, l + 1, allIPs[l], Some(server), src);
    assert allIPs[l + 1 - 1] == allIPs[l];
  }

  /** Passing the server's position keeps the invariant. */
  lemma {:induction false} BatchSkip(env: Env, stored: seq<WgConfig>, allIPs: seq<IPAddress>, l: nat, server: WgConfig,
                  m1: map<nat, WgConfig>, b: Batch)
    requires l < |allIPs| && BatchInv(env, stored, allIPs, l, server, m1, b) && allIPs[l].isServerIP
    ensures BatchInv(env, stored, allIPs, l + 1, server, m1, b)
  {
    assert forall k :: Prepares(allIPs, l + 1, k) <==> Prepares(allIPs, l, k);
    var st := Stanzas(b.peers, allIPs, l);
    assert Stanzas(b.peers, allIPs, l + 1) == st + [];
    assert st + [] == st;
    forall k | k in m1 && !Prepares(allIPs, l + 1, k) ensures b.peers[k] == m1[k] {
      assert !Prepares(allIPs, l, k);
    }
  }

  /** A batch that succeeds ends in the invariant at the end of the walk. */
  lemma {:induction false} PrepBatchInv(env: Env, stored: seq<WgConfig>, allIPs: seq<IPAddress>, l: nat, server: WgConfig,
                                        m1: map<nat, WgConfig>, b: Batch)
    requires l <= |allIPs| && BatchInv(env, stored, allIPs, l, server, m1, b)
    ensures var r := PrepBatch(env, stored, allIPs, l, server, b);
      r.err == None ==> BatchInv(env, stored, allIPs, |allIPs|, server, m1, r)
    decreases |allIPs| - l
  {
    if l < |allIPs| {
      if allIPs[l].isServerIP {
        BatchSkip(env, stored, allIPs, l, server, m1, b);
        PrepBatchInv(env, stored, allIPs, l + 1, server, m1, b);
      } else {
        var p := Prepped(env, stored, l + 1, allIPs[l], Some(server), b.rest);
        if p.err == None {
          BatchStep(env, stored, allIPs, l, server, m1, b);
          PrepBatchInv(env, stored, allIPs, l + 1, server, m1, Batch(None, b.peers[l + 1 := p.record], b.spool + [p.entry.value], p.rest));
        }
      }
    }
  }

  // ---------------------------------------------------------------------------
  // A successful run

  /** The server's position is the only one holding the server's address. */
  lemma {:induction false} ServerAt(kept: seq<nat>, server: nat)
    requires forall i, j :: 0 <= i < j < |kept| ==> kept[i] < kept[j]
    requires 0 <= IndexOf(kept, server)
    ensures forall j :: 0 <= j < |kept| ==> (kept[j] == server <==> j == IndexOf(kept, server))
  {
  }

  /** A successful end of the run: the batch and the read-back succeeded. */
  lemma {:induction false} FinishedOk(env: Env, stored: seq<WgConfig>, index: nat, prefix: PrefixLen, rec: WgConfig, b: Batch)
    returns (stanzas: seq<string>)
    requires Finished(env, stored, index, prefix, rec, b).err == None
    ensures b.err == None && UnspoolAll(b.spool, env.useGzip, env.codec) == Some(stanzas)
    ensures Finished(env, stored, index, prefix, rec, b) ==
      Outcome(None, Sliced(b.peers[index + 1 := rec.(config := ServerHeader(rec, env.form, prefix) + Concat(stanzas))]), map[])
  {
    stanzas := UnspoolAll(b.spool, env.useGzip, env.codec).value;
  }

  /** A successful run from the server's preparation on: the server valid, then the batch. */
  lemma {:induction false} ServedOk(env: Env, stored: seq<WgConfig>, allIPs: seq<IPAddress>, index: nat, prefix: PrefixLen, sp: Prep)
    requires Served(env, stored, allIPs, index, prefix, sp).err == None
    ensures sp.err == None && ValidateServer(sp.record) == None
    ensures Served(env, stored, allIPs, index, prefix, sp) ==
      Finished(env, stored, index, prefix, sp.record,
               PrepBatch(env, stored, allIPs, 0, sp.record, Batch(None, StoredMap(stored)[index + 1 := sp.record], [], sp.rest)))
  {
  }

  /** A successful run after the clearing: the server's address is in the walk. */
  lemma {:induction false} RunOk(env: Env, stored: seq<WgConfig>, ck: Checked, src: Entropy) returns (kept: seq<nat>, index: nat)
    requires Run(env, stored, ck, src).err == None
    ensures kept == Kept(ck.cidr.ip, End(ck.cidr)) && index == IndexOf(kept, ck.server) && index < |kept|
    ensures Run(env, stored, ck, src) == ServerStage(env, stored, Walk(kept, ck.server), index, ck.cidr.prefix, src)
  {
    kept := Kept(ck.cidr.ip, End(ck.cidr));
    index := IndexOf(kept, ck.server);
  }

  /** With the server's address in the walk, the run goes on to the server's stage. */
  lemma {:induction false} RunStage(env: Env, stored: seq<WgConfig>, ck: Checked, src: Entropy) returns (kept: seq<nat>, index: nat)
    requires 0 <= IndexOf(Kept(ck.cidr.ip, End(ck.cidr)), ck.server)
    ensures kept == Kept(ck.cidr.ip, End(ck.cidr)) && index == IndexOf(kept, ck.server) && index < |kept|
    ensures Run(env, stored, ck, src) == ServerStage(env, stored, Walk(kept, ck.server), index, ck.cidr.prefix, src)
  {
    kept := Kept(ck.cidr.ip, End(ck.cidr));
    index := IndexOf(kept, ck.server);
  }

  /** With the server missing from the walk, the run fails on the index -1 and leaves the cleared records. */
  lemma {:induction false} RunRejects(env: Env, stored: seq<WgConfig>, ck: Checked, src: Entropy)
    requires IndexOf(Kept(ck.cidr.ip, End(ck.cidr)), ck.server) < 0
    ensures Run(env, stored, ck, src) == Outcome(Some(ServerIndexInvalid(-1)), stored, StoredMap(stored))
  {
  }

  /** The naturals in [lo, hi). */
  function Range(lo: nat, hi: nat): (r: set<nat>)
    ensures forall k :: k in r <==> lo <= k < hi
    ensures |r| == if lo <= hi then hi - lo else 0
    decreases hi - lo
  {
    if hi <= lo then {} else {lo} + Range(lo + 1, hi)
  }

  function Max(a: nat, b: nat): nat {
    if a < b then b else a
  }

  /** In the walk of a strictly increasing list, the server's address is at the server's index and nowhere else. */
  lemma {:induction false} WalkServer(kept: seq<nat>, server: nat)
    requires forall i, j :: 0 <= i < j < |kept| ==> kept[i] < kept[j]
    requires 0 <= IndexOf(kept, server)
    ensures forall j :: 0 <= j < |kept| ==> (Walk(kept, server)[j].isServerIP <==> j == IndexOf(kept, server))
  {
    ServerAt(kept, server);
  }

  /** A batch run from the start that succeeds ends in the invariant. */
  lemma {:induction false} BatchDone(env: Env, stored: seq<WgConfig>, allIPs: seq<IPAddress>, rec: WgConfig, m1: map<nat, WgConfig>, rest: Entropy)
    requires PrepBatch(env, stored, allIPs, 0, rec, Batch(None, m1, [], rest)).err == None
    ensures BatchInv(env, stored, allIPs, |allIPs|, rec, m1, PrepBatch(env, stored, allIPs, 0, rec, Batch(None, m1, [], rest)))
  {
    PrepBatchInv(env, stored, allIPs, 0, rec, m1, Batch(None, m1, [], rest));
  }

  /**
    The map a successful run reads back: the stored records' 0-based keys
    and the walk's 1-based ids, the server at its id, a peer record at every
    other id, the stored records above the walk untouched, and the spool the
    peers' stanzas.
  */
  lemma {:induction false} FinalMap(env: Env, stored: seq<WgConfig>, allIPs: seq<IPAddress>, index: nat, rec: WgConfig,
                 m1: map<nat, WgConfig>, b: Batch, srv: WgConfig, key: nat, F: map<nat, WgConfig>)
    requires index < |allIPs| && key == index + 1
    requires forall j :: 0 <= j < |allIPs| ==> (allIPs[j].isServerIP <==> j == index)
    requires m1 == StoredMap(stored)[key := rec]
    requires BatchInv(env, stored, allIPs, |allIPs|, rec, m1, b)
    requires F == b.peers[key := srv] && srv.isServer
    ensures forall k: nat :: k in F <==> k < |stored| || 1 <= k <= |allIPs|
    ensures forall k :: 1 <= k <= |allIPs| && k != key ==> PeerRecord(env, stored, allIPs, k, rec, F[k])
    ensures forall k :: 1 <= k <= |allIPs| ==> F[k].isServer == allIPs[k - 1].isServerIP
    ensures forall k :: |allIPs| < k < |stored| ==> F[k] == stored[k]
    ensures SpoolAll(Stanzas(F, allIPs, |allIPs|), env.useGzip, env.codec) == Some(b.spool)
  {
    forall k: nat ensures Prepares(allIPs, |allIPs|, k) <==> 1 <= k <= |allIPs| && k != key {
      if 1 <= k <= |allIPs| {
        assert allIPs[k - 1].isServerIP <==> k - 1 == index;
      }
    }
    forall k: nat ensures k in F <==> k < |stored| || 1 <= k <= |allIPs| {
      assert k in m1 <==> k == key || k < |stored|;
    }
    forall k | |allIPs| < k < |stored| ensures F[k] == stored[k] {
      assert k in m1 && !Prepares(allIPs, |allIPs|, k);
      assert m1[k] == StoredMap(stored)[k];
    }
    forall k | Prepares(allIPs, |allIPs|, k) ensures Lookup(F, k) == Lookup(b.peers, k) { }
    StanzasFrame(F, b.peers, allIPs, |allIPs|);
  }

  /** A map keyed by [0, s) and [1, n] reads back as a slice of this length, position j holding key j+1. */
  lemma {:induction false} SlicedSize(F: map<nat, WgConfig>, s: nat, n: nat)
    requires forall k: nat :: k in F <==> k < s || 1 <= k <= n
    ensures |Sliced(F)| == (if s == 0 then n else Max(s, n + 1))
    ensures forall j :: 0 <= j < |Sliced(F)| ==> Sliced(F)[j] == Lookup(F, j + 1)
  {
    var lo, hi := if s == 0 then 1 else 0, if s == 0 then n + 1 else Max(s, n + 1);
    assert F.Keys == Range(lo, hi);
  }

  /**
    The slice a successful batch leaves: the walk's records at positions 0 to
    N-1, the server at its index, then what the stored records above the walk
    read back as.
  */
  lemma {:induction false} SuccessShape(env: Env, stored: seq<WgConfig>, allIPs: seq<IPAddress>, index: nat, rec: WgConfig,
                     b: Batch, srv: WgConfig) returns (out: seq<WgConfig>)
    requires index < |allIPs|
    requires forall j :: 0 <= j < |allIPs| ==> (allIPs[j].isServerIP <==> j == index)
    requires srv.isServer
    requires BatchInv(env, stored, allIPs, |allIPs|, rec, StoredMap(stored)[index + 1 := rec], b)
    ensures out == Sliced(b.peers[index + 1 := srv])
    ensures |out| == (if stored == [] then |allIPs| else Max(|stored|, |allIPs| + 1))
    ensures out[index] == srv
    ensures forall j :: 0 <= j < |allIPs| && j != index ==> PeerRecord(env, stored, allIPs, j + 1, rec, out[j])
    ensures ShapedTail(stored, |allIPs|, out)
    ensures SpoolAll(PeerStanzas(out, |allIPs|), env.useGzip, env.codec) == Some(b.spool)
  {
    var m1 := StoredMap(stored)[index + 1 := rec];
    var F := b.peers[index + 1 := srv];
    FinalMap(env, stored, allIPs, index, rec, m1, b, srv, index + 1, F);
    out := FinalSlice(env, stored, allIPs, index, rec, srv, F, b.spool);
  }

  /** The slice read back from the final map, in the terms of the walk. */
  lemma {:induction false} FinalSlice(env: Env, stored: seq<WgConfig>, allIPs: seq<IPAddress>, index: nat, rec: WgConfig,
                   srv: WgConfig, F: map<nat, WgConfig>, spool: seq<string>) returns (out: seq<WgConfig>)
    requires index < |allIPs|
    requires forall k: nat :: k in F <==> k < |stored| || 1 <= k <= |allIPs|
    requires F[index + 1] == srv
    requires forall k :: 1 <= k <= |allIPs| && k != index + 1 ==> PeerRecord(env, stored, allIPs, k, rec, F[k])
    requires forall k :: 1 <= k <= |allIPs| ==> F[k].isServer == allIPs[k - 1].isServerIP
    requires forall k :: |allIPs| < k < |stored| ==> F[k] == stored[k]
    requires SpoolAll(Stanzas(F, allIPs, |allIPs|), env.useGzip, env.codec) == Some(spool)
    ensures out == Sliced(F)
    ensures |out| == (if stored == [] then |allIPs| else Max(|stored|, |allIPs| + 1))
    ensures out[index] == srv
    ensures forall j :: 0 <= j < |allIPs| && j != index ==> PeerRecord(env, stored, allIPs, j + 1, rec, out[j])
    ensures ShapedTail(stored, |allIPs|, out)
    ensures SpoolAll(PeerStanzas(out, |allIPs|), env.useGzip, env.codec) == Some(spool)
  {
    SlicedSize(F, |stored|, |allIPs|);
    out := Sliced(F);
    forall j | 0 <= j < |allIPs| ensures out[j] == Lookup(F, j + 1) && out[j].isServer == allIPs[j].isServerIP {
      assert F[j + 1].isServer == allIPs[j].isServerIP;
    }
    StanzasAsPeers(F, allIPs, out, |allIPs|);
  }

  /** A successful run from the server's preparation on ends its batch in the invariant. */
  lemma {:induction false} ServedDone(env: Env, stored: seq<WgConfig>, allIPs: seq<IPAddress>, index: nat, prefix: PrefixLen, sp: Prep)
    returns (b: Batch)
    requires Served(env, stored, allIPs, index, prefix, sp).err == None
    ensures sp.err == None && ValidateServer(sp.record) == None
    ensures BatchInv(env, stored, allIPs, |allIPs|, sp.record, StoredMap(stored)[index + 1 := sp.record], b)
    ensures Served(env, stored, allIPs, index, prefix, sp) == Finished(env, stored, index, prefix, sp.record, b)
  {
    ServedOk(env, stored, allIPs, index, prefix, sp);
    b := PrepBatch(env, stored, allIPs, 0, sp.record, Batch(None, StoredMap(stored)[index + 1 := sp.record], [], sp.rest));
    var _ := FinishedOk(env, stored, index, prefix, sp.record, b);
    BatchDone(env, stored, allIPs, sp.record, StoredMap(stored)[index + 1 := sp.record], sp.rest);
  }

  /** The server's record as its prepDevice leaves it: merged and keyed, flagged as the server. */
  ghost predicate ServerRecord(env: Env, stored: seq<WgConfig>, allIPs: seq<IPAddress>, index: nat, r: WgConfig)
    requires index < |allIPs|
  {
    && KeyedMerged(env, stored, index + 1, allIPs[index], r)
    && r.id == index + 1 && r.ip == allIPs[index].s && r.isServer
  }

  /** The server's preparation, when it succeeds, yields its server record. */
  lemma {:induction false} ServerPrepped(env: Env, stored: seq<WgConfig>, allIPs: seq<IPAddress>, index: nat, src: Entropy)
    requires index < |allIPs| && allIPs[index].isServerIP
    ensures var sp := Prepped(env, stored, index + 1, allIPs[index], None, src);
      sp.err == None ==> ServerRecord(env, stored, allIPs, index, sp.record)
  {
    if Prepped(env, stored, index + 1, allIPs[index], None, src).err == None {
      PreppedRecord(env, stored, index + 1, allIPs[index], None, src);
    }
  }

  /**
    What a successful run leaves in the slice, for stored records stored
    and a walk allIPs whose server is at index: the walk's records at
    positions 0 to N-1, whose server holds its server record and a header
    followed by the stanzas of the other N-1, each of which holds its peer
    record and its file rendered against that server; then what the stored
    records above the walk read back as, under their 0-based keys, and the
    zero record past them.
  */
  ghost predicate Shaped(env: Env, stored: seq<WgConfig>, allIPs: seq<IPAddress>, index: int, prefix: PrefixLen, out: seq<WgConfig>) {
    && 0 <= index < |allIPs|
    && |out| == (if stored == [] then |allIPs| else Max(|stored|, |allIPs| + 1))
    && ServerRecord(env, stored, allIPs, index, out[index])
    && ValidateServer(out[index]) == None
    && ShapedPeers(env, stored, allIPs, index, out)
    && ShapedTail(stored, |allIPs|, out)
    && ServerFile(env, prefix, out, |allIPs|, out[index])
  }

  /**
    Shaped, held behind a trigger: a lemma about a run's outcome passes it on
    as one fact instead of one per conjunct of Shaped. Logically it is just
    Shaped(env, stored, allIPs, index, prefix, out); the quantifier only
    keeps the verifier from unfolding Shaped before it is asked to.
  */
  ghost predicate ShapedSlice(env: Env, stored: seq<WgConfig>, allIPs: seq<IPAddress>, index: int, prefix: PrefixLen, out: seq<WgConfig>) {
    forall o: seq<WgConfig> {:trigger Shaped(env, stored, allIPs, index, prefix, o)} :: o == out ==> Shaped(env, stored, allIPs, index, prefix, o)
  }

  /** Every position of the walk but the server's holds its peer record, rendered against the server at index. */
  ghost predicate ShapedPeers(env: Env, stored: seq<WgConfig>, allIPs: seq<IPAddress>, index: nat, out: seq<WgConfig>)
    requires index < |allIPs| <= |out|
  {
    forall j :: 0 <= j < |allIPs| && j != index ==> PeerRecord(env, stored, allIPs, j + 1, out[index], out[j])
  }

  /** Past the walk's n positions, position j holds the stored record under key j+1, or the zero record. */
  ghost predicate ShapedTail(stored: seq<WgConfig>, n: nat, out: seq<WgConfig>) {
    forall j :: n <= j < |out| ==> out[j] == if j + 1 < |stored| then stored[j + 1] else ZERO_CONFIG
  }

  /** The server's file: its header, then the stanzas of the first n records' peers as the spool returns them. */
  ghost predicate ServerFile(env: Env, prefix: PrefixLen, out: seq<WgConfig>, n: nat, server: WgConfig)
    requires n <= |out|
  {
    && SpoolAll(PeerStanzas(out, n), env.useGzip, env.codec).Some?
    && var stanzas := UnspoolAll(SpoolAll(PeerStanzas(out, n), env.useGzip, env.codec).value, env.useGzip, env.codec);
       stanzas.Some? && server.config == ServerHeader(server, env.form, prefix) + Concat(stanzas.value)
  }

  /** A peer's file is the same against the server record whatever file the server holds. */
  lemma {:induction false} PeerRecordServerConfig(env: Env, stored: seq<WgConfig>, allIPs: seq<IPAddress>, k: nat, rec: WgConfig, config: string, r: WgConfig)
    requires 1 <= k <= |allIPs| && PeerRecord(env, stored, allIPs, k, rec, r)
    ensures PeerRecord(env, stored, allIPs, k, rec.(config := config), r)
  {
    forall s: WgConfig | s == rec.(config := config) ensures r.config == GenerateConfig(r, s) {
      assert PeerBody(r, s) == PeerBody(r, rec);
      assert GenerateConfig(r, s) == GenerateConfig(r, rec);
    }
  }

  /** The server's header does not depend on the file the server record held. */
  lemma {:induction false} ServerHeaderIgnoresConfig(w: WgConfig, form: GenerationForm, prefix: nat, config: string)
    ensures ServerHeader(w.(config := config), form, prefix) == ServerHeader(w, form, prefix)
  {
    assert ExtraSuffix(w.(config := config).extra) == ExtraSuffix(w.extra);
  }

  /** The end of a successful run leaves the slice Shaped and the map empty. */
  lemma {:induction false} FinishedShaped(env: Env, stored: seq<WgConfig>, allIPs: seq<IPAddress>, index: nat, prefix: PrefixLen, rec: WgConfig, b: Batch)
    requires index < |allIPs|
    requires forall j :: 0 <= j < |allIPs| ==> (allIPs[j].isServerIP <==> j == index)
    requires ServerRecord(env, stored, allIPs, index, rec) && ValidateServer(rec) == None
    requires BatchInv(env, stored, allIPs, |allIPs|, rec, StoredMap(stored)[index + 1 := rec], b)
    requires Finished(env, stored, index, prefix, rec, b).err == None
    ensures Shaped(env, stored, allIPs, index, prefix, Finished(env, stored, index, prefix, rec, b).Peers)
    ensures Finished(env, stored, index, prefix, rec, b).peers == map[]
  {
    var stanzas := FinishedOk(env, stored, index, prefix, rec, b);
    var config := ServerHeader(rec, env.form, prefix) + Concat(stanzas);
    var out := SuccessShape(env, stored, allIPs, index, rec, b, rec.(config := config));
    PeersAtServer(env, stored, allIPs, index, rec, config, out);
    ServerAtIndex(env, stored, allIPs, index, prefix, rec, config, b.spool, stanzas, out);
  }

  /** With the server's file in place, every peer record is rendered against the server as the slice holds it. */
  lemma {:induction false} PeersAtServer(env: Env, stored: seq<WgConfig>, allIPs: seq<IPAddress>, index: nat, rec: WgConfig, config: string, out: seq<WgConfig>)
    requires index < |allIPs| <= |out| && out[index] == rec.(config := config)
    requires forall j :: 0 <= j < |allIPs| && j != index ==> PeerRecord(env, stored, allIPs, j + 1, rec, out[j])
    ensures ShapedPeers(env, stored, allIPs, index, out)
  {
    forall j | 0 <= j < |allIPs| && j != index ensures PeerRecord(env, stored, allIPs, j + 1, out[index], out[j]) {
      PeerRecordServerConfig(env, stored, allIPs, j + 1, rec, config, out[j]);
    }
  }

  /** With the server's file in place, the server's position holds its record, valid, and its file. */
  lemma {:induction false} ServerAtIndex(env: Env, stored: seq<WgConfig>, allIPs: seq<IPAddress>, index: nat, prefix: PrefixLen,
                      rec: WgConfig, config: string, spool: seq<string>, stanzas: seq<string>, out: seq<WgConfig>)
    requires index < |allIPs| <= |out|
    requires ServerRecord(env, stored, allIPs, index, rec) && ValidateServer(rec) == None
    requires config == ServerHeader(rec, env.form, prefix) + Concat(stanzas)
    requires UnspoolAll(spool, env.useGzip, env.codec) == Some(stanzas)
    requires out[index] == rec.(config := config)
    requires SpoolAll(PeerStanzas(out, |allIPs|), env.useGzip, env.codec) == Some(spool)
    ensures ServerRecord(env, stored, allIPs, index, out[index]) && ValidateServer(out[index]) == None
    ensures ServerFile(env, prefix, out, |allIPs|, out[index])
  {
    forall n: nat | 1 <= n && n == index + 1
      ensures KeyedFrom(rec.(config := config), Merged(env.form, stored, n, allIPs[index]), env.form.regenerateKeys, env.derive)
    {
      KeyedFromOtherConfig(rec, Merged(env.form, stored, n, allIPs[index]), env.form.regenerateKeys, env.derive, config);
    }
    ServerHeaderIgnoresConfig(rec, env.form, prefix, config);
  }

  /** A successful run from the server's preparation on leaves the slice Shaped and the map empty. */
  lemma {:induction false} ServedShaped(env: Env, stored: seq<WgConfig>, allIPs: seq<IPAddress>, index: nat, prefix: PrefixLen, sp: Prep)
    requires index < |allIPs|
    requires forall j :: 0 <= j < |allIPs| ==> (allIPs[j].isServerIP <==> j == index)
    requires sp.err == None ==> ServerRecord(env, stored, allIPs, index, sp.record)
    requires Served(env, stored, allIPs, index, prefix, sp).err == None
    ensures Shaped(env, stored, allIPs, index, prefix, Served(env, stored, allIPs, index, prefix, sp).Peers)
    ensures Served(env, stored, allIPs, index, prefix, sp).peers == map[]
  {
    var b := ServedDone(env, stored, allIPs, index, prefix, sp);
    FinishedShaped(env, stored, allIPs, index, prefix, sp.record, b);
  }

  /** A successful run after the clearing leaves the slice Shaped for its walk and the map empty. */
  lemma {:induction false} RunShaped(env: Env, stored: seq<WgConfig>, ck: Checked, src: Entropy)
    requires Run(env, stored, ck, src).err == None
    ensures var kept := Kept(ck.cidr.ip, End(ck.cidr));
      Shaped(env, stored, Walk(kept, ck.server), IndexOf(kept, ck.server), ck.cidr.prefix, Run(env, stored, ck, src).Peers)
    ensures Run(env, stored, ck, src).peers == map[]
  {
    var kept, index := RunOk(env, stored, ck, src);
    KeptIncreasing(ck.cidr.ip, End(ck.cidr));
    WalkServer(kept, ck.server);
    ServerPrepped(env, stored, Walk(kept, ck.server), index, src);
    ServedShaped(env, stored, Walk(kept, ck.server), index, ck.cidr.prefix, Prepped(env, stored, index + 1, Walk(kept, ck.server)[index], None, src));
  }

  /**
    A successful Generate leaves the slice Shaped for the stored records as
    the reset and the clearing leave them and for the walk of the network,
    and the map empty.
  */
  lemma {:induction false} GeneratedShaped(env: Env, Peers: seq<WgConfig>, peers: map<nat, WgConfig>, parsers: Parsers, src: Entropy)
    requires Generated(env, Peers, peers, parsers, src).err == None
    ensures CheckInput(env.form, parsers).Ok?
    ensures var ck := CheckInput(env.form, parsers).value;
      var kept := Kept(ck.cidr.ip, End(ck.cidr));
      ShapedSlice(env, Cleared(Peers, env.form.resetAll), Walk(kept, ck.server), IndexOf(kept, ck.server), ck.cidr.prefix,
                  Generated(env, Peers, peers, parsers, src).Peers)
    ensures Generated(env, Peers, peers, parsers, src).peers == map[]
  {
    RunShaped(env, Cleared(Peers, env.form.resetAll), CheckInput(env.form, parsers).value, src);
  }

  /** The stanzas of the non-server records among the first n, in order. */
  function PeerStanzas(out: seq<WgConfig>, n: nat): seq<string>
    requires n <= |out|
  {
    if n == 0 then []
    else PeerStanzas(out, n - 1) + (if out[n - 1].isServer then [] else [ServerPeer(out[n - 1])])
  }

  /** Read through the slice, the batch's stanzas are the stanzas of the non-server records. */
  lemma {:induction false} StanzasAsPeers(m: map<nat, WgConfig>, allIPs: seq<IPAddress>, out: seq<WgConfig>, n: nat)
    requires n <= |allIPs| && n <= |out|
    requires forall j :: 0 <= j < n ==> out[j] == Lookup(m, j + 1) && out[j].isServer == allIPs[j].isServerIP
    ensures Stanzas(m, allIPs, n) == PeerStanzas(out, n)
  {
    if n > 0 {
      StanzasAsPeers(m, allIPs, out, n - 1);
      assert out[n - 1] == Lookup(m, n);
    }
  }

  // ---------------------------------------------------------------------------
  // What a successful run guarantees

  /** Position j of the walk holds id j+1 and the walk's address j; only the server's position is flagged. */
  lemma {:induction false} ShapedIds(env: Env, stored: seq<WgConfig>, allIPs: seq<IPAddress>, index: int, prefix: PrefixLen, out: seq<WgConfig>)
    requires Shaped(env, stored, allIPs, index, prefix, out)
    ensures forall j :: 0 <= j < |allIPs| ==> out[j].id == j + 1 && out[j].ip == allIPs[j].s && (out[j].isServer <==> j == index)
  {
    forall j | 0 <= j < |allIPs| && j != index ensures out[j].id == j + 1 && out[j].ip == allIPs[j].s && !out[j].isServer {
      assert PeerRecord(env, stored, allIPs, j + 1, out[index], out[j]);
    }
  }

  /** On a first run (nothing stored) the slice is the walk: length N, position j holding id j+1. */
  lemma {:induction false} ShapedFirstRun(env: Env, allIPs: seq<IPAddress>, index: int, prefix: PrefixLen, out: seq<WgConfig>)
    requires ShapedSlice(env, [], allIPs, index, prefix, out)
    ensures |out| == |allIPs|
    ensures forall j :: 0 <= j < |out| ==> out[j].id == j + 1
  {
    assert Shaped(env, [], allIPs, index, prefix, out);
    ShapedIds(env, [], allIPs, index, prefix, out);
  }

  /** When no stored record is flagged, the server's position is the only flagged one in the whole slice. */
  lemma {:induction false} ShapedOneServer(env: Env, stored: seq<WgConfig>, allIPs: seq<IPAddress>, index: int, prefix: PrefixLen, out: seq<WgConfig>)
    requires Shaped(env, stored, allIPs, index, prefix, out)
    requires forall k :: 0 <= k < |stored| ==> !stored[k].isServer
    ensures forall j :: 0 <= j < |out| ==> (out[j].isServer <==> j == index)
  {
    ShapedIds(env, stored, allIPs, index, prefix, out);
    forall j | |allIPs| <= j < |out| ensures !out[j].isServer {
      assert ShapedTail(stored, |allIPs|, out);
    }
  }

  /**
    With the spool held as it is, or compressed by a codec whose decompression
    undoes its compression, the server's file is its header followed by the
    stanzas of the other records of the walk, in walk order.
  */
  lemma {:induction false} ShapedServerFile(env: Env, stored: seq<WgConfig>, allIPs: seq<IPAddress>, index: int, prefix: PrefixLen, out: seq<WgConfig>)
    requires Shaped(env, stored, allIPs, index, prefix, out)
    requires !env.useGzip || RoundTrip(env.codec)
    ensures out[index].config == ServerHeader(out[index], env.form, prefix) + Concat(PeerStanzas(out, |allIPs|))
  {
    assert ServerFile(env, prefix, out, |allIPs|, out[index]);
    SpoolRoundTrip(PeerStanzas(out, |allIPs|), env.useGzip, env.codec);
  }

  /** With the server at index alone flagged among the first n records, there is one stanza per other record. */
  lemma {:induction false} PeerStanzasCount(out: seq<WgConfig>, n: nat, index: nat)
    requires n <= |out|
    requires forall j :: 0 <= j < n ==> (out[j].isServer <==> j == index)
    ensures |PeerStanzas(out, n)| == if index < n then n - 1 else n
  {
    if n > 0 {
      PeerStanzasCount(out, n - 1, index);
    }
  }

  /** The server's file carries one stanza per record of the walk other than the server. */
  lemma {:induction false} ShapedStanzaCount(env: Env, stored: seq<WgConfig>, allIPs: seq<IPAddress>, index: int, prefix: PrefixLen, out: seq<WgConfig>)
    requires Shaped(env, stored, allIPs, index, prefix, out)
    ensures |PeerStanzas(out, |allIPs|)| == |allIPs| - 1
  {
    ShapedIds(env, stored, allIPs, index, prefix, out);
    PeerStanzasCount(out, |allIPs|, index);
  }

  // ---------------------------------------------------------------------------
  // Generate's outcome

  /** Input that fails the checks leaves the slice and the map as they were. */
  lemma {:induction false} GeneratedRejectsInput(env: Env, Peers: seq<WgConfig>, peers: map<nat, WgConfig>, parsers: Parsers, src: Entropy)
    requires CheckInput(env.form, parsers).Fail?
    ensures Generated(env, Peers, peers, parsers, src) == Outcome(Some(CheckInput(env.form, parsers).error), Peers, peers)
  {
  }

  /** A failure after the checks leaves the slice as the reset and the clearing left it. */
  lemma {:induction false} GeneratedFailureClears(env: Env, Peers: seq<WgConfig>, peers: map<nat, WgConfig>, parsers: Parsers, src: Entropy)
    requires CheckInput(env.form, parsers).Ok? && Generated(env, Peers, peers, parsers, src).err.Some?
    ensures Generated(env, Peers, peers, parsers, src).Peers == Cleared(Peers, env.form.resetAll)
  {
    RunFailureKeeps(env, Cleared(Peers, env.form.resetAll), CheckInput(env.form, parsers).value, src);
  }

  /** A failing run after the clearing leaves the slice as the clearing left it. */
  lemma {:induction false} RunFailureKeeps(env: Env, stored: seq<WgConfig>, ck: Checked, src: Entropy)
    requires Run(env, stored, ck, src).err.Some?
    ensures Run(env, stored, ck, src).Peers == stored
  {
    if 0 <= IndexOf(Kept(ck.cidr.ip, End(ck.cidr)), ck.server) {
      var kept, index := RunStage(env, stored, ck, src);
      StageFailureKeeps(env, stored, Walk(kept, ck.server), index, ck.cidr.prefix, src);
    }
  }

  /** A failure from the server's prepDevice on leaves the slice untouched. */
  lemma {:induction false} StageFailureKeeps(env: Env, stored: seq<WgConfig>, allIPs: seq<IPAddress>, index: nat, prefix: PrefixLen, src: Entropy)
    requires index < |allIPs|
    requires ServerStage(env, stored, allIPs, index, prefix, src).err.Some?
    ensures ServerStage(env, stored, allIPs, index, prefix, src).Peers == stored
  {
    ServedFailureKeeps(env, stored, allIPs, index, prefix, Prepped(env, stored, index + 1, allIPs[index], None, src));
  }

  /** A failure from the server's preparation on leaves the slice untouched. */
  lemma {:induction false} ServedFailureKeeps(env: Env, stored: seq<WgConfig>, allIPs: seq<IPAddress>, index: nat, prefix: PrefixLen, sp: Prep)
    requires Served(env, stored, allIPs, index, prefix, sp).err.Some?
    ensures Served(env, stored, allIPs, index, prefix, sp).Peers == stored
  {
    if sp.err == None && ValidateServer(sp.record) == None {
      var b := PrepBatch(env, stored, allIPs, 0, sp.record, Batch(None, StoredMap(stored)[index + 1 := sp.record], [], sp.rest));
      assert Served(env, stored, allIPs, index, prefix, sp) == Finished(env, stored, index, prefix, sp.record, b);
    }
  }

  /** A server address the walker skips (last octet 0 or 255) is rejected through the index -1. */
  lemma {:induction false} GeneratedSkippedServer(env: Env, Peers: seq<WgConfig>, peers: map<nat, WgConfig>, parsers: Parsers, src: Entropy)
    requires CheckInput(env.form, parsers).Ok? && !Usable(CheckInput(env.form, parsers).value.server)
    ensures var stored := Cleared(Peers, env.form.resetAll);
      Generated(env, Peers, peers, parsers, src) == Outcome(Some(ServerIndexInvalid(-1)), stored, StoredMap(stored))
  {
    var ck := CheckInput(env.form, parsers).value;
    KeptMembers(ck.cidr.ip, End(ck.cidr));
  }

  /**
    A successful run leaves the map empty, and the walk's records at the front
    of the slice: position j holds id j+1 and the dotted form of the j-th kept
    address.
  */
  lemma {:induction false} GeneratedWalkRecords(env: Env, Peers: seq<WgConfig>, peers: map<nat, WgConfig>, parsers: Parsers, src: Entropy)
    requires Generated(env, Peers, peers, parsers, src).err == None
    ensures CheckInput(env.form, parsers).Ok?
    ensures var ck := CheckInput(env.form, parsers).value;
      var kept := Kept(ck.cidr.ip, End(ck.cidr));
      var out := Generated(env, Peers, peers, parsers, src).Peers;
      |kept| <= |out| && forall j :: 0 <= j < |kept| ==> out[j].id == j + 1 && out[j].ip == Dotted(kept[j])
    ensures Generated(env, Peers, peers, parsers, src).peers == map[]
  {
    GeneratedShaped(env, Peers, peers, parsers, src);
    var ck := CheckInput(env.form, parsers).value;
    var kept := Kept(ck.cidr.ip, End(ck.cidr));
    KeptIncreasing(ck.cidr.ip, End(ck.cidr));
    WalkRecords(env, Cleared(Peers, env.form.resetAll), kept, ck.server, ck.cidr.prefix, Generated(env, Peers, peers, parsers, src).Peers);
  }

  /** After a successful run exactly one record of the slice is flagged as the server: the one at the server's address. */
  lemma {:induction false} GeneratedOneServer(env: Env, Peers: seq<WgConfig>, peers: map<nat, WgConfig>, parsers: Parsers, src: Entropy)
    requires Generated(env, Peers, peers, parsers, src).err == None
    ensures CheckInput(env.form, parsers).Ok?
    ensures var ck := CheckInput(env.form, parsers).value;
      var kept := Kept(ck.cidr.ip, End(ck.cidr));
      var out := Generated(env, Peers, peers, parsers, src).Peers;
      forall j :: 0 <= j < |out| ==> (out[j].isServer <==> j < |kept| && kept[j] == ck.server)
  {
    GeneratedShaped(env, Peers, peers, parsers, src);
    var ck := CheckInput(env.form, parsers).value;
    var kept := Kept(ck.cidr.ip, End(ck.cidr));
    KeptIncreasing(ck.cidr.ip, End(ck.cidr));
    WalkRecords(env, Cleared(Peers, env.form.resetAll), kept, ck.server, ck.cidr.prefix, Generated(env, Peers, peers, parsers, src).Peers);
  }

  /** The walk's records in a Shaped slice, in terms of the kept addresses. */
  lemma {:induction false} WalkRecords(env: Env, stored: seq<WgConfig>, kept: seq<nat>, server: nat, prefix: PrefixLen, out: seq<WgConfig>)
    requires forall i, j :: 0 <= i < j < |kept| ==> kept[i] < kept[j]
    requires forall k :: 0 <= k < |stored| ==> !stored[k].isServer
    requires ShapedSlice(env, stored, Walk(kept, server), IndexOf(kept, server), prefix, out)
    ensures |kept| <= |out|
    ensures forall j :: 0 <= j < |kept| ==> out[j].id == j + 1 && out[j].ip == Dotted(kept[j])
    ensures forall j :: 0 <= j < |out| ==> (out[j].isServer <==> j < |kept| && kept[j] == server)
  {
    assert Shaped(env, stored, Walk(kept, server), IndexOf(kept, server), prefix, out);
    WalkText(kept, server);
    ShapedIds(env, stored, Walk(kept, server), IndexOf(kept, server), prefix, out);
    ShapedOneServer(env, stored, Walk(kept, server), IndexOf(kept, server), prefix, out);
    ServerAt(kept, server);
  }

  /** On a first run, or with ResetAll, the slice is exactly the walk: length N, position j holding id j+1. */
  lemma {:induction false} GeneratedFirstRun(env: Env, Peers: seq<WgConfig>, peers: map<nat, WgConfig>, parsers: Parsers, src: Entropy)
    requires Generated(env, Peers, peers, parsers, src).err == None
    requires Peers == [] || env.form.resetAll
    ensures CheckInput(env.form, parsers).Ok?
    ensures var ck := CheckInput(env.form, parsers).value;
      var out := Generated(env, Peers, peers, parsers, src).Peers;
      && |out| == |Kept(ck.cidr.ip, End(ck.cidr))|
      && (forall j :: 0 <= j < |out| ==> out[j].id == j + 1)
  {
    GeneratedShaped(env, Peers, peers, parsers, src);
    var ck := CheckInput(env.form, parsers).value;
    var kept := Kept(ck.cidr.ip, End(ck.cidr));
    ShapedFirstRun(env, Walk(kept, ck.server), IndexOf(kept, ck.server), ck.cidr.prefix, Generated(env, Peers, peers, parsers, src).Peers);
  }

  /**
    A first run, or one with ResetAll, over a parser that reads canonical
    text as written: the slice lists the usable addresses of the network, in
    increasing order, as the records with ids 1 to N, and nothing else.
  */
  lemma {:induction false} GeneratedNetwork(env: Env, Peers: seq<WgConfig>, peers: map<nat, WgConfig>, parsers: Parsers, src: Entropy)
    requires Generated(env, Peers, peers, parsers, src).err == None
    requires Peers == [] || env.form.resetAll
    requires ReadsCanonical(parsers)
    ensures CheckInput(env.form, parsers).Ok?
    ensures var c := CheckInput(env.form, parsers).value.cidr;
      var kept := Kept(Base(c), End(c));
      var out := Generated(env, Peers, peers, parsers, src).Peers;
      && |out| == |kept|
      && (forall j :: 0 <= j < |out| ==> out[j].id == j + 1 && out[j].ip == Dotted(kept[j]))
      && (forall a :: a in kept <==> Contains(c, a) && Usable(a))
  {
    GeneratedFirstRun(env, Peers, peers, parsers, src);
    GeneratedWalkRecords(env, Peers, peers, parsers, src);
    CheckedAtBase(env.form, parsers);
  }

  /**
    With a stored slice, a successful run keeps it past the walk under Go's
    0-based keys: position j >= N holds the stored record j+1, and the last
    position, when the stored slice is no longer than N, the zero record
    (the key 0 the clearing pass adds counts in the map's size).
  */
  lemma {:induction false} GeneratedRerun(env: Env, Peers: seq<WgConfig>, peers: map<nat, WgConfig>, parsers: Parsers, src: Entropy)
    requires Generated(env, Peers, peers, parsers, src).err == None
    requires Peers != [] && !env.form.resetAll
    ensures CheckInput(env.form, parsers).Ok?
    ensures var ck := CheckInput(env.form, parsers).value;
      RerunTail(Peers, |Kept(ck.cidr.ip, End(ck.cidr))|, Generated(env, Peers, peers, parsers, src).Peers)
  {
    GeneratedShaped(env, Peers, peers, parsers, src);
    var ck := CheckInput(env.form, parsers).value;
    var kept := Kept(ck.cidr.ip, End(ck.cidr));
    ShapedRerun(env, Peers, Walk(kept, ck.server), IndexOf(kept, ck.server), ck.cidr.prefix,
                Generated(env, Peers, peers, parsers, src).Peers);
  }

  /**
    The slice a rerun leaves past the n records of the walk: the stored
    records under Go's 0-based keys, their flags cleared, and the zero record
    last.
  */
  ghost predicate RerunTail(Peers: seq<WgConfig>, n: nat, out: seq<WgConfig>) {
    && |out| == Max(|Peers|, n + 1)
    && (forall j :: n <= j < |out| ==> out[j] == if j + 1 < |Peers| then Peers[j + 1].(isServer := false) else ZERO_CONFIG)
    && out[|out| - 1] == ZERO_CONFIG
  }

  /** Past the walk a Shaped slice over a stored slice holds the stored records under their 0-based keys, then the zero record. */
  lemma {:induction false} ShapedRerun(env: Env, Peers: seq<WgConfig>, allIPs: seq<IPAddress>, index: int, prefix: PrefixLen, out: seq<WgConfig>)
    requires Peers != []
    requires ShapedSlice(env, Cleared(Peers, false), allIPs, index, prefix, out)
    ensures RerunTail(Peers, |allIPs|, out)
  {
    var stored := Cleared(Peers, false);
    assert Shaped(env, stored, allIPs, index, prefix, out);
    assert ShapedTail(stored, |allIPs|, out);
    forall j | |allIPs| <= j < |out| && j + 1 < |Peers|
      ensures out[j] == Peers[j + 1].(isServer := false)
    {
      assert out[j] == stored[j + 1];
    }
  }

  /**
    The server's file after a successful run, with the spool held as it is or
    compressed by a codec whose decompression undoes its compression: the
    header, then one stanza per other record of the walk, in walk order.
  */
  lemma {:induction false} GeneratedServerFile(env: Env, Peers: seq<WgConfig>, peers: map<nat, WgConfig>, parsers: Parsers, src: Entropy)
    requires Generated(env, Peers, peers, parsers, src).err == None
    requires !env.useGzip || RoundTrip(env.codec)
    ensures CheckInput(env.form, parsers).Ok?
    ensures var ck := CheckInput(env.form, parsers).value;
      ServerFileOfWalk(env, Kept(ck.cidr.ip, End(ck.cidr)), ck.server, ck.cidr.prefix, Generated(env, Peers, peers, parsers, src).Peers)
  {
    GeneratedShaped(env, Peers, peers, parsers, src);
    var ck := CheckInput(env.form, parsers).value;
    var kept := Kept(ck.cidr.ip, End(ck.cidr));
    WalkServerFile(env, Cleared(Peers, env.form.resetAll), kept, ck.server, ck.cidr.prefix, Generated(env, Peers, peers, parsers, src).Peers);
  }

  /**
    The server's file for a walk over the kept addresses: at the server's
    index, its header followed by one stanza per other record of the walk, in
    walk order.
  */
  ghost predicate ServerFileOfWalk(env: Env, kept: seq<nat>, server: nat, prefix: PrefixLen, out: seq<WgConfig>) {
    var index := IndexOf(kept, server);
    && 0 <= index < |kept| <= |out|
    && out[index].config == ServerHeader(out[index], env.form, prefix) + Concat(PeerStanzas(out, |kept|))
    && |PeerStanzas(out, |kept|)| == |kept| - 1
  }

  /** The server's file of a Shaped slice, in terms of the kept addresses. */
  lemma {:induction false} WalkServerFile(env: Env, stored: seq<WgConfig>, kept: seq<nat>, server: nat, prefix: PrefixLen, out: seq<WgConfig>)
    requires !env.useGzip || RoundTrip(env.codec)
    requires ShapedSlice(env, stored, Walk(kept, server), IndexOf(kept, server), prefix, out)
    ensures ServerFileOfWalk(env, kept, server, prefix, out)
  {
    var allIPs := Walk(kept, server);
    assert Shaped(env, stored, allIPs, IndexOf(kept, server), prefix, out);
    ShapedServerFile(env, stored, allIPs, IndexOf(kept, server), prefix, out);
    ShapedStanzaCount(env, stored, allIPs, IndexOf(kept, server), prefix, out);
  }
}
