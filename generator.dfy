/**
  The Configuration of gen/models.go and its Generate method
  (gen/generator.go:280-628), run sequentially: each step is a method on the
  configuration's fields, proved to compute what the functions of module
  Generation say.
*/
module Generator {
  import opened Text
  import opened NetLib
  import opened Models
  import opened Rules
  import opened Render
  import opened Walker
  import opened Generation

  /** The batch loop's chunk size (gen/generator.go:576). */
  const CHUNK_SIZE: nat := 1000

  /**
    The batch run from position l on, starting in state cur, ends in state
    final. The run is named under a quantifier whose trigger is the run itself,
    so that a method holding this fact does not unfold the run until it names it.
    Logically it is just l <= |allIPs|, cur.err == None and
    PrepBatch(env, stored, allIPs, l, server, cur) == final.
  */
  ghost predicate Reaches(env: Env, stored: seq<WgConfig>, allIPs: seq<IPAddress>, l: nat, server: WgConfig, cur: Batch, final: Batch) {
    && l <= |allIPs| && cur.err == None
    && forall n: nat {:trigger PrepBatch(env, stored, allIPs, n, server, cur)} ::
         n == l ==> PrepBatch(env, stored, allIPs, n, server, cur) == final
  }

  /**
    The generation session: the form and the gzip switch, the parsed inputs,
    the stored records (Peers) and the map the run fills (peers).
  */
  class Configuration {
    var generationParams: GenerationForm
    var useGzipDuringProcessing: bool
    var serverIP: nat
    var firstIP: seq<byte>
    var network: Cidr
    var Peers: seq<WgConfig>
    var peers: map<nat, WgConfig>

    constructor(form: GenerationForm, useGzip: bool, stored: seq<WgConfig>)
      ensures generationParams == form && useGzipDuringProcessing == useGzip
      ensures Peers == stored && peers == map[]
    {
      generationParams, useGzipDuringProcessing := form, useGzip;
      serverIP, firstIP, network := 0, [], Cidr(0, 0);
      Peers, peers := stored, map[];
    }

    /**
      Configuration.Generate (gen/generator.go:280-628): the input checks,
      which leave everything as it was when they fail; then the parsed inputs
      kept in the session (gen/generator.go:315-317), the map made empty
      (gen/generator.go:320), the reset and the clearing, and the rest of the
      run.
    */
    method Generate(parsers: Parsers, derive: string -> string, codec: Codec, src: Entropy) returns (err: Option<Error>)
      modifies this`firstIP, this`network, this`serverIP, this`Peers, this`peers
      ensures Outcome(err, Peers, peers) ==
        Generated(Env(generationParams, useGzipDuringProcessing, derive, codec), old(Peers), old(peers), parsers, src)
      ensures match CheckInput(generationParams, parsers)
        case Fail(_) => firstIP == old(firstIP) && network == old(network) && serverIP == old(serverIP)
        case Ok(ck) => firstIP == Mapped(ck.cidr.ip) && network == ck.cidr && serverIP == ck.server
    {
      var r := ParseInputs(parsers);
      if r.Fail? {
        return Some(r.error);
      }
      firstIP, network, serverIP := Mapped(r.value.cidr.ip), r.value.cidr, r.value.server;
      peers := map[];
      ClearPeers();
      err := RunWalk(derive, codec, src);
    }

    /**
      The walk and the server's index check (gen/generator.go:386-421 and
      541-548): the addresses of the network from its first one, then the
      server's stage when the walker noted the server at a flagged position.
    */
    method RunWalk(derive: string -> string, codec: Codec, src: Entropy) returns (err: Option<Error>)
      requires firstIP == Mapped(network.ip)
      requires peers == StoredMap(Peers) && forall k :: 0 <= k < |Peers| ==> !Peers[k].isServer
      modifies this`Peers, this`peers
      ensures Outcome(err, Peers, peers) ==
        Run(Env(generationParams, useGzipDuringProcessing, derive, codec), old(Peers), Checked(network, serverIP), src)
    {
      ghost var env, stored := Env(generationParams, useGzipDuringProcessing, derive, codec), Peers;
      var allIPs, serverIPIndex := WalkNetwork();
      if serverIPIndex >= 0 && allIPs[serverIPIndex].isServerIP {
        err := PrepareServer(allIPs, serverIPIndex, derive, codec, src);
      } else {
        RunRejects(env, stored, Checked(network, serverIP), src);
        err := Some(ServerIndexInvalid(serverIPIndex));
      }
    }

    /**
      The address walk (gen/generator.go:386-421) from the session's first
      address: the kept addresses of the network, and the server's index
      among them.
    */
    method WalkNetwork() returns (allIPs: seq<IPAddress>, serverIPIndex: int)
      requires firstIP == Mapped(network.ip)
      ensures allIPs == Walk(Kept(network.ip, End(network)), serverIP)
      ensures serverIPIndex == IndexOf(Kept(network.ip, End(network)), serverIP)
    {
      var first := firstIP;
      var ip := new byte[|first|](i requires 0 <= i < |first| => first[i]);
      assert ip[..] == Mapped(network.ip);
      FirstInNetwork(network);
      allIPs, serverIPIndex := WalkAddresses(ip, network, serverIP);
    }

    /** The input checks at the top of Generate (gen/generator.go:283-313), in their order. */
    method ParseInputs(parsers: Parsers) returns (r: Result<Checked>)
      ensures r == CheckInput(generationParams, parsers)
    {
      var cidr := parsers.parseCidr(generationParams.cidr);
      if cidr == None {
        return Fail(CidrUnparsable);
      }
      if CidrText(cidr.value) != generationParams.cidr {
        return Fail(CidrMisaligned);
      }
      var server := parsers.parseIP(generationParams.server);
      if server == None {
        return Fail(ServerNotAnIP);
      }
      if !Contains(cidr.value, server.value) {
        return Fail(ServerOutsideCidr);
      }
      return Ok(Checked(cidr.value, server.value));
    }

    /**
      The reset (gen/generator.go:330-332) and the clearing pass
      (gen/generator.go:337-343): every stored record loses its server flag
      and goes into the map under its 0-based position.
    */
    method ClearPeers()
      requires peers == map[]
      modifies this`Peers, this`peers
      ensures Peers == Cleared(old(Peers), generationParams.resetAll)
      ensures peers == StoredMap(Peers)
    {
      if generationParams.resetAll {
        Peers := [];
      }
      ghost var start := Peers;
      var i := 0;
      while i < |Peers|
        invariant 0 <= i <= |Peers| == |start|
        invariant forall k :: 0 <= k < i ==> Peers[k] == start[k].(isServer := false)
        invariant forall k :: i <= k < |Peers| ==> Peers[k] == start[k]
        invariant peers == map k: nat | k < i :: Peers[k]
      {
        if Peers[i].isServer {
          Peers := Peers[i := Peers[i].(isServer := false)];
        }
        peers := peers[i := Peers[i]];
        i := i + 1;
      }
      assert Peers == Cleared(old(Peers), generationParams.resetAll);
    }

    /**
      prepDevice (gen/generator.go:447-515): record i seeded from the stored
      record i-1, the soft, forced and key passes, and, once the server is
      known and for a record that is not the server, its file and its stanza
      appended to the spool; then the record stored under i.
    */
    method PrepDevice(i: nat, ip: IPAddress, server: Option<WgConfig>, derive: string -> string, codec: Codec,
                      src: Entropy, spool: seq<string>)
      returns (err: Option<Error>, rest: Entropy, spool': seq<string>)
      requires 1 <= i
      modifies this`peers
      ensures var p := Prepped(Env(old(generationParams), old(useGzipDuringProcessing), derive, codec), old(Peers), i, ip, server, src);
        && err == p.err
        && (err == None ==> peers == old(peers)[i := p.record] && rest == p.rest
                            && spool' == spool + (if p.entry.Some? then [p.entry.value] else []))
        && (err != None ==> peers == old(peers) && spool' == spool)
    {
      ghost var p := Prepped(Env(generationParams, useGzipDuringProcessing, derive, codec), Peers, i, ip, server, src);
      var w := if i <= |Peers| then Peers[i - 1] else ZERO_CONFIG;
      w := w.(id := i, ip := ip.s, isServer := ip.isServerIP);
      w := ApplySoftRules(w, generationParams);
      w := ApplyForcedRules(w, generationParams);
      assert w == Merged(generationParams, Peers, i, ip);
      err, w, rest := ApplyKeyRules(w, generationParams.regenerateKeys, src, derive);
      spool' := spool;
      if err != None {
        assert p.err == err;
        return;
      }
      if server.Some? && !w.isServer {
        var peerConf := GenerateConfig(w, server.value);
        w := w.(config := peerConf);
        var serverPeer := ServerPeer(w);
        var entry := serverPeer;
        if useGzipDuringProcessing {
          var gz := codec.gzip(serverPeer);
          if gz == None {
            err := Some(GzipFailed);
            assert p.err == err;
            return;
          }
          entry := gz.value;
        }
        assert p == Prep(None, w, Some(entry), rest);
        spool' := spool + [entry];
      } else {
        assert p == Prep(None, w, None, rest);
      }
      peers := peers[i := w];
    }

    /**
      One position of the batch loop (gen/generator.go:585-594): the server's
      own address is passed over, any other is prepared against the server.
    */
    method PrepareAt(ghost env: Env, ghost stored: seq<WgConfig>, allIPs: seq<IPAddress>, l: nat, server: WgConfig,
                     derive: string -> string, codec: Codec, keys: Entropy, spool: seq<string>, ghost final: Batch)
      returns (err: Option<Error>, keys': Entropy, spool': seq<string>)
      requires env == Env(generationParams, useGzipDuringProcessing, derive, codec) && stored == Peers
      requires l < |allIPs| && Reaches(env, stored, allIPs, l, server, Batch(None, peers, spool, keys), final)
      modifies this`peers
      ensures err == None ==> Reaches(env, stored, allIPs, l + 1, server, Batch(None, peers, spool', keys'), final)
      ensures err != None ==> err == final.err && peers == final.peers && spool' == final.spool
    {
      ghost var b := PrepBatch(env, stored, allIPs, l, server, Batch(None, peers, spool, keys));
      keys', spool' := keys, spool;
      err := None;
      if !allIPs[l].isServerIP {
        var e;
        e, keys', spool' := PrepDevice(l + 1, allIPs[l], Some(server), derive, codec, keys, spool);
        if e != None {
          err := Some(PeerPrepFailed(l + 1, e.value));
        }
      }
    }

    /**
      One chunk of the batch loop (gen/generator.go:582-595): positions j to
      end-1 in order, stopping at the first failure.
    */
    method PrepareChunk(ghost env: Env, ghost stored: seq<WgConfig>, allIPs: seq<IPAddress>, j: nat, end: nat,
                        server: WgConfig, derive: string -> string, codec: Codec, keys: Entropy, spool: seq<string>,
                        ghost final: Batch)
      returns (err: Option<Error>, keys': Entropy, spool': seq<string>)
      requires env == Env(generationParams, useGzipDuringProcessing, derive, codec) && stored == Peers
      requires j <= end <= |allIPs| && Reaches(env, stored, allIPs, j, server, Batch(None, peers, spool, keys), final)
      modifies this`peers
      ensures err == None ==> Reaches(env, stored, allIPs, end, server, Batch(None, peers, spool', keys'), final)
      ensures err != None ==> err == final.err && peers == final.peers && spool' == final.spool
    {
      err, keys', spool' := None, keys, spool;
      var l := j;
      while l < end
        invariant j <= l <= end && err == None
        invariant env == Env(generationParams, useGzipDuringProcessing, derive, codec) && stored == Peers
        invariant Reaches(env, stored, allIPs, l, server, Batch(None, peers, spool', keys'), final)
      {
        err, keys', spool' := PrepareAt(env, stored, allIPs, l, server, derive, codec, keys', spool', final);
        if err != None {
          return;
        }
        l := l + 1;
      }
    }

    /**
      The batch loop (gen/generator.go:576-596), in order: chunks of
      CHUNK_SIZE positions, every position but the server's prepared against
      the server; the first failure ends the run (log.Fatalf in the source).
    */
    method PrepareBatch(ghost env: Env, ghost stored: seq<WgConfig>, allIPs: seq<IPAddress>, server: WgConfig,
                        derive: string -> string, codec: Codec, src: Entropy, ghost final: Batch)
      returns (err: Option<Error>, spool: seq<string>, ghost rest: Entropy)
      requires env == Env(generationParams, useGzipDuringProcessing, derive, codec) && stored == Peers
      requires Reaches(env, stored, allIPs, 0, server, Batch(None, peers, [], src), final)
      modifies this`peers
      ensures err == final.err && peers == final.peers && spool == final.spool && (err == None ==> rest == final.rest)
    {
      err, spool := None, [];
      var keys := src;
      var ips := |allIPs|;
      var j := 0;
      rest := keys;
      while j < ips
        invariant err == None
        invariant env == Env(generationParams, useGzipDuringProcessing, derive, codec) && stored == Peers
        invariant Reaches(env, stored, allIPs, Min(j, ips), server, Batch(None, peers, spool, keys), final)
      {
        var end := j + CHUNK_SIZE;
        if end > ips {
          end := ips;
        }
        err, keys, spool := PrepareChunk(env, stored, allIPs, j, end, server, derive, codec, keys, spool, final);
        if err != None {
          return;
        }
        j := j + CHUNK_SIZE;
      }
      rest := keys;
      assert PrepBatch(env, stored, allIPs, ips, server, Batch(None, peers, spool, keys)) == final;
    }

    /**
      The end of Generate (gen/generator.go:605-621): the server's file
      written from the spool, the server stored under its id, the map read
      back into the slice at keys 1 to its size, and the map dropped.
    */
    method Assemble(ghost env: Env, ghost stored: seq<WgConfig>, ghost prefix: PrefixLen, index: nat, serverIndex: nat,
                    server: WgConfig, spool: seq<string>, codec: Codec, ghost rest: Entropy)
      returns (err: Option<Error>)
      requires env == Env(generationParams, useGzipDuringProcessing, env.derive, codec) && stored == Peers
      requires prefix == network.prefix && serverIndex == index + 1
      modifies this`Peers, this`peers
      ensures Outcome(err, Peers, peers) == Finished(env, stored, index, prefix, server, Batch(None, old(peers), spool, rest))
    {
      var config;
      err, config := GenerateServerConfig(server, generationParams, network.prefix, spool, useGzipDuringProcessing, codec);
      if err != None {
        return;
      }
      peers := peers[serverIndex := server.(config := config)];
      SlicePeers();
    }

    /**
      The map read back into the slice (gen/generator.go:612-616): the records
      under keys 1 to the map's size, in order, a missing key reading as the
      zero record; then the map dropped.
    */
    method SlicePeers()
      modifies this`Peers, this`peers
      ensures Peers == Sliced(old(peers)) && peers == map[]
    {
      var slice := [];
      var i := 1;
      var m := peers;
      while i <= |m|
        invariant 1 <= i <= |m| + 1
        invariant slice == seq(i - 1, k requires 0 <= k < i - 1 => Lookup(m, k + 1))
      {
        slice := slice + [Lookup(m, i)];
        i := i + 1;
      }
      Peers := slice;
      peers := map[];
    }

    /**
      The server's stage (gen/generator.go:551-609): the server prepared first
      and stored under its id, found again in the map by its flag, validated,
      then the batch and the server's file.
    */
    method PrepareServer(allIPs: seq<IPAddress>, index: nat, derive: string -> string, codec: Codec, src: Entropy)
      returns (err: Option<Error>)
      requires index < |allIPs| && allIPs[index].isServerIP
      requires peers == StoredMap(Peers) && forall k :: 0 <= k < |Peers| ==> !Peers[k].isServer
      modifies this`Peers, this`peers
      ensures var env := Env(old(generationParams), old(useGzipDuringProcessing), derive, codec);
        Outcome(err, Peers, peers) == ServerStage(env, old(Peers), allIPs, index, old(network.prefix), src)
    {
      ghost var env := Env(generationParams, useGzipDuringProcessing, derive, codec);
      ghost var stored, prefix := Peers, network.prefix;
      ghost var sp := Prepped(env, stored, index + 1, allIPs[index], None, src);
      var perr, rest, spool := PrepDevice(index + 1, allIPs[index], None, derive, codec, src, []);
      if perr != None {
        err := Some(ServerPrepFailed(perr.value));
        return;
      }
      PreppedRecord(env, stored, index + 1, allIPs[index], None, src);
      err := FindAndServe(env, stored, allIPs, index, sp, derive, codec, rest);
    }

    /**
      Once the server is prepared and stored under its id
      (gen/generator.go:551-609): the server found again in the map by its
      flag, validated, then the batch and the server's file.
    */
    method FindAndServe(ghost env: Env, ghost stored: seq<WgConfig>, allIPs: seq<IPAddress>, index: nat, ghost sp: Prep,
                        derive: string -> string, codec: Codec, rest: Entropy)
      returns (err: Option<Error>)
      requires env == Env(generationParams, useGzipDuringProcessing, derive, codec) && stored == Peers
      requires index < |allIPs| && sp.err == None && sp.record.isServer && rest == sp.rest
      requires forall k :: 0 <= k < |stored| ==> !stored[k].isServer
      requires peers == StoredMap(stored)[index + 1 := sp.record]
      modifies this`Peers, this`peers
      ensures Outcome(err, Peers, peers) == Served(env, stored, allIPs, index, old(network.prefix), sp)
    {
      assert index + 1 in peers && peers[index + 1].isServer;
      var serverIndex := FindServer();
      assert serverIndex == index + 1;
      var server := peers[serverIndex];
      err := ValidateServer(server);
      if err != None {
        return;
      }
      err := FinishServer(env, stored, network.prefix, allIPs, index, serverIndex, server, derive, codec, rest);
    }

    /**
      The search for the server's record in the map (gen/generator.go:551-569):
      some key whose record carries the server flag, in the map's iteration
      order, which is not fixed.
    */
    method FindServer() returns (serverIndex: nat)
      requires exists k :: k in peers && peers[k].isServer
      ensures serverIndex in peers && peers[serverIndex].isServer
    {
      serverIndex :| serverIndex in peers && peers[serverIndex].isServer;
    }

    /** The batch and the server's file (gen/generator.go:576-616), once the server is prepared and valid. */
    method FinishServer(ghost env: Env, ghost stored: seq<WgConfig>, ghost prefix: PrefixLen, allIPs: seq<IPAddress>,
                        index: nat, serverIndex: nat, server: WgConfig, derive: string -> string, codec: Codec, rest: Entropy)
      returns (err: Option<Error>)
      requires env == Env(generationParams, useGzipDuringProcessing, derive, codec) && stored == Peers
      requires prefix == network.prefix && serverIndex == index + 1
      modifies this`Peers, this`peers
      ensures Outcome(err, Peers, peers) ==
        Finished(env, stored, index, prefix, server, PrepBatch(env, stored, allIPs, 0, server, Batch(None, old(peers), [], rest)))
    {
      ghost var final := PrepBatch(env, stored, allIPs, 0, server, Batch(None, peers, [], rest));
      var spool;
      ghost var keys;
      err, spool, keys := PrepareBatch(env, stored, allIPs, server, derive, codec, rest, final);
      if err != None {
        return;
      }
      assert final == Batch(None, peers, spool, keys);
      err := Assemble(env, stored, prefix, index, serverIndex, server, spool, codec, keys);
    }
  }
}
