# go-wgnetlib peer generator, modelled in Dafny

go-wgnetlib generates WireGuard configurations for every usable address of an
IPv4 network. One address is the server; every other address is a peer.
`Configuration.Generate` does the work:

1. It checks the CIDR and the server address.
2. It clears the server flag of the stored records and copies them into a map.
3. It walks the network with `NextIP`, skipping addresses that end in `.0` or
   `.255`.
4. It prepares the server with `prepDevice` and checks it.
5. It prepares every other address in chunks of 1000. Each peer record is
   seeded from the stored record at the same position, then it passes through:
   - the soft rules (fill empty fields from the form, expand `${id}`/`${name}`);
   - the forced rules (overwrite flagged fields);
   - the key rules (draw missing keys).

   Each peer's configuration file is rendered against the server, and the
   peer's `[Peer]` stanza is spooled, gzipped when asked to.
6. It writes the server's file: the interface header, then the spool read back.
7. It reads the map back into the `Peers` slice.

The project has eight modules:

- `Models` (`models.dfy`) holds the records of `gen/models.go`, the defaults
  of `gen/constants.go`, the error values and the zero record.
- `Text` (`text.dfy`) holds decimal formatting, `strings.ReplaceAll`, and
  lines and concatenation of text.
- `NetLib` (`netlib.dfy`) models `NextIP` as a method over a byte array,
  proved against a big-endian increment. It also holds `EstimateNetworkSize`,
  the 16-byte IPv4-mapped form and the dotted form.
- `Rules` (`rules.dfy`) holds the three rule passes and `validateServer`.
  Each pass is a method proved equal to a specification function, with
  lemmas about those functions.
- `Render` (`render.dfy`) holds `GenerateConfig`, the server header, the
  `[Peer]` stanza, the spool and `GenerateServerConfig`.
- `Walker` (`walker.dfy`) holds the input checks and the address walk. The
  walk is a method proved to return the usable addresses from the parsed
  address to the end of the network block, in order. `Walker.CheckedAtBase`
  covers the hypothesis `ReadsCanonical`: the parser reads a network's
  canonical text as written. Under it, an input that passes the checks
  begins at the network address. The walk is then exactly the network's
  usable addresses. The `Generation` lemmas are stated over the checked
  input `CheckInput(..).value`, so `CheckedAtBase` applies to each of them.
  `Generation.GeneratedNetwork` puts them together for a first run.
- `Generation` (`generation.dfy`) holds functions stating what one run of
  `Generate` computes, with lemmas about them:
  - failures leave the slice alone;
  - one record is flagged as the server;
  - first-run shape;
  - re-run shape under Go's 0-based keys;
  - the server's file.
- `Generator` (`generator.dfy`) holds the `Configuration` class. Its fields
  are the form, the gzip switch, the parsed inputs, the slice `Peers` and the
  map `peers`. `Generate` and its steps are methods over those fields, each
  proved to compute what the `Generation` functions say.

Key material, gzip and the two parsers are parameters:

- An `Entropy` value holds the keys still to be drawn, and running out of
  keys is a key failure.
- `derive` maps a private key to its public key.
- A `Codec` gives gzip and gunzip as partial functions. Its round trip is a
  hypothesis (`RoundTrip`), not an axiom.
- `Parsers` stands for `net.ParseCIDR` and `net.ParseIP`.

Where the code and its documentation differ, the model follows the code:

- **Walk end.** The walk ends for every prefix length, `/0` included.
  `ParseCIDR` returns the 16-byte IPv4-mapped form. `NextIP` after
  255.255.255.255 carries through bytes 11 and 10 (the 0xff marker bytes) and
  stops at byte 9. The result is an IPv6 address, which the network does not
  contain.
- **Address count.** A `/24` yields 254 addresses, .1 to .254
  (`Walker.SlashTwentyFour`).
- **Keepalive line.** The peer file's keepalive line always reads
  `PersistentKeepAlive = 25`, whatever value is set.
- **Re-run with stored records.** The clearing pass stores the old records
  under 0-based keys, while `prepDevice` writes 1-based ids. So the map then
  holds key 0, and the copy-back loop reads one key past the highest:
  - position j >= N reads the stored record j+1;
  - the last position reads the zero record.

  The model keeps this behaviour (`Generation.GeneratedRerun`). The clean
  guarantee holds for a first run, or one with `ResetAll`
  (`Generation.GeneratedFirstRun`).

## Model

| member | source | states |
|---|---|---|
| NetLib.NextIP | pkg/wgnetlib/helpers.go:58-70 | returns a fresh array (the argument is untouched) equal to the carry increment `Increment` of the input bytes |
| NetLib.IncrementValue | pkg/wgnetlib/helpers.go:62-69 | read big-endian, the incremented bytes are the input plus one modulo 256^len |
| NetLib.IncrementCarry | pkg/wgnetlib/helpers.go:62-67 | trailing 0xFF bytes become 0x00, the first non-0xFF byte from the right goes up by one, the bytes left of it are unchanged |
| NetLib.IncrementAllOnes | pkg/wgnetlib/helpers.go:62-67 | all-0xFF input wraps to all zeros |
| NetLib.EstimateNetworkSize | pkg/wgnetlib/helpers.go:46-52 | for prefix p the estimate times 2^p is 2^32, i.e. it is 2^(32-p) |
| NetLib.Increment | pkg/wgnetlib/helpers.go:58-70 | the increment keeps the length of the address |
| NetLib.MappedStep | pkg/wgnetlib/helpers.go:58-70 | NextIP on the IPv4-mapped form of v below 2^32 is the mapped form of v+1 |
| NetLib.MappedForm | pkg/wgnetlib/helpers.go:58-70 | the mapped form is ten zero bytes, 0xFF 0xFF and the four address bytes; past 255.255.255.255 the carry reaches byte 9 and clears the 0xFF bytes |
| NetLib.MappedV4 | gen/generator.go:386-421 | the mapped form of v is an IPv4 address exactly when v < 2^32, and reads back as v |
| NetLib.V4Mapped | gen/generator.go:386-421 | an IPv4 16-byte address is the mapped form of its value |
| NetLib.AtStep | gen/generator.go:403-419 | stepping the walker's address with NextIP moves its position by one |
| NetLib.DottedSuffix | gen/generator.go:402-407 | the dotted text ends in ".0" iff the last octet is 0, and in ".255" iff it is 255 |
| NetLib.DotSuffix | gen/generator.go:403 | the suffix test compares the whole last octet, not a trailing part of it (".255" does not match ".55") |
| NetLib.ToBytesValue | pkg/wgnetlib/helpers.go:62-69 | a number below 256^len written in len bytes reads back as itself |
| NetLib.BigEndianToBytes | pkg/wgnetlib/helpers.go:62-69 | bytes read as a number and written back in the same length are the same bytes |
| Text.Decimal | gen/generator.go:24 | strconv.FormatUint base 10: non-empty digits, no leading zero, one digit iff below 10 |
| Text.DecimalRoundTrip | gen/generator.go:24 | the decimal text of n reads back as n |
| Text.DecimalInjective | gen/generator.go:24 | different ids have different decimal texts |
| Text.ReplaceAllAbsent | gen/generator.go:24-37 | strings.ReplaceAll without an occurrence of the pattern returns the text unchanged |
| Text.ReplaceAllSelf | gen/generator.go:24-37 | replacing a pattern by itself returns the text unchanged |
| Text.ReplaceAllRemovesPattern | gen/generator.go:24-37 | after replacing with a text that shares no character with the pattern, the pattern no longer occurs |
| Text.LinesSplit | gen/generator.go:164-198 | splitting at a newline splits the line list there |
| Text.LinesJoin | gen/generator.go:164-198 | the lines of joined texts are the lines of each text, in order |
| Rules.ApplySoftRules | gen/generator.go:18-69 | returns the record with exactly the soft fill `SoftFilled` applied |
| Rules.SoftFilledPreserves | gen/generator.go:18-66 | non-empty Name, Description, Extra, AllowedIPs, DNS, keepalive, MTU, Endpoint, EndpointPort come out unchanged, as do the id, address, server flag, file and keys; AllowedIPs and MTU are never left empty |
| Rules.MergePrecedence | gen/generator.go:18-143 | after the soft then forced passes each field is the forced form value, else the record's own value, else the soft fill (AllowedIPs default "0.0.0.0/0", MTU default 1280 whatever the form's MTU); DNS is never written on a server record |
| Rules.SoftNameExpanded | gen/generator.go:22-25 | a soft-filled Name has no "${id}" left |
| Rules.SoftNameVerbatim | gen/generator.go:22-25 | a name template without "${id}" is copied verbatim |
| Rules.SoftFilledIdempotent | gen/generator.go:18-69 | applying the soft rules twice is the same as once |
| Rules.DecimalDisjointFromToken | gen/generator.go:24 | a token with no digit shares no character with a decimal id |
| Rules.ApplyForcedRules | gen/generator.go:101-143 | returns the record with exactly the forced overwrite `Forced` applied |
| Rules.ApplyKeyRules | gen/generator.go:73-96 | fails with PrivateKeyFailed or PreSharedKeyFailed exactly when a needed key cannot be drawn; otherwise returns the rekeyed record and the keys left |
| Rules.RekeyedKeys | gen/generator.go:73-96 | when a pair is needed (a key missing or RegenerateKeys on) the private key is the next draw and the public key is derived from it; when a pre-shared key is needed (missing or RegenerateKeys on) it is the next draw; both keys kept when both present and RegenerateKeys off; the pre-shared key kept when present and RegenerateKeys off; no other field changes; keys non-empty given non-empty draws |
| Rules.GeneratePrivateKey | gen/generator.go:79-85 | draws the next private key, or fails with none left |
| Rules.GeneratePreSharedKey | gen/generator.go:92 | draws the next pre-shared key, or fails with none left |
| Rules.ValidateServer | gen/generator.go:145-162 | succeeds iff id != 0, both keys non-empty and the address non-empty; the errors come in the order id, keys, address |
| Render.GenerateConfigLines | gen/generator.go:164-198 | the peer file is `[Interface]`, the Extra lines iff Extra is set, the template lines with the server's public key under [Peer], `Endpoint = e:p`, `AllowedIPs = a`, and `PersistentKeepAlive = 25` iff a keepalive is set |
| Render.ServerPeerLines | gen/generator.go:488-493 | a spooled stanza is `[Peer]`, the peer's public key, `ip/32`, its pre-shared key and an empty line |
| Render.ServerHeaderLines | gen/generator.go:205-243 | the server header's lines: Extra iff set, the server's key and `ip/prefix`, the form's ListenPort, DNS iff set, the form's MTU, the PostUp and PostDown iptables lines |
| Render.ServerHeaderUsesForm | gen/generator.go:238-240 | the header does not depend on the server record's own MTU or port |
| Render.IptablesSingleLine | gen/generator.go:230-231 | each firewall command is one line |
| Render.GenerateServerConfig | gen/generator.go:205-259 | succeeds iff every spool entry reads back, and then yields the header followed by the entries read back in spool order; otherwise GunzipFailed |
| Render.SpoolRoundTrip | gen/generator.go:494-506 | with gzip off, or a codec whose gunzip undoes gzip, the spool reads back as the stanzas spooled |
| Render.UnspoolAllFails | gen/generator.go:245-256 | one entry that fails to read back fails the read-back of the whole spool |
| Walker.CheckInput | gen/generator.go:283-313 | fails with CidrUnparsable, CidrMisaligned, ServerNotAnIP or ServerOutsideCidr, in that order and each exactly under its condition; succeeds iff all pass, with the parsed network and server |
| Walker.WalkAddresses | gen/generator.go:386-421 | the walk from the parsed address is the usable addresses from there to the end of the network block, in increasing order, and the server index is the server's position among them, or -1 |
| Walker.CheckedAtBase | gen/generator.go:283-300 | for a parser that reads canonical text as written, an input that passes the checks has the network address as its parsed address, and the walk's addresses are exactly the usable addresses the network contains |
| Walker.KeptMembers | gen/generator.go:402-411 | an address is walked iff it lies in the range and its last octet is neither 0 nor 255 |
| Walker.KeptIncreasing | gen/generator.go:386-421 | the walked addresses are strictly increasing |
| Walker.Walk | gen/generator.go:413-418 | position k holds the k-th kept address and is flagged iff it is the server |
| Walker.WalkText | gen/generator.go:396-400 | position k holds the dotted text of the k-th kept address |
| Walker.IndexOf | gen/generator.go:413-416 | the server index is -1 iff the server is not kept, else its first position |
| Walker.NetworkBounds | gen/generator.go:293-294 | the network's first address, the written address and its end lie in order within the IPv4 space |
| Walker.ContainsMasked | gen/generator.go:409 | IPNet.Contains is equality of the addresses once the host bits are masked |
| Walker.FirstInNetwork | gen/generator.go:283-388 | the first address is IPv4, reads back as the written address, and lies in the network |
| Walker.WalkCount | pkg/wgnetlib/helpers.go:46-52 | the walk hands out at most EstimateNetworkSize addresses |
| Walker.SlashTwentyFour | gen/generator.go:386-421 | a /24 yields 254 addresses |
| Walker.Kept256 | gen/generator.go:402-407 | every block of 256 addresses contributes 254 |
| Walker.StepStop | gen/generator.go:409-411 | when the walk leaves the network, what it collected is the walk of the kept addresses, with the server's index |
| Generation.Cleared | gen/generator.go:330-343 | ResetAll empties the slice; otherwise the slice keeps its length and every record with its server flag cleared |
| Generation.PreppedRecord | gen/generator.go:447-515 | a successful prepDevice yields the merged record, keyed, with id i, the walked address and the server flag; a peer prepared after the server gets its file rendered against the server and spools its stanza; otherwise the old file stays and nothing is spooled |
| Generation.MergedFields | gen/generator.go:457-471 | the soft and forced passes leave the id, the address and the server flag that prepDevice set |
| Generation.PrepBatchInv | gen/generator.go:576-596 | the batch, as far as it succeeds, keeps the stored map except at the prepared ids, holds a peer record at each and spools their stanzas in walk order |
| Generation.BatchDone | gen/generator.go:576-596 | a batch that succeeds ends with every non-server address prepared |
| Generation.FinalMap | gen/generator.go:337-609 | the final map holds the 0-based keys of the stored records and the ids 1..N, the server at its id, a peer record at every other id, the stored records above N unchanged, and the spool the peers' stanzas |
| Generation.SlicedSize | gen/generator.go:612-616 | a map keyed by the 0-based keys below s and the ids 1..N reads back as a slice of length N (s = 0) or max(s, N+1), entry j holding key j+1 or the zero record when missing |
| Generation.SuccessShape | gen/generator.go:598-616 | the slice a successful batch leaves: its length, the server at its index, peer records elsewhere in the walk, the stored records past it, and the spool |
| Generation.RunRejects | gen/generator.go:541-548 | a server the walk never reached fails with index -1 and leaves the cleared slice and map |
| Generation.RunStage | gen/generator.go:541-548 | a server the walk reached makes the run go on to prepare the server at its position |
| Generation.ServedOk | gen/generator.go:551-596 | after the server's prepDevice, success means the server validated and the batch ran |
| Generation.FinishedOk | gen/generator.go:598-616 | success after the batch means the spool read back, and the slice holds the server with its header and the stanzas, the map emptied |
| Generation.GeneratedRejectsInput | gen/generator.go:283-313 | input that fails the checks leaves the slice and the map as they were |
| Generation.GeneratedSkippedServer | gen/generator.go:402-548 | a server address ending in .0 or .255 is rejected through the index -1 |
| Generation.GeneratedFailureClears | gen/generator.go:337-574 | a run that fails after the input checks leaves the slice as the reset and the clearing left it |
| Generation.RunFailureKeeps | gen/generator.go:541-616 | a failing run after the clearing leaves the slice untouched |
| Generation.ServedFailureKeeps | gen/generator.go:551-616 | a failure from the server's validation on leaves the slice untouched |
| Generation.GeneratedShaped | gen/generator.go:280-628 | a successful run leaves the slice Shaped (server, peers, tail and server file as described above) for the cleared records and the walk, and the map empty |
| Generation.GeneratedWalkRecords | gen/generator.go:413-616 | after a successful run position j of the slice holds id j+1 and the dotted j-th kept address, and the map is empty |
| Generation.GeneratedOneServer | gen/generator.go:337-586 | after a successful run exactly one record is flagged as the server: the one at the server's address |
| Generation.GeneratedNetwork | gen/generator.go:283-616 | on a first run or with ResetAll, for a parser that reads canonical text as written, the slice holds exactly one record per usable address of the network, in increasing order, with ids 1 to N |
| Generation.GeneratedFirstRun | gen/generator.go:283-616 | on a first run (no stored records) or with ResetAll the slice has length N and position j holds id j+1 |
| Generation.GeneratedRerun | gen/generator.go:337-616 | with stored records and no ResetAll, the slice has length max(stored, N+1), position j >= N holds stored record j+1 with its flag cleared, and the last position the zero record |
| Generation.GeneratedServerFile | gen/generator.go:478-609 | with gzip off or a round-tripping codec, the server's file is its header followed by one stanza per other record of the walk, in walk order |
| Generation.PeerStanzasCount | gen/generator.go:585-593 | with only the server flagged, there is one stanza per other record |
| Generation.StanzasAsPeers | gen/generator.go:488-507 | the stanzas spooled in walk order are those of the slice's non-server records |
| Generator.Configuration.Generate | gen/generator.go:280-628 | the new slice and map are exactly what the run function `Generated` gives; on failed input nothing changes, otherwise the parsed inputs are kept in the session |
| Generator.Configuration.ParseInputs | gen/generator.go:283-313 | the checks give the result `CheckInput` specifies |
| Generator.Configuration.ClearPeers | gen/generator.go:330-343 | the slice becomes the cleared slice and the map holds it under 0-based keys |
| Generator.Configuration.RunWalk | gen/generator.go:386-548 | the walk then the server's stage; the outcome is the run function `Run` |
| Generator.Configuration.WalkNetwork | gen/generator.go:386-421 | walks from the session's first address to the end of the network block: the kept addresses and the server's index |
| Generator.Configuration.PrepDevice | gen/generator.go:447-515 | the outcome of `Prepped`: on success the record is stored under its id and its entry appended to the spool; on failure neither changes |
| Generator.Configuration.PrepareServer | gen/generator.go:541-609 | the server's prepDevice then the find, the validation, the batch and the server's file, as `ServerStage` says |
| Generator.Configuration.FindAndServe | gen/generator.go:551-609 | after the server's prepDevice, the outcome of `Served` |
| Generator.Configuration.FindServer | gen/generator.go:551-569 | returns a key of the map whose record is flagged as the server |
| Generator.Configuration.PrepareAt | gen/generator.go:585-594 | one position of the batch: the server passed over, any other prepared, the run to its end unchanged |
| Generator.Configuration.PrepareChunk | gen/generator.go:582-595 | one chunk of the batch in order, stopping at the first failure |
| Generator.Configuration.PrepareBatch | gen/generator.go:576-596 | the chunked batch computes exactly the batch function `PrepBatch` |
| Generator.Configuration.FinishServer | gen/generator.go:598-616 | the batch then the server's file and the read-back, as `Served` says |
| Generator.Configuration.Assemble | gen/generator.go:607-616 | the server's file written, the server stored and the map read back, as `Finished` says |
| Generator.Configuration.SlicePeers | gen/generator.go:612-622 | the slice becomes the map read back (`Sliced`) and the map empty |

## Left out

- Input and output: main.go's flags, the YAML load and save, files, QR codes
  (`GetQR`) and the progress bars and counters of `Generate`. None of these
  changes the generated records.
- Concurrency: the goroutines, the wait group and the mutex of the batch loop.
  The batch runs sequentially in walk order, chunk by chunk, so the spool
  holds the stanzas in walk order. With goroutines the source's spool order
  is the order the workers finish in.
- Fatal exits: `log.Fatalf` in a batch worker and in the gunzip read-back
  become the error results `PeerPrepFailed` and `GunzipFailed`. The panic of
  `GeneratePreSharedKey` becomes `PreSharedKeyFailed`.
- Key material: `wgtypes.GeneratePrivateKey`, `PublicKey()` and
  `GeneratePreSharedKey` are modelled as keys drawn from an `Entropy` value
  and a `derive` function, not as cryptography.
- Compression: `GzipString` and `GunzipString` are modelled as a `Codec` of
  partial functions. The round trip is a stated hypothesis of the lemmas that
  need it.
- Parsing: `net.ParseCIDR` and `net.ParseIP` are parameters. `IPNet.String`
  is a function of the parsed value. The walk starts from the 16-byte mapped
  form of the address the parser returns. The model assumes one fact about
  `ParseCIDR`, `Walker.ReadsCanonical`: a network's canonical text is read as
  written. It is a hypothesis of the lemmas that need it and is not a
  requirement on callers. Without it, a parser could return an address with
  host bits for a text that passes the alignment check. The walk would then
  start inside the block.
- IPv6: left out, including the IPv6 branch of `EstimateNetworkSize`. A parsed
  server address that is not IPv4 is a number of 2^32 or more, so the network
  never contains it.
- Nil checks: the nil-pointer checks of the rule passes, and the
  `cidrNet == nil` check, cannot fail on a value.
- Server not found: the source's "failed to find generated server" branch
  follows a successful server prepDevice, which always stores a flagged
  record. `Generator.Configuration.FindServer` requires that record, and the
  branch is not modelled.
- Clearing the map: the final `conf.peers = nil` is modelled as the empty
  map.
- GenerateConfig's error result is always nil in the source; the model's
  `Render.GenerateConfig` returns the text only.
- Generator.Configuration.FindServer: it promises some flagged key, not a
  particular one. The source takes the first flagged key in Go's random map
  order, and the model proves the flagged key is unique before using it.
