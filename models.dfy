/**
  The records of gen/models.go and the defaults of gen/constants.go.
  Field names follow the YAML keys of the source.
*/
module Models {

  /** Go's uint16: MTU and ports. */
  type UInt16 = x: nat | x < 0x1_0000

  /** The defaults of gen/constants.go. */
  const DEFAULT_ALLOWED_IPS: string := "0.0.0.0/0"
  const DEFAULT_PERSISTENT_KEEP_ALIVE: nat := 25
  const DEFAULT_ENDPOINT_PORT: UInt16 := 51820
  const DEFAULT_MTU: UInt16 := 1280

  /** WgConfig: the generated configuration of one peer or of the server. */
  datatype WgConfig = WgConfig(
    id: nat,
    config: string,
    name: string,
    description: string,
    extra: string,
    ip: string,
    allowedIPs: string,
    persistentKeepAlive: nat,
    mtu: UInt16,
    endpoint: string,
    endpointPort: UInt16,
    dns: string,
    isServer: bool,
    privateKey: string,
    publicKey: string,
    preSharedKey: string)

  /** Go's zero value of WgConfig: what a missing map entry or an unseeded record reads as. */
  const ZERO_CONFIG: WgConfig :=
    WgConfig(0, "", "", "", "", "", "", 0, 0, "", 0, "", false, "", "", "")

  /** An IPv4 address as a 32-bit number. */
  type IPv4 = x: nat | x < 0x1_0000_0000

  /** A prefix length of an IPv4 network. */
  type PrefixLen = x: nat | x <= 32

  /**
    An IPv4 CIDR as net.ParseCIDR reads it: the address as written (not yet
    masked) and the prefix length.
  */
  datatype Cidr = Cidr(ip: IPv4, prefix: PrefixLen)

  /**
    The two parsers Generate calls, as functions of the text: net.ParseCIDR
    (None on a parse error) and net.ParseIP (None when the text is not an
    address; an address that is not IPv4 is a number of 2^32 or more).
  */
  datatype Parsers = Parsers(parseCidr: string -> Option<Cidr>, parseIP: string -> Option<nat>)

  /** GenerationForm: the per-run parameters. */
  datatype GenerationForm = GenerationForm(
    cidr: string,
    dns: string,
    server: string,
    serverInterface: string,
    endpoint: string,
    endpointPort: UInt16,
    mtu: UInt16,
    allowedIPs: string,
    persistentKeepAlive: nat,
    name: string,
    description: string,
    extra: string,
    regenerateKeys: bool,
    resetAll: bool,
    forceAllowedIPs: bool,
    forcePersistentKeepAlive: bool,
    forceMtu: bool,
    forceEndpoint: bool,
    forceEndpointPort: bool,
    forceDns: bool,
    forceName: bool,
    forceDescription: bool,
    forceExtra: bool)

  datatype Option<T> = None | Some(value: T)

  datatype Result<T> = Ok(value: T) | Fail(error: Error)

  /** The failures Generate reports (its error values and its fatal exits). */
  datatype Error =
    | CidrUnparsable
    | CidrMisaligned
    | ServerNotAnIP
    | ServerOutsideCidr
    | ServerIndexInvalid(index: int)
    | ServerPrepFailed(cause: Error)
    | InvalidServerId
    | ServerEmptyKeys
    | ServerEmptyIP
    | PrivateKeyFailed
    | PreSharedKeyFailed
    | GzipFailed
    | GunzipFailed
    | PeerPrepFailed(id: nat, cause: Error)
}
