/** What the parser of USB configuration descriptors (sections 9.6.3, 9.6.5 and
    9.6.6 of the USB 2.0 specification) finds in a buffer, as functions of the
    bytes that are left.  The methods with the loops are in DescriptorParser. */
module Descriptors {
  import opened Words

  const DT_DEVICE := 1
  const DT_CONFIG := 2
  const DT_INTERFACE := 4
  const DT_ENDPOINT := 5

  const HEADER_LENGTH := 2
  const CONFIG_LENGTH := 9
  const INTERFACE_LENGTH := 9
  const ENDPOINT_LENGTH := 7
  const ENDPOINT_AUDIO_LENGTH := 9
  const MAX_ENDPOINTS := 32
  const MAX_INTERFACES := 32

  const ERROR_IO := -1

  // ----- the tree -----

  datatype Endpoint = Endpoint(
    bLength: byte, bDescriptorType: byte, bEndpointAddress: byte, bmAttributes: byte, wMaxPacketSize: uint16,
    bInterval: byte, bRefresh: byte, bSynchAddress: byte, extra: seq<byte>)

  /** endpoints are those that were filled in */
  datatype AltSetting = AltSetting(
    bLength: byte, bDescriptorType: byte, bInterfaceNumber: byte, bAlternateSetting: byte, bNumEndpoints: byte,
    bInterfaceClass: byte, bInterfaceSubClass: byte, bInterfaceProtocol: byte, iInterface: byte,
    extra: seq<byte>, endpoints: seq<Endpoint>)

  /** An interface is the sequence of its alternate settings. */
  datatype Config = Config(
    bLength: byte, bDescriptorType: byte, wTotalLength: uint16, bNumInterfaces: byte, bConfigurationValue: byte,
    iConfiguration: byte, bmAttributes: byte, MaxPower: byte, extra: seq<byte>, interfaces: seq<seq<AltSetting>>)

  /** The fields behind the first seven bytes are there in long descriptors only. */
  function EndpointHeader(b: seq<byte>): Endpoint
    requires |b| >= ENDPOINT_LENGTH && b[0] <= |b|
  {
    var long := b[0] >= ENDPOINT_AUDIO_LENGTH;
    Endpoint(b[0], b[1], b[2], b[3], Word(b[4], b[5]), b[6], if long then b[7] else 0, if long then b[8] else 0, [])
  }

  function SettingHeader(b: seq<byte>): AltSetting
    requires |b| >= INTERFACE_LENGTH
  {
    AltSetting(b[0], b[1], b[2], b[3], b[4], b[5], b[6], b[7], b[8], [], [])
  }

  function ConfigHeader(b: seq<byte>): Config
    requires |b| >= CONFIG_LENGTH
  {
    Config(b[0], b[1], Word(b[2], b[3]), b[4], b[5], b[6], b[7], b[8], [], [])
  }

  // ----- what the parsers find -----

  predicate Proper(kind: byte) {
    kind == DT_ENDPOINT || kind == DT_INTERFACE || kind == DT_CONFIG || kind == DT_DEVICE
  }

  /** The class and vendor specific descriptors at the start of b take n bytes.
      Behind them nothing more is recognised, or a descriptor that b cuts short,
      or one of impossible length. */
  datatype Scan = Stop(n: nat) | Short(n: nat) | Bad

  function Extra(b: seq<byte>): (s: Scan)
    ensures !s.Bad? ==> s.n <= |b|
  {
    if |b| < HEADER_LENGTH then Stop(0)
    else if b[0] < HEADER_LENGTH then Bad
    else if b[0] > |b| then Short(0)
    else if Proper(b[1]) then Stop(0)
    else
      match Extra(b[b[0]..])
      case Stop(n) => Stop(b[0] + n)
      case Short(n) => Short(b[0] + n)
      case Bad => Bad
  }

  /** A negative code, 0, or the value and the bytes that it took. */
  datatype Answer<T> = Failed(code: int) | Nothing | Parsed(value: T, n: nat)

  function EndpointAt(b: seq<byte>): (a: Answer<Endpoint>)
    ensures a.Parsed? ==> 0 < a.n <= |b|
    ensures a.Failed? ==> a.code == -1
  {
    if |b| < HEADER_LENGTH then Failed(ERROR_IO)
    else if b[1] != DT_ENDPOINT || b[0] > |b| then Nothing
    else if b[0] < ENDPOINT_LENGTH then Failed(ERROR_IO)
    else
      var e := EndpointHeader(b);
      match Extra(b[b[0]..])
      case Bad => Failed(ERROR_IO)
      case Short(n) => Parsed(e, b[0] + n)
      case Stop(n) => Parsed(e.(extra := b[b[0]..][..n]), b[0] + n)
  }

  datatype Endpoints = EndpointsFailed(code: int) | Endpoints(list: seq<Endpoint>, n: nat)

  /** Up to count endpoints. */
  function EndpointsAt(b: seq<byte>, count: nat): (a: Endpoints)
    ensures a.Endpoints? ==> a.n <= |b| && |a.list| <= count
    ensures a.EndpointsFailed? ==> a.code == -1
    decreases count
  {
    if count == 0 then Endpoints([], 0)
    else
      match EndpointAt(b)
      case Failed(code) => EndpointsFailed(code)
      case Nothing => Endpoints([], 0)
      case Parsed(e, n) =>
        match EndpointsAt(b[n..], count - 1)
        case EndpointsFailed(code) => EndpointsFailed(code)
        case Endpoints(list, m) => Endpoints([e] + list, n + m)
  }

  /** One alternate setting; cut if the parser gives up behind it. */
  datatype Setting = SettingFailed(code: int) | NoSetting | Setting(value: AltSetting, n: nat, cut: bool)

  function SettingAt(b: seq<byte>): (a: Setting)
    ensures a.Setting? ==> 0 < a.n <= |b|
    ensures a.SettingFailed? ==> a.code == -1
  {
    if |b| < INTERFACE_LENGTH then NoSetting
    else
      var alt := SettingHeader(b);
      if alt.bDescriptorType != DT_INTERFACE then NoSetting
      else if alt.bLength < INTERFACE_LENGTH then SettingFailed(ERROR_IO)
      else if alt.bLength > |b| then NoSetting
      else if alt.bNumEndpoints > MAX_ENDPOINTS then SettingFailed(ERROR_IO)
      else
        var rest := b[alt.bLength..];
        match Extra(rest)
        case Bad => SettingFailed(ERROR_IO)
        case Short(n) => Setting(alt, alt.bLength + n, true)
        case Stop(n) =>
          match EndpointsAt(rest[n..], alt.bNumEndpoints)
          case EndpointsFailed(code) => SettingFailed(code)
          case Endpoints(list, m) =>
            Setting(alt.(extra := rest[..n], endpoints := list, bNumEndpoints := |list|), alt.bLength + n + m, false)
  }

  /** Does b start with an alternate setting of interface number? */
  predicate Alternate(b: seq<byte>, number: nat) {
    |b| >= INTERFACE_LENGTH && b[1] == DT_INTERFACE && b[2] == number
  }

  /** An alternate setting of n bytes and what was found behind it. */
  function Joined(alt: AltSetting, n: nat, a: Answer<seq<AltSetting>>): Answer<seq<AltSetting>> {
    match a
    case Failed(code) => a
    case Nothing => Parsed([alt], n)
    case Parsed(alts, m) => Parsed([alt] + alts, n + m)
  }

  function SettingsAt(b: seq<byte>, number: nat): (a: Answer<seq<AltSetting>>)
    ensures a.Parsed? ==> 0 < a.n <= |b|
    ensures a.Failed? ==> a.code == -1
    decreases |b|
  {
    match SettingAt(b)
    case SettingFailed(code) => Failed(code)
    case NoSetting => Nothing
    case Setting(alt, n, cut) =>
      if cut || !Alternate(b[n..], number) then Parsed([alt], n)
      else Joined(alt, n, SettingsAt(b[n..], number))
  }

  /** All alternate settings with the number of the first. */
  function InterfaceAt(b: seq<byte>): (a: Answer<seq<AltSetting>>)
    ensures a.Parsed? ==> 0 < a.n <= |b|
    ensures a.Failed? ==> a.code == -1
  {
    SettingsAt(b, if |b| >= INTERFACE_LENGTH then b[2] else 0)
  }

  /** A configuration has room for one run of extra descriptors: the first. */
  function NextExtra(extra: seq<byte>, found: seq<byte>): seq<byte> {
    if extra == [] then found else extra
  }

  /** One turn of the loop over interfaces: an error, the end, or an interface
      and the bytes behind it. */
  datatype Turn = TurnFailed(code: int) | LastTurn(extra: seq<byte>, left: nat)
                | NextTurn(extra: seq<byte>, alts: seq<AltSetting>, rest: seq<byte>)

  function TurnAt(b: seq<byte>, extra: seq<byte>): (t: Turn)
    ensures t.TurnFailed? ==> t.code == -1
    ensures t.LastTurn? ==> t.left <= |b|
    ensures t.NextTurn? ==> |t.rest| < |b|
  {
    match Extra(b)
    case Bad => TurnFailed(ERROR_IO)
    case Short(n) => LastTurn(extra, |b| - n)
    case Stop(n) =>
      match InterfaceAt(b[n..])
      case Failed(code) => TurnFailed(code)
      case Nothing => LastTurn(NextExtra(extra, b[..n]), |b| - n)
      case Parsed(alts, m) => NextTurn(NextExtra(extra, b[..n]), alts, b[n..][m..])
  }

  /** Extra bytes of the configuration, interfaces, and the bytes left over. */
  datatype Interfaces =
    | InterfacesFailed(code: int)
    | Interfaces(extra: seq<byte>, list: seq<seq<AltSetting>>, left: nat)

  function WithFirst(alts: seq<AltSetting>, a: Interfaces): Interfaces {
    match a
    case InterfacesFailed(code) => a
    case Interfaces(extra, list, left) => Interfaces(extra, [alts] + list, left)
  }

  function InterfacesAt(b: seq<byte>, count: nat, extra: seq<byte>): (a: Interfaces)
    ensures a.Interfaces? ==> a.left <= |b| && |a.list| <= count
    ensures a.InterfacesFailed? ==> a.code == -1
    decreases count
  {
    if count == 0 then Interfaces(extra, [], |b|)
    else
      match TurnAt(b, extra)
      case TurnFailed(code) => InterfacesFailed(code)
      case LastTurn(extra', left) => Interfaces(extra', [], left)
      case NextTurn(extra', alts, rest) =>
        WithFirst(alts, InterfacesAt(rest, count - 1, extra'))
  }

  datatype Configuration = ConfigFailed(code: int) | Configuration(value: Config, left: nat)

  function ConfigAt(b: seq<byte>): (a: Configuration)
    ensures a.Configuration? ==> a.left <= |b|
    ensures a.ConfigFailed? ==> a.code == -1
  {
    if |b| < CONFIG_LENGTH then ConfigFailed(ERROR_IO)
    else
      var config := ConfigHeader(b);
      if || config.bDescriptorType != DT_CONFIG || config.bLength < CONFIG_LENGTH || config.bLength > |b|
         || config.bNumInterfaces > MAX_INTERFACES
      then ConfigFailed(ERROR_IO)
      else
        match InterfacesAt(b[config.bLength..], config.bNumInterfaces, [])
        case InterfacesFailed(code) => ConfigFailed(code)
        case Interfaces(extra, list, left) =>
          Configuration(config.(extra := extra, interfaces := list, bNumInterfaces := |list|), left)
  }
}
