/** The three nested parsers as libusb runs them: loops that advance through the
    buffer.  Every index into buffer is an obligation to stay within its size. */
module DescriptorParser {
  import opened Descriptors
  import opened Words

  // ----- usbi_parse_descriptor() -----

  /** Bytes that one character of a format takes. */
  function Width(c: char): nat {
    match c
    case 'b' => 1
    case 'w' => 2
    case 'd' => 4
    case 'u' => 16
    case _ => 0
  }

  /** A little-endian number. */
  function Number(b: seq<byte>): nat {
    if b == [] then 0 else b[0] + 256 * Number(b[1..])
  }

  function Size(format: string): nat {
    if format == "" then 0 else Width(format[0]) + Size(format[1..])
  }

  function FirstField(b: seq<byte>, w: nat): seq<nat>
    requires w <= |b|
  {
    if w > 0 then [Number(b[..w])] else []
  }

  /** The values of the fields at the start of b. */
  function Fields(format: string, b: seq<byte>): seq<nat>
    requires Size(format) <= |b|
  {
    if format == "" then [] else FirstField(b, Width(format[0])) + Fields(format[1..], b[Width(format[0])..])
  }

  lemma FieldsStep(format: string, b: seq<byte>, dest: seq<nat>)
    requires format != "" && Size(format) <= |b|
    ensures var w := Width(format[0]);
            dest + Fields(format, b) == (dest + FirstField(b, w)) + Fields(format[1..], b[w..])
  {
    var w := Width(format[0]);
    SeqAssoc(dest, FirstField(b, w), Fields(format[1..], b[w..]));
  }

  lemma SeqAssoc<T>(a: seq<T>, b: seq<T>, c: seq<T>)
    ensures a + (b + c) == (a + b) + c
  {
  }

  /** usbi_parse_descriptor() on a little-endian host */
  method ParseDescriptor(source: seq<byte>, format: string) returns (dest: seq<nat>, n: nat)
    requires Size(format) <= |source|
    ensures dest == Fields(format, source) && n == Size(format)
  {
    dest := [];
    var sp, cp := source, format;
    while cp != ""
      invariant Size(cp) <= |sp| <= |source| && |source| - |sp| + Size(cp) == Size(format)
      invariant Fields(format, source) == dest + Fields(cp, sp)
      decreases |cp|
    {
      FieldsStep(cp, sp, dest);
      var w := Width(cp[0]);
      dest := dest + FirstField(sp, w);
      sp, cp := sp[w..], cp[1..];
    }
    n := |source| - |sp|;
  }

  lemma NumberStep(b: seq<byte>, low: nat)
    requires b != [] && low == b[0]
    ensures Number(b) == low + 256 * Number(b[1..])
  {
  }

  lemma NumberOfTwo(x: nat, y: nat, b: seq<byte>)
    requires |b| == 2 && b[0] == x && b[1] == y
    ensures Number(b) == x + 256 * y
  {
    NumberStep(b, x);
    NumberStep(b[1..], y);
  }

  lemma NumberOfFour(x: nat, y: nat, z: nat, w: nat, b: seq<byte>)
    requires |b| == 4 && b[0] == x && b[1] == y && b[2] == z && b[3] == w
    ensures Number(b) == x + 256 * y + 65536 * z + 16777216 * w
  {
    NumberStep(b, x);
    NumberStep(b[1..], y);
    assert b[1..][1..] == b[2..];
    NumberOfTwo(z, w, b[2..]);
  }

  lemma OneField(c: char, b: seq<byte>)
    requires Width(c) <= |b|
    ensures Size([c]) == Width(c) && Fields([c], b) == FirstField(b, Width(c))
  {
    assert [c][1..] == "";
  }

  lemma ByteField(b: seq<byte>, x: nat)
    requires b != [] && b[0] == x
    ensures Size(['b']) == 1 && Fields(['b'], b) == [x]
  {
    OneField('b', b);
    NumberStep(b[..1], x);
  }

  lemma WordField(b: seq<byte>, x: nat, y: nat)
    requires |b| >= 2 && b[0] == x && b[1] == y
    ensures Size(['w']) == 2 && Fields(['w'], b) == [x + 256 * y]
  {
    OneField('w', b);
    NumberOfTwo(x, y, b[..2]);
  }

  lemma DoubleWordField(b: seq<byte>, x: nat, y: nat, z: nat, w: nat)
    requires |b| >= 4 && b[0] == x && b[1] == y && b[2] == z && b[3] == w
    ensures Size(['d']) == 4 && Fields(['d'], b) == [x + 256 * y + 65536 * z + 16777216 * w]
  {
    OneField('d', b);
    NumberOfFour(x, y, z, w, b[..4]);
  }

  lemma UuidField(b: seq<byte>)
    requires |b| >= 16
    ensures Size(['u']) == 16 && Fields(['u'], b) == [Number(b[..16])]
  {
    OneField('u', b);
  }

  /** Any other character stands for no field. */
  lemma NoField(b: seq<byte>, other: char)
    requires other !in "bwdu"
    ensures Size([other]) == 0 && Fields([other], b) == []
  {
    OneField(other, b);
  }

  lemma {:induction false} BytesOnly(format: string, b: seq<byte>)
    requires (forall i | 0 <= i < |format| :: format[i] == 'b') && |b| >= |format|
    ensures Size(format) == |format| && Fields(format, b) == b[..|format|]
  {
    if format != "" {
      BytesOnly(format[1..], b[1..]);
      assert Number(b[..1]) == b[0];
      assert b[..|format|] == [b[0]] + b[1..][..|format| - 1];
    }
  }

  lemma TailOfAppend<T>(f: seq<T>, g: seq<T>)
    requires f != []
    ensures (f + g)[0] == f[0] && (f + g)[1..] == f[1..] + g
  {
  }

  lemma SkipTwice<T>(b: seq<T>, n: nat, m: nat)
    requires n + m <= |b|
    ensures b[n..][m..] == b[n + m..]
  {
  }

  lemma {:induction false} SizeAppend(f: string, g: string)
    ensures Size(f + g) == Size(f) + Size(g)
  {
    if f == "" {
      assert f + g == g;
    } else {
      TailOfAppend(f, g);
      SizeAppend(f[1..], g);
    }
  }

  lemma {:induction false} FieldsAppend(f: string, g: string, b: seq<byte>)
    requires |b| >= Size(f) + Size(g)
    ensures Size(f + g) == Size(f) + Size(g)
    ensures Fields(f + g, b) == Fields(f, b) + Fields(g, b[Size(f)..])
  {
    SizeAppend(f, g);
    if f == "" {
      assert f + g == g && b[0..] == b;
      assert [] + Fields(g, b) == Fields(g, b);
    } else {
      var w := Width(f[0]);
      TailOfAppend(f, g);
      FieldsAppend(f[1..], g, b[w..]);
      SkipTwice(b, w, Size(f[1..]));
      SeqAssoc(FirstField(b, w), Fields(f[1..], b[w..]), Fields(g, b[Size(f)..]));
    }
  }

  lemma WordFirst(g: string, b: seq<byte>)
    requires |b| >= 2 + Size(g)
    ensures Size("w" + g) == 2 + Size(g)
    ensures Fields("w" + g, b) == [Word(b[0], b[1])] + Fields(g, b[2..])
  {
    assert ("w" + g)[1..] == g;
    NumberOfWord(b[..2]);
  }

  lemma NumberOfWord(b: seq<byte>)
    requires |b| == 2
    ensures Number(b) == Word(b[0], b[1])
  {
    assert Number(b[1..]) == b[1];
  }

  /** A format of bytes with one word among them. */
  lemma WordBetween(f: string, g: string, format: string, b: seq<byte>)
    requires forall i | 0 <= i < |f| :: f[i] == 'b'
    requires forall i | 0 <= i < |g| :: g[i] == 'b'
    requires format == f + ("w" + g) && |b| >= |f| + 2 + |g|
    ensures Size(format) == |f| + 2 + |g|
    ensures Fields(format, b) == b[..|f|] + [Word(b[|f|], b[|f| + 1])] + b[|f| + 2..][..|g|]
  {
    var c := b[|f|..];
    BytesOnly(f, b);
    BytesOnly(g, c[2..]);
    WordFirst(g, c);
    FieldsAppend(f, "w" + g, b);
    assert c[2..] == b[|f| + 2..];
  }

  method ParseHeader(buffer: seq<byte>) returns (bLength: byte, bDescriptorType: byte)
    requires |buffer| >= HEADER_LENGTH
    ensures bLength == buffer[0] && bDescriptorType == buffer[1]
  {
    BytesOnly("bb", buffer);
    var header, _ := ParseDescriptor(buffer, "bb");
    bLength, bDescriptorType := header[0], header[1];
  }

  lemma ExtraStep(buffer: seq<byte>, k: nat)
    requires |buffer| >= HEADER_LENGTH
    ensures var whole := Grown(Extra(buffer), k);
            if buffer[0] < HEADER_LENGTH then whole == Bad
            else if buffer[0] > |buffer| then whole == Short(k)
            else if Proper(buffer[1]) then whole == Stop(k)
            else whole == Grown(Extra(buffer[buffer[0]..]), k + buffer[0])
  {
  }

  function Grown(s: Scan, k: nat): Scan {
    match s
    case Stop(n) => Stop(k + n)
    case Short(n) => Short(k + n)
    case Bad => Bad
  }

  /** The loop over class and vendor specific descriptors, of which each of the
      three parsers has its own copy. */
  method SkipExtra(begin: seq<byte>) returns (s: Scan)
    ensures s == Extra(begin)
  {
    var buffer, n := begin, 0;
    while |buffer| >= HEADER_LENGTH
      invariant Extra(begin) == Grown(Extra(buffer), n)
      decreases |buffer|
    {
      ExtraStep(buffer, n);
      var bLength, bDescriptorType := ParseHeader(buffer);
      if bLength < HEADER_LENGTH {
        return Bad;
      } else if bLength > |buffer| {
        return Short(n);
      }
      if bDescriptorType == DT_ENDPOINT || bDescriptorType == DT_INTERFACE
         || bDescriptorType == DT_CONFIG || bDescriptorType == DT_DEVICE {
        return Stop(n);
      }
      buffer := buffer[bLength..];
      n := n + bLength;
    }
    return Stop(n);
  }

  /** The answer as the C functions give it. */
  predicate Returns<T(==)>(r: int, value: T, a: Answer<T>) {
    match a
    case Failed(code) => r == code
    case Nothing => r == 0
    case Parsed(v, n) => r == n && value == v
  }

  const NO_ENDPOINT := Endpoint(0, 0, 0, 0, 0, 0, 0, 0, [])

  lemma EndpointFieldsAt(b: seq<byte>, f: seq<nat>, n: nat)
    requires n in {1, 3} && |b| >= 6 + n && f == b[..4] + [Word(b[4], b[5])] + b[6..][..n]
    ensures |f| == 5 + n && f[0] == b[0] && f[1] == b[1] && f[2] == b[2] && f[3] == b[3]
    ensures f[4] == Word(b[4], b[5]) && f[5] == b[6] && (n == 3 ==> f[6] == b[7] && f[7] == b[8])
  {
  }

  /** The fields of an endpoint descriptor, in one of two formats. */
  method ParseEndpointFields(buffer: seq<byte>) returns (endpoint: Endpoint)
    requires |buffer| >= ENDPOINT_LENGTH && ENDPOINT_LENGTH <= buffer[0] <= |buffer|
    ensures endpoint == EndpointHeader(buffer)
  {
    if buffer[0] >= ENDPOINT_AUDIO_LENGTH {
      WordBetween("bbbb", "bbb", "bbbbwbbb", buffer);
      var f, _ := ParseDescriptor(buffer, "bbbbwbbb");
      EndpointFieldsAt(buffer, f, 3);
      endpoint := Endpoint(f[0], f[1], f[2], f[3], f[4], f[5], f[6], f[7], []);
    } else {
      WordBetween("bbbb", "b", "bbbbwb", buffer);
      var f, _ := ParseDescriptor(buffer, "bbbbwb");
      EndpointFieldsAt(buffer, f, 1);
      endpoint := Endpoint(f[0], f[1], f[2], f[3], f[4], f[5], 0, 0, []);
    }
  }

  /** parse_endpoint(); the endpoint was cleared before */
  method ParseEndpoint(buffer: seq<byte>) returns (r: int, endpoint: Endpoint)
    ensures Returns(r, endpoint, EndpointAt(buffer))
  {
    endpoint := NO_ENDPOINT;
    if |buffer| < HEADER_LENGTH {
      return ERROR_IO, endpoint;
    }
    var bLength, bDescriptorType := ParseHeader(buffer);
    if bDescriptorType != DT_ENDPOINT {
      return 0, endpoint;
    }
    if bLength > |buffer| {
      return 0, endpoint;
    }
    if bLength < ENDPOINT_LENGTH {
      return ERROR_IO, endpoint;
    }
    endpoint := ParseEndpointFields(buffer);
    var begin := buffer[bLength..];
    var s := SkipExtra(begin);
    match s {
      case Bad => return ERROR_IO, endpoint;
      case Short(n) => return bLength + n, endpoint;
      case Stop(n) => return bLength + n, endpoint.(extra := begin[..n]);
    }
  }

  /** What EndpointsAt() finds, seen after k of its n bytes and the first few
      endpoints. */
  function EndpointsAfter(list: seq<Endpoint>, k: nat, a: Endpoints): Endpoints {
    match a
    case EndpointsFailed(code) => a
    case Endpoints(more, n) => Endpoints(list + more, k + n)
  }

  /** EndpointsAt() as a value, whose definition proofs do not unfold. */
  type EndpointsFunction = f: (seq<byte>, nat) -> Endpoints | IsEndpointsAt(f)
    ghost witness (b: seq<byte>, count: nat) => EndpointsAt(b, count)

  ghost predicate IsEndpointsAt(f: (seq<byte>, nat) -> Endpoints) {
    forall b: seq<byte>, count: nat {:trigger EndpointsAt(b, count)} :: f(b, count) == EndpointsAt(b, count)
  }

  /** list and k are the first endpoints and bytes of the whole; the others are in b. */
  ghost predicate EndpointsGoOn(
    f: EndpointsFunction, whole: Endpoints, list: seq<Endpoint>, k: nat, b: seq<byte>, count: nat) {
    whole == EndpointsAfter(list, k, f(b, count))
  }

  lemma EndpointsStart(f: EndpointsFunction, b: seq<byte>, count: nat)
    ensures EndpointsGoOn(f, f(b, count), [], 0, b, count)
  {
    var a := f(b, count);
    if a.Endpoints? { assert [] + a.list == a.list; }
  }

  lemma EndpointsStep(
    f: EndpointsFunction, whole: Endpoints, list: seq<Endpoint>, k: nat, b: seq<byte>, count: nat)
    requires count > 0 && EndpointsGoOn(f, whole, list, k, b, count)
    ensures match EndpointAt(b)
            case Failed(code) => whole == EndpointsFailed(code)
            case Nothing => whole == Endpoints(list, k)
            case Parsed(e, n) => EndpointsGoOn(f, whole, list + [e], k + n, b[n..], count - 1)
  {
    assert f(b, count) == EndpointsAt(b, count);
    assert list + [] == list;
    var a := EndpointAt(b);
    if a.Parsed? {
      var more := EndpointsAt(b[a.n..], count - 1);
      if more.Endpoints? { SeqAssoc(list, [a.value], more.list); }
    }
  }

  /** One more endpoint, if any */
  method NextEndpoint(ghost f: EndpointsFunction, ghost whole: Endpoints,
                      ghost list: seq<Endpoint>, ghost k: nat, b: seq<byte>, ghost count: nat)
    returns (r: int, endpoint: Endpoint)
    requires count > 0 && EndpointsGoOn(f, whole, list, k, b, count)
    ensures r <= |b|
    ensures r < 0 ==> whole == EndpointsFailed(r)
    ensures r == 0 ==> whole == Endpoints(list, k)
    ensures r > 0 ==> EndpointsGoOn(f, whole, list + [endpoint], k + r, b[r..], count - 1)
  {
    EndpointsStep(f, whole, list, k, b, count);
    r, endpoint := ParseEndpoint(b);
  }

  lemma EndpointsEnd(f: EndpointsFunction, whole: Endpoints, list: seq<Endpoint>, k: nat, b: seq<byte>)
    requires EndpointsGoOn(f, whole, list, k, b, 0)
    ensures whole == Endpoints(list, k)
  {
    assert f(b, 0) == EndpointsAt(b, 0);
    assert list + [] == list;
  }

  /** The loop of parse_interface() over the endpoints of one alternate setting; f
      is the specification. */
  method EndpointLoop(begin: seq<byte>, count: nat, ghost f: EndpointsFunction) returns (a: Endpoints)
    ensures a == f(begin, count)
  {
    ghost var whole, left: nat := f(begin, count), count;
    var buffer, list, parsed, i := begin, [], 0, 0;
    EndpointsStart(f, begin, count);
    while i < count
      invariant i + left == count && EndpointsGoOn(f, whole, list, parsed, buffer, left)
    {
      var r, endpoint := NextEndpoint(f, whole, list, parsed, buffer, left);
      if r < 0 {
        return EndpointsFailed(r);
      }
      if r == 0 {
        return Endpoints(list, parsed);
      }
      buffer := buffer[r..];
      list, parsed, i := list + [endpoint], parsed + r, i + 1;
      left := left - 1;
    }
    EndpointsEnd(f, whole, list, parsed, buffer);
    return Endpoints(list, parsed);
  }

  method ParseEndpoints(begin: seq<byte>, count: nat) returns (a: Endpoints)
    ensures a == EndpointsAt(begin, count)
  {
    ghost var f: EndpointsFunction := (b: seq<byte>, count: nat) => EndpointsAt(b, count);
    a := EndpointLoop(begin, count, f);
  }

  method ParseSettingFields(buffer: seq<byte>) returns (ifp: AltSetting)
    requires |buffer| >= INTERFACE_LENGTH
    ensures ifp == SettingHeader(buffer)
  {
    BytesOnly("bbbbbbbbb", buffer);
    var f, _ := ParseDescriptor(buffer, "bbbbbbbbb");
    ifp := AltSetting(f[0], f[1], f[2], f[3], f[4], f[5], f[6], f[7], f[8], [], []);
  }

  /** The body of the loop of parse_interface(): one alternate setting. */
  method ParseSetting(buffer: seq<byte>) returns (a: Setting)
    requires |buffer| >= INTERFACE_LENGTH
    ensures a == SettingAt(buffer)
  {
    var ifp := ParseSettingFields(buffer);
    if ifp.bDescriptorType != DT_INTERFACE {
      return NoSetting;
    }
    if ifp.bLength < INTERFACE_LENGTH {
      return SettingFailed(ERROR_IO);
    }
    if ifp.bLength > |buffer| {
      return NoSetting;
    }
    if ifp.bNumEndpoints > MAX_ENDPOINTS {
      return SettingFailed(ERROR_IO);
    }
    var begin := buffer[ifp.bLength..];
    var s := SkipExtra(begin);
    match s {
      case Bad => return SettingFailed(ERROR_IO);
      case Short(n) => return Setting(ifp, ifp.bLength + n, true);
      case Stop(n) =>
        var parsed := n;
        ifp := ifp.(extra := begin[..n]);
        if ifp.bNumEndpoints > 0 {
          var es := ParseEndpoints(begin[n..], ifp.bNumEndpoints);
          if es.EndpointsFailed? {
            return SettingFailed(es.code);
          }
          ifp := ifp.(endpoints := es.list, bNumEndpoints := |es.list|);
          parsed := parsed + es.n;
        }
        return Setting(ifp, ifp.bLength + parsed, false);
    }
  }

  function SettingsAfter(alts: seq<AltSetting>, k: nat, a: Answer<seq<AltSetting>>): Answer<seq<AltSetting>> {
    match a
    case Failed(code) => a
    case Nothing => if k == 0 then Nothing else Parsed(alts, k)
    case Parsed(more, n) => Parsed(alts + more, k + n)
  }

  /** alts and k are the first alternate settings and bytes of the whole; the
      others are in b. */
  ghost predicate SettingsGoOn(
    whole: Answer<seq<AltSetting>>, alts: seq<AltSetting>, k: nat, b: seq<byte>, number: nat) {
    whole == SettingsAfter(alts, k, SettingsAt(b, number))
  }

  lemma SettingsStart(b: seq<byte>, number: nat)
    ensures SettingsGoOn(SettingsAt(b, number), [], 0, b, number)
  {
    var a := SettingsAt(b, number);
    if a.Parsed? { assert [] + a.value == a.value; }
  }

  /** One more alternate setting. */
  lemma SettingsStep(whole: Answer<seq<AltSetting>>, alts: seq<AltSetting>, k: nat, b: seq<byte>, number: nat)
    requires SettingsGoOn(whole, alts, k, b, number)
    ensures match SettingAt(b)
            case SettingFailed(code) => whole == Failed(code)
            case NoSetting => whole == if k == 0 then Nothing else Parsed(alts, k)
            case Setting(alt, n, cut) =>
              if cut || !Alternate(b[n..], number) then whole == Parsed(alts + [alt], k + n)
              else SettingsGoOn(whole, alts + [alt], k + n, b[n..], number)
  {
    var a := SettingAt(b);
    if a.Setting? && !a.cut && Alternate(b[a.n..], number) {
      var more := SettingsAt(b[a.n..], number);
      if more.Parsed? { SeqAssoc(alts, [a.value], more.value); }
    }
  }

  /** One more alternate setting, if any */
  method NextSetting(ghost whole: Answer<seq<AltSetting>>, ghost alts: seq<AltSetting>, ghost k: nat,
                     b: seq<byte>, ghost number: nat)
    returns (a: Setting)
    requires |b| >= INTERFACE_LENGTH && SettingsGoOn(whole, alts, k, b, number)
    ensures a.SettingFailed? ==> a.code < 0 && whole == Failed(a.code)
    ensures a.NoSetting? ==> whole == if k == 0 then Nothing else Parsed(alts, k)
    ensures a.Setting? ==> 0 < a.n <= |b| && a.value.bInterfaceNumber == b[2]
    ensures a.Setting? && (a.cut || !Alternate(b[a.n..], number)) ==> whole == Parsed(alts + [a.value], k + a.n)
    ensures a.Setting? && !a.cut && Alternate(b[a.n..], number) ==>
              SettingsGoOn(whole, alts + [a.value], k + a.n, b[a.n..], number)
  {
    SettingsStep(whole, alts, k, b, number);
    a := ParseSetting(b);
  }

  /** parse_interface(); usb_interface is the array of alternate settings */
  method ParseInterface(begin: seq<byte>) returns (r: int, usb_interface: seq<AltSetting>)
    ensures Returns(r, usb_interface, InterfaceAt(begin))
  {
    usb_interface := [];
    var buffer, interface_number, parsed := begin, -1, 0;
    ghost var number: nat := if |begin| >= INTERFACE_LENGTH then begin[2] else 0;
    ghost var whole := SettingsAt(begin, number);
    SettingsStart(begin, number);
    while |buffer| >= INTERFACE_LENGTH
      invariant parsed == 0 ==> interface_number == -1 && usb_interface == [] && buffer == begin
      invariant parsed > 0 ==> interface_number == number && Alternate(buffer, number)
      invariant SettingsGoOn(whole, usb_interface, parsed, buffer, number)
      decreases |buffer|
    {
      var a := NextSetting(whole, usb_interface, parsed, buffer, number);
      match a {
        case SettingFailed(code) => return code, [];
        case NoSetting => return parsed, usb_interface;
        case Setting(alt, n, cut) =>
          usb_interface := usb_interface + [alt];
          if interface_number == -1 {
            interface_number := alt.bInterfaceNumber;
          }
          buffer := buffer[n..];
          parsed := parsed + n;
          if cut {
            return parsed, usb_interface;
          }
          if |buffer| < INTERFACE_LENGTH || buffer[1] != DT_INTERFACE || buffer[2] != interface_number {
            return parsed, usb_interface;
          }
      }
    }
    assert SettingAt(buffer) == NoSetting;
    return parsed, usb_interface;
  }

  function InterfacesAfter(list: seq<seq<AltSetting>>, a: Interfaces): Interfaces {
    match a
    case InterfacesFailed(code) => a
    case Interfaces(extra, more, left) => Interfaces(extra, list + more, left)
  }

  /** InterfacesAt() as a value, whose definition proofs do not unfold. */
  type InterfacesFunction = f: (seq<byte>, nat, seq<byte>) -> Interfaces | IsInterfacesAt(f)
    ghost witness (b: seq<byte>, count: nat, extra: seq<byte>) => InterfacesAt(b, count, extra)

  ghost predicate IsInterfacesAt(f: (seq<byte>, nat, seq<byte>) -> Interfaces) {
    forall b: seq<byte>, count: nat, extra: seq<byte> {:trigger InterfacesAt(b, count, extra)} ::
      f(b, count, extra) == InterfacesAt(b, count, extra)
  }

  /** list are the first interfaces of those that f finds; the others are in b. */
  ghost predicate Continues(f: InterfacesFunction, a: Interfaces, list: seq<seq<AltSetting>>,
                            b: seq<byte>, count: nat, extra: seq<byte>) {
    a == InterfacesAfter(list, f(b, count, extra))
  }

  lemma InterfacesStart(f: InterfacesFunction, b: seq<byte>, count: nat, extra: seq<byte>)
    ensures Continues(f, f(b, count, extra), [], b, count, extra)
  {
    var a := f(b, count, extra);
    if a.Interfaces? { assert [] + a.list == a.list; }
  }

  lemma InterfacesStep(f: InterfacesFunction, a: Interfaces, b: seq<byte>, count: nat, extra: seq<byte>,
                       list: seq<seq<AltSetting>>)
    requires count > 0 && Continues(f, a, list, b, count, extra)
    ensures match TurnAt(b, extra)
            case TurnFailed(code) => a == InterfacesFailed(code)
            case LastTurn(extra', left) => a == Interfaces(extra', list, left)
            case NextTurn(extra', alts, rest) => Continues(f, a, list + [alts], rest, count - 1, extra')
  {
    assert f(b, count, extra) == InterfacesAt(b, count, extra);
    assert list + [] == list;
    var t := TurnAt(b, extra);
    if t.NextTurn? {
      var more := InterfacesAt(t.rest, count - 1, t.extra);
      if more.Interfaces? { SeqAssoc(list, [t.alts], more.list); }
    }
  }

  lemma InterfacesEnd(f: InterfacesFunction, a: Interfaces, b: seq<byte>, extra: seq<byte>, list: seq<seq<AltSetting>>)
    requires Continues(f, a, list, b, 0, extra)
    ensures a == Interfaces(extra, list, |b|)
  {
    assert f(b, 0, extra) == InterfacesAt(b, 0, extra);
    assert list + [] == list;
  }

  /** The storage of extra bytes in parse_configuration() */
  method KeepExtra(extra: seq<byte>, found: seq<byte>) returns (extra': seq<byte>)
    ensures extra' == NextExtra(extra, found)
  {
    extra' := extra;
    if |found| > 0 {
      if |extra| == 0 {
        extra' := found;
      }
    }
  }

  /** The body of the loop of parse_configuration() */
  method ParseTurn(begin: seq<byte>, extra: seq<byte>) returns (t: Turn)
    ensures t == TurnAt(begin, extra)
  {
    var s := SkipExtra(begin);
    match s {
      case Bad => return TurnFailed(ERROR_IO);
      case Short(n) => return LastTurn(extra, |begin| - n);
      case Stop(n) =>
        var extra' := KeepExtra(extra, begin[..n]);
        var buffer := begin[n..];
        var r, usb_interface := ParseInterface(buffer);
        if r < 0 {
          return TurnFailed(r);
        }
        if r == 0 {
          return LastTurn(extra', |buffer|);
        }
        return NextTurn(extra', usb_interface, buffer[r..]);
    }
  }

  /** ... and what it means for the whole loop */
  method TakeTurn(ghost f: InterfacesFunction, ghost whole: Interfaces, buffer: seq<byte>, ghost count: nat,
                  extra: seq<byte>, ghost list: seq<seq<AltSetting>>) returns (t: Turn)
    requires count > 0 && Continues(f, whole, list, buffer, count, extra)
    ensures match t
            case TurnFailed(code) => whole == InterfacesFailed(code)
            case LastTurn(extra', left) => whole == Interfaces(extra', list, left)
            case NextTurn(extra', alts, rest) => Continues(f, whole, list + [alts], rest, count - 1, extra')
  {
    InterfacesStep(f, whole, buffer, count, extra, list);
    t := ParseTurn(buffer, extra);
  }

  /** The loop of parse_configuration() */
  method ParseInterfaces(begin: seq<byte>, count: nat, before: seq<byte>, ghost f: InterfacesFunction)
    returns (a: Interfaces)
    ensures a == f(begin, count, before)
  {
    ghost var whole := f(begin, count, before);
    InterfacesStart(f, begin, count, before);
    var buffer, list, extra, i := begin, [], before, 0;
    while i < count
      invariant i <= count && Continues(f, whole, list, buffer, count - i, extra)
    {
      var t := TakeTurn(f, whole, buffer, count - i, extra, list);
      match t {
        case TurnFailed(code) => return InterfacesFailed(code);
        case LastTurn(extra', left) => return Interfaces(extra', list, left);
        case NextTurn(extra', alts, rest) =>
          buffer, list, extra, i := rest, list + [alts], extra', i + 1;
      }
    }
    InterfacesEnd(f, whole, buffer, extra, list);
    return Interfaces(extra, list, |buffer|);
  }

  const NO_CONFIG := Config(0, 0, 0, 0, 0, 0, 0, 0, [], [])

  lemma ConfigFieldsAt(b: seq<byte>, f: seq<nat>)
    requires |b| >= 9 && f == b[..2] + [Word(b[2], b[3])] + b[4..][..5]
    ensures |f| == 8 && f[0] == b[0] && f[1] == b[1] && f[2] == Word(b[2], b[3])
    ensures f[3] == b[4] && f[4] == b[5] && f[5] == b[6] && f[6] == b[7] && f[7] == b[8]
  {
  }

  method ParseConfigFields(buffer: seq<byte>) returns (config: Config)
    requires |buffer| >= CONFIG_LENGTH
    ensures config == ConfigHeader(buffer)
  {
    WordBetween("bb", "bbbbb", "bbwbbbbb", buffer);
    var f, _ := ParseDescriptor(buffer, "bbwbbbbb");
    ConfigFieldsAt(buffer, f);
    config := Config(f[0], f[1], f[2], f[3], f[4], f[5], f[6], f[7], [], []);
  }

  /** parse_configuration(): a negative code, or the number of bytes left over */
  method ParseConfiguration(buffer: seq<byte>) returns (r: int, config: Config)
    ensures match ConfigAt(buffer)
            case ConfigFailed(code) => r == code
            case Configuration(value, left) => r == left && config == value
  {
    config := NO_CONFIG;
    if |buffer| < CONFIG_LENGTH {
      return ERROR_IO, config;
    }
    config := ParseConfigFields(buffer);
    if config.bDescriptorType != DT_CONFIG {
      return ERROR_IO, config;
    }
    if config.bLength < CONFIG_LENGTH {
      return ERROR_IO, config;
    }
    if config.bLength > |buffer| {
      return ERROR_IO, config;
    }
    if config.bNumInterfaces > MAX_INTERFACES {
      return ERROR_IO, config;
    }
    ghost var found: InterfacesFunction :=
      (b: seq<byte>, count: nat, extra: seq<byte>) => InterfacesAt(b, count, extra);
    var a := ParseInterfaces(buffer[config.bLength..], config.bNumInterfaces, config.extra, found);
    assert found(buffer[config.bLength..], config.bNumInterfaces, [])
        == InterfacesAt(buffer[config.bLength..], config.bNumInterfaces, []);
    if a.InterfacesFailed? {
      return a.code, config;
    }
    config := config.(extra := a.extra, interfaces := a.list, bNumInterfaces := |a.list|);
    return a.left, config;
  }
}
