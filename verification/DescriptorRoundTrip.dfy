/** A serializer for configuration trees, and that the parser undoes it. */
module DescriptorRoundTrip {
  import opened Descriptors
  import opened Words

  // ----- the serializer -----

  function WriteWord(w: uint16): seq<byte> { [w % 256, w / 256] }

  /** The fields of an endpoint, seven or nine bytes. */
  function EndpointFields(e: Endpoint): seq<byte> {
    [e.bLength, e.bDescriptorType, e.bEndpointAddress, e.bmAttributes] + WriteWord(e.wMaxPacketSize) + [e.bInterval]
    + if e.bLength == 9 then [e.bRefresh, e.bSynchAddress] else []
  }

  function WriteEndpoint(e: Endpoint): seq<byte> { EndpointFields(e) + e.extra }

  function WriteEndpoints(list: seq<Endpoint>): seq<byte> {
    if list == [] then [] else WriteEndpoint(list[0]) + WriteEndpoints(list[1..])
  }

  function SettingFields(a: AltSetting): seq<byte> {
    [a.bLength, a.bDescriptorType, a.bInterfaceNumber, a.bAlternateSetting, a.bNumEndpoints,
     a.bInterfaceClass, a.bInterfaceSubClass, a.bInterfaceProtocol, a.iInterface]
  }

  function WriteSetting(a: AltSetting): seq<byte> {
    SettingFields(a) + (a.extra + WriteEndpoints(a.endpoints))
  }

  function WriteSettings(alts: seq<AltSetting>): seq<byte> {
    if alts == [] then [] else WriteSetting(alts[0]) + WriteSettings(alts[1..])
  }

  function WriteInterfaces(list: seq<seq<AltSetting>>): seq<byte> {
    if list == [] then [] else WriteSettings(list[0]) + WriteInterfaces(list[1..])
  }

  function ConfigFields(c: Config): seq<byte> {
    [c.bLength, c.bDescriptorType] + WriteWord(c.wTotalLength)
    + [c.bNumInterfaces, c.bConfigurationValue, c.iConfiguration, c.bmAttributes, c.MaxPower]
  }

  function WriteConfig(c: Config): seq<byte> {
    ConfigFields(c) + (c.extra + WriteInterfaces(c.interfaces))
  }

  // ----- well-formed trees; all numbers are those of the USB 2.0 tables -----

  /** x consists of class and vendor specific descriptors: each has a length of two or
      more that x holds, and none is a device (1), a configuration (2), an interface
      (4) or an endpoint (5). */
  predicate ExtraOnly(x: seq<byte>) {
    x != [] ==> |x| >= 2 && 2 <= x[0] <= |x| && x[1] !in {1, 2, 4, 5} && ExtraOnly(x[x[0]..])
  }

  /** No class or vendor specific descriptor starts here: there is no room for a
      descriptor, or there is one of the four that end them. */
  predicate Ends(b: seq<byte>) {
    |b| >= 2 ==> 2 <= b[0] <= |b| && b[1] in {1, 2, 4, 5}
  }

  ghost predicate WfEndpoint(e: Endpoint) {
    && (e.bLength == 9 || (e.bLength == 7 && e.bRefresh == 0 == e.bSynchAddress))
    && e.bDescriptorType == 5 && ExtraOnly(e.extra)
  }

  ghost predicate WfSetting(a: AltSetting) {
    && a.bLength == 9 && a.bDescriptorType == 4
    && a.bNumEndpoints == |a.endpoints| <= 32 && ExtraOnly(a.extra)
    && forall k | 0 <= k < |a.endpoints| :: WfEndpoint(a.endpoints[k])
  }

  /** All alternate settings of an interface have its number. */
  ghost predicate WfSettings(alts: seq<AltSetting>, number: nat) {
    alts != [] ==>
      WfSetting(alts[0]) && alts[0].bInterfaceNumber == number && WfSettings(alts[1..], number)
  }

  ghost predicate WfInterfaces(list: seq<seq<AltSetting>>) {
    && (forall k | 0 <= k < |list| :: list[k] != [] && WfSettings(list[k], list[k][0].bInterfaceNumber))
    && forall k | 0 < k < |list| :: list[k][0].bInterfaceNumber != list[k - 1][0].bInterfaceNumber
  }

  /** Extra descriptors of the configuration can only come before an interface. */
  ghost predicate WfConfig(c: Config) {
    && c.bLength == 9 && c.bDescriptorType == 2
    && c.bNumInterfaces == |c.interfaces| <= 32 && WfInterfaces(c.interfaces)
    && ExtraOnly(c.extra) && (c.interfaces == [] ==> c.extra == [])
  }

  // ----- the parser undoes the serializer, level by level -----

  lemma {:induction false} ExtraAppend(x: seq<byte>, rest: seq<byte>)
    requires ExtraOnly(x) && Ends(rest)
    ensures Extra(x + rest) == Stop(|x|)
  {
    if x == [] {
      assert x + rest == rest;
    } else {
      var l := x[0];
      assert (x + rest)[l..] == x[l..] + rest;
      ExtraAppend(x[l..], rest);
    }
  }

  lemma WordBack(w: uint16)
    ensures Word(WriteWord(w)[0], WriteWord(w)[1]) == w
  {
  }

  lemma EndpointFieldsBack(e: Endpoint, rest: seq<byte>)
    requires WfEndpoint(e)
    ensures var b := EndpointFields(e) + rest;
            && |EndpointFields(e)| == e.bLength == b[0] && b[1] == DT_ENDPOINT && b[b[0]..] == rest
            && EndpointHeader(b) == e.(extra := [])
  {
    WordBack(e.wMaxPacketSize);
  }

  /** The endpoint comes out of a buffer that consists of its fields and its extra
      descriptors. */
  lemma EndpointReads(e: Endpoint, b: seq<byte>, tail: seq<byte>, n: nat)
    requires |b| >= 7 && b[1] == DT_ENDPOINT && ENDPOINT_LENGTH <= b[0] <= |b|
    requires tail == b[b[0]..] && EndpointHeader(b) == e.(extra := [])
    requires |e.extra| <= |tail| && Extra(tail) == Stop(|e.extra|) && tail[..|e.extra|] == e.extra
    requires n == b[0] + |e.extra|
    ensures EndpointAt(b) == Parsed(e, n) && Ends(b)
  {
  }

  lemma EndpointRoundTrip(e: Endpoint, rest: seq<byte>)
    requires WfEndpoint(e) && Ends(rest)
    ensures EndpointAt(WriteEndpoint(e) + rest) == Parsed(e, |WriteEndpoint(e)|) && Ends(WriteEndpoint(e) + rest)
  {
    EndpointFieldsBack(e, e.extra + rest);
    Grouped(EndpointFields(e), e.extra, rest);
    ExtraAppend(e.extra, rest);
    BehindPrefix(e.extra, rest);
    EndpointReads(e, WriteEndpoint(e) + rest, e.extra + rest, |WriteEndpoint(e)|);
  }

  lemma BehindPrefix<T>(a: seq<T>, b: seq<T>)
    ensures (a + b)[|a|..] == b && (a + b)[..|a|] == a
  {
  }

  lemma HeadTail<T>(s: seq<T>)
    requires s != []
    ensures [s[0]] + s[1..] == s
  {
  }

  lemma Grouped<T>(a: seq<T>, b: seq<T>, c: seq<T>)
    ensures (a + b) + c == a + (b + c)
  {
  }

  lemma EndpointsParsed(
    b: seq<byte>, n: nat, more: seq<byte>, list: seq<Endpoint>, m: nat, total: nat)
    requires list != [] && EndpointAt(b) == Parsed(list[0], n) && more == b[n..] && total == n + m
    requires EndpointsAt(more, |list| - 1) == Endpoints(list[1..], m)
    ensures EndpointsAt(b, |list|) == Endpoints(list, total)
  {
    HeadTail(list);
  }

  lemma FirstEndpointWritten(list: seq<Endpoint>, rest: seq<byte>, b: seq<byte>, n: nat)
    requires list != [] && b == WriteEndpoints(list) + rest && n == |WriteEndpoints(list)|
    ensures var first, more := WriteEndpoint(list[0]), WriteEndpoints(list[1..]) + rest;
            b == first + more && n == |first| + |WriteEndpoints(list[1..])| && more == b[|first|..]
  {
    Grouped(WriteEndpoint(list[0]), WriteEndpoints(list[1..]), rest);
    BehindPrefix(WriteEndpoint(list[0]), WriteEndpoints(list[1..]) + rest);
  }

  lemma {:induction false} EndpointsWritten(list: seq<Endpoint>, rest: seq<byte>, b: seq<byte>, n: nat)
    requires (forall k | 0 <= k < |list| :: WfEndpoint(list[k])) && Ends(rest)
    requires b == WriteEndpoints(list) + rest && n == |WriteEndpoints(list)|
    ensures EndpointsAt(b, |list|) == Endpoints(list, n) && Ends(b)
    decreases |list|
  {
    if list == [] {
      assert b == rest;
    } else {
      FirstEndpointWritten(list, rest, b, n);
      var first, more := |WriteEndpoint(list[0])|, WriteEndpoints(list[1..]) + rest;
      EndpointsWritten(list[1..], rest, more, n - first);
      EndpointRoundTrip(list[0], more);
      EndpointsParsed(b, first, more, list, n - first, n);
    }
  }

  lemma EndpointsRoundTrip(list: seq<Endpoint>, rest: seq<byte>)
    requires (forall k | 0 <= k < |list| :: WfEndpoint(list[k])) && Ends(rest)
    ensures EndpointsAt(WriteEndpoints(list) + rest, |list|) == Endpoints(list, |WriteEndpoints(list)|)
    ensures Ends(WriteEndpoints(list) + rest)
  {
    EndpointsWritten(list, rest, WriteEndpoints(list) + rest, |WriteEndpoints(list)|);
  }

  /** What parse_interface() makes of an alternate setting with extra descriptors
      and endpoints. */
  lemma SettingParsed(b: seq<byte>, n: nat, list: seq<Endpoint>, m: nat)
    requires |b| >= 9 && b[1] == DT_INTERFACE && INTERFACE_LENGTH <= b[0] <= |b| && b[4] == |list| <= MAX_ENDPOINTS
    requires n <= |b| - b[0] && Extra(b[b[0]..]) == Stop(n) && EndpointsAt(b[b[0]..][n..], |list|) == Endpoints(list, m)
    ensures SettingAt(b) == Setting(SettingHeader(b).(extra := b[b[0]..][..n], endpoints := list), b[0] + n + m, false)
    ensures Ends(b)
  {
  }

  lemma SettingFieldsBack(a: AltSetting, rest: seq<byte>)
    requires WfSetting(a)
    ensures var b := SettingFields(a) + rest;
            && |SettingFields(a)| == 9 == b[0] && b[1] == DT_INTERFACE && b[2] == a.bInterfaceNumber
            && b[4] == |a.endpoints| && b[b[0]..] == rest
            && SettingHeader(b) == a.(extra := [], endpoints := [])
  {
  }

  /** The alternate setting comes out of a buffer that consists of its fields, its
      extra descriptors and its endpoints. */
  lemma SettingReads(a: AltSetting, b: seq<byte>, tail: seq<byte>, es: seq<byte>, m: nat, n: nat)
    requires |b| >= 9 == b[0] && b[1] == DT_INTERFACE && b[2] == a.bInterfaceNumber && b[4] == |a.endpoints|
    requires b[b[0]..] == tail && SettingHeader(b) == a.(extra := [], endpoints := [])
    requires |a.endpoints| <= MAX_ENDPOINTS && |a.extra| <= |tail| && Extra(tail) == Stop(|a.extra|)
    requires tail[..|a.extra|] == a.extra && tail[|a.extra|..] == es
    requires EndpointsAt(es, |a.endpoints|) == Endpoints(a.endpoints, m) && n == 9 + |a.extra| + m
    ensures SettingAt(b) == Setting(a, n, false)
    ensures Ends(b) && Alternate(b, a.bInterfaceNumber)
  {
    SettingParsed(b, |a.extra|, a.endpoints, m);
  }

  lemma SettingWritten(a: AltSetting, rest: seq<byte>, b: seq<byte>, n: nat)
    requires WfSetting(a) && Ends(rest) && b == WriteSetting(a) + rest && n == |WriteSetting(a)|
    ensures SettingAt(b) == Setting(a, n, false)
    ensures Ends(b) && Alternate(b, a.bInterfaceNumber)
  {
    var es := WriteEndpoints(a.endpoints) + rest;
    var tail := a.extra + es;
    SettingFieldsBack(a, tail);
    Grouped(SettingFields(a), a.extra + WriteEndpoints(a.endpoints), rest);
    Grouped(a.extra, WriteEndpoints(a.endpoints), rest);
    EndpointsRoundTrip(a.endpoints, rest);
    ExtraAppend(a.extra, es);
    BehindPrefix(a.extra, es);
    SettingReads(a, b, tail, es, |WriteEndpoints(a.endpoints)|, n);
  }

  lemma SettingRoundTrip(a: AltSetting, rest: seq<byte>)
    requires WfSetting(a) && Ends(rest)
    ensures SettingAt(WriteSetting(a) + rest) == Setting(a, |WriteSetting(a)|, false)
    ensures Ends(WriteSetting(a) + rest) && Alternate(WriteSetting(a) + rest, a.bInterfaceNumber)
  {
    SettingWritten(a, rest, WriteSetting(a) + rest, |WriteSetting(a)|);
  }

  /** SettingAt() and SettingsAt() as values, whose definitions proofs do not unfold. */
  datatype Readers = Readers(one: seq<byte> -> Setting, all: (seq<byte>, nat) -> Answer<seq<AltSetting>>)

  ghost predicate AreReaders(r: Readers) {
    && (forall b: seq<byte> {:trigger SettingAt(b)} :: r.one(b) == SettingAt(b))
    && forall b: seq<byte>, number: nat {:trigger SettingsAt(b, number)} :: r.all(b, number) == SettingsAt(b, number)
  }

  lemma LastSettingParsed(r: Readers, b: seq<byte>, n: nat, alts: seq<AltSetting>, number: nat)
    requires AreReaders(r) && |alts| == 1 && 0 < n <= |b|
    requires r.one(b) == Setting(alts[0], n, false) && !Alternate(b[n..], number)
    ensures r.all(b, number) == Parsed(alts, n)
  {
    assert r.one(b) == SettingAt(b) && r.all(b, number) == SettingsAt(b, number);
    assert alts == [alts[0]];
  }

  lemma SettingsParsed(
    r: Readers, b: seq<byte>, n: nat, more: seq<byte>, alts: seq<AltSetting>, number: nat, m: nat, total: nat)
    requires AreReaders(r) && alts != [] && 0 < n <= |b| && more == b[n..] && total == n + m
    requires r.one(b) == Setting(alts[0], n, false)
    requires Alternate(more, number) && r.all(more, number) == Parsed(alts[1..], m)
    ensures r.all(b, number) == Parsed(alts, total)
  {
    assert r.one(b) == SettingAt(b) && r.all(b, number) == SettingsAt(b, number);
    assert r.all(more, number) == SettingsAt(more, number);
    HeadTail(alts);
  }

  lemma FirstSettingWritten(alts: seq<AltSetting>, rest: seq<byte>, b: seq<byte>, n: nat)
    requires alts != [] && b == WriteSettings(alts) + rest && n == |WriteSettings(alts)|
    ensures var first, more := WriteSetting(alts[0]), WriteSettings(alts[1..]) + rest;
            b == first + more && n == |first| + |WriteSettings(alts[1..])| && more == b[|first|..]
    ensures |alts| == 1 ==> WriteSettings(alts[1..]) + rest == rest && n == |WriteSetting(alts[0])|
  {
    Grouped(WriteSetting(alts[0]), WriteSettings(alts[1..]), rest);
    BehindPrefix(WriteSetting(alts[0]), WriteSettings(alts[1..]) + rest);
  }

  /** An alternate setting is in front. */
  lemma SettingsBegin(alts: seq<AltSetting>, number: nat, rest: seq<byte>, b: seq<byte>)
    requires alts != [] && WfSettings(alts, number) && Ends(rest) && b == WriteSettings(alts) + rest
    ensures Ends(b) && Alternate(b, number)
  {
    var a, more := alts[0], WriteSettings(alts[1..]) + rest;
    FirstSettingWritten(alts, rest, b, |WriteSettings(alts)|);
    Grouped(SettingFields(a), a.extra + WriteEndpoints(a.endpoints), more);
    SettingFieldsBack(a, (a.extra + WriteEndpoints(a.endpoints)) + more);
    assert Proper(b[1]) && Alternate(b, number);
  }

  lemma OneWritten(r: Readers, a: AltSetting, rest: seq<byte>, b: seq<byte>, n: nat)
    requires AreReaders(r) && WfSetting(a) && Ends(rest) && b == WriteSetting(a) + rest && n == |WriteSetting(a)|
    ensures 0 < n <= |b| && r.one(b) == Setting(a, n, false)
  {
    SettingWritten(a, rest, b, n);
    assert r.one(b) == SettingAt(b);
  }

  lemma {:induction false} SettingsWritten(
    r: Readers, alts: seq<AltSetting>, number: nat, rest: seq<byte>, b: seq<byte>, n: nat)
    requires AreReaders(r) && alts != [] && WfSettings(alts, number) && Ends(rest) && !Alternate(rest, number)
    requires b == WriteSettings(alts) + rest && n == |WriteSettings(alts)|
    ensures r.all(b, number) == Parsed(alts, n)
    decreases |alts|
  {
    FirstSettingWritten(alts, rest, b, n);
    var first, more := |WriteSetting(alts[0])|, WriteSettings(alts[1..]) + rest;
    OneWritten(r, alts[0], more, b, first) by {
      if |alts| > 1 { SettingsBegin(alts[1..], number, rest, more); }
    }
    if |alts| == 1 {
      LastSettingParsed(r, b, n, alts, number);
    } else {
      SettingsBegin(alts[1..], number, rest, more);
      SettingsWritten(r, alts[1..], number, rest, more, n - first);
      SettingsParsed(r, b, first, more, alts, number, n - first, n);
    }
  }

  lemma SettingsRoundTrip(alts: seq<AltSetting>, number: nat, rest: seq<byte>)
    requires alts != [] && WfSettings(alts, number) && Ends(rest) && !Alternate(rest, number)
    ensures SettingsAt(WriteSettings(alts) + rest, number) == Parsed(alts, |WriteSettings(alts)|)
    ensures Ends(WriteSettings(alts) + rest) && Alternate(WriteSettings(alts) + rest, number)
  {
    SettingsBegin(alts, number, rest, WriteSettings(alts) + rest);
    var r := Readers(b => SettingAt(b), (b: seq<byte>, number: nat) => SettingsAt(b, number));
    SettingsWritten(r, alts, number, rest, WriteSettings(alts) + rest, |WriteSettings(alts)|);
  }

  lemma AlternateOfOne(b: seq<byte>, number: nat, other: nat)
    requires Alternate(b, number) && other != number
    ensures !Alternate(b, other)
  {
  }

  lemma TurnParsed(first: seq<byte>, more: seq<byte>, extra: seq<byte>, alts: seq<AltSetting>, number: nat)
    requires Ends(first + more) && Alternate(first + more, number)
    requires SettingsAt(first + more, number) == Parsed(alts, |first|)
    ensures TurnAt(first + more, extra) == NextTurn(extra, alts, more)
  {
    var b := first + more;
    BehindPrefix(first, more);
    assert b[0..] == b && b[..0] == [];
  }

  lemma InterfacesParsed(b: seq<byte>, extra: seq<byte>, list: seq<seq<AltSetting>>, more: seq<byte>, left: nat)
    requires list != [] && TurnAt(b, extra) == NextTurn(extra, list[0], more)
    requires InterfacesAt(more, |list| - 1, extra) == Interfaces(extra, list[1..], left)
    ensures InterfacesAt(b, |list|, extra) == Interfaces(extra, list, left)
  {
    HeadTail(list);
  }

  lemma {:induction false} InterfacesRoundTrip(list: seq<seq<AltSetting>>, extra: seq<byte>, rest: seq<byte>)
    requires WfInterfaces(list) && Ends(rest)
    requires list != [] ==> !Alternate(rest, list[|list| - 1][0].bInterfaceNumber)
    ensures InterfacesAt(WriteInterfaces(list) + rest, |list|, extra) == Interfaces(extra, list, |rest|)
    ensures Ends(WriteInterfaces(list) + rest)
    ensures list != [] ==> Alternate(WriteInterfaces(list) + rest, list[0][0].bInterfaceNumber)
    decreases |list|
  {
    if list == [] {
      assert WriteInterfaces(list) + rest == rest;
    } else {
      var number, more := list[0][0].bInterfaceNumber, WriteInterfaces(list[1..]) + rest;
      var first := WriteSettings(list[0]);
      InterfacesRoundTrip(list[1..], extra, rest);
      if |list| == 1 {
        assert more == rest;
      } else {
        AlternateOfOne(more, list[1][0].bInterfaceNumber, number);
      }
      SettingsRoundTrip(list[0], number, more);
      TurnParsed(first, more, extra, list[0], number);
      InterfacesParsed(first + more, extra, list, more, |rest|);
      Grouped(first, WriteInterfaces(list[1..]), rest);
    }
  }

  /** Extra descriptors before the first interface end up in the configuration. */
  lemma ExtraFirst(x: seq<byte>, b: seq<byte>, count: nat)
    requires count > 0 && ExtraOnly(x) && Ends(b)
    ensures InterfacesAt(x + b, count, []) == InterfacesAt(b, count, x)
  {
    ExtraAppend(x, b);
    BehindPrefix(x, b);
    assert b[0..] == b && b[..0] == [];
    assert TurnAt(x + b, []) == TurnAt(b, x);
  }

  lemma ConfigFieldsBack(c: Config, rest: seq<byte>)
    requires WfConfig(c)
    ensures var b := ConfigFields(c) + rest;
            && |ConfigFields(c)| == 9 == b[0] && b[1] == DT_CONFIG && b[9..] == rest
            && b[4] == |c.interfaces| && ConfigHeader(b) == c.(extra := [], interfaces := [])
  {
    WordBack(c.wTotalLength);
  }

  lemma ConfigParsed(b: seq<byte>, extra: seq<byte>, list: seq<seq<AltSetting>>, left: nat)
    requires |b| >= 9 == b[0] && b[1] == DT_CONFIG && b[4] == |list| <= MAX_INTERFACES
    requires InterfacesAt(b[9..], |list|, []) == Interfaces(extra, list, left)
    ensures ConfigAt(b) == Configuration(ConfigHeader(b).(extra := extra, interfaces := list), left)
  {
  }

  /** Parsing undoes serializing: every well-formed configuration comes back, and
      only the bytes behind it are left over. */
  lemma ParseUndoesWrite(c: Config, rest: seq<byte>)
    requires WfConfig(c) && Ends(rest)
    requires c.interfaces != [] ==> !Alternate(rest, c.interfaces[|c.interfaces| - 1][0].bInterfaceNumber)
    ensures ConfigAt(WriteConfig(c) + rest) == Configuration(c, |rest|)
  {
    var b := WriteInterfaces(c.interfaces) + rest;
    InterfacesRoundTrip(c.interfaces, c.extra, rest);
    if c.interfaces == [] {
      assert c.extra + b == b;
    } else {
      ExtraFirst(c.extra, b, |c.interfaces|);
    }
    ConfigFieldsBack(c, c.extra + b);
    ConfigParsed(ConfigFields(c) + (c.extra + b), c.extra, c.interfaces, |rest|);
    Grouped(ConfigFields(c), c.extra + WriteInterfaces(c.interfaces), rest);
    Grouped(c.extra, WriteInterfaces(c.interfaces), rest);
  }

  /** In particular nothing is left over of the serialized configuration alone. */
  lemma NothingLeftOver(c: Config)
    requires WfConfig(c)
    ensures ConfigAt(WriteConfig(c)) == Configuration(c, 0)
  {
    ParseUndoesWrite(c, []);
    assert WriteConfig(c) + [] == WriteConfig(c);
  }

  // ----- two devices, byte by byte -----

  /** A device with one bulk endpoint */
  function BulkBytes(): seq<byte> {
    [9, 2, 25, 0, 1, 1, 0, 128, 50] + [9, 4, 0, 0, 1, 255, 0, 0, 0] + [7, 5, 129, 2, 0, 2, 0]
  }

  function BulkConfig(): Config {
    Config(9, 2, 25, 1, 1, 0, 128, 50, [],
      [[AltSetting(9, 4, 0, 0, 1, 255, 0, 0, 0, [], [Endpoint(7, 5, 129, 2, 512, 0, 0, 0, [])])]])
  }

  lemma BulkDevice()
    ensures ConfigAt(BulkBytes()) == Configuration(BulkConfig(), 0)
  {
    var e := Endpoint(7, 5, 129, 2, 512, 0, 0, 0, []);
    var a := AltSetting(9, 4, 0, 0, 1, 255, 0, 0, 0, [], [e]);
    assert WriteEndpoint(e) == [7, 5, 129, 2, 0, 2, 0];
    WriteOne(a, e);
    WriteOnly(BulkConfig(), a, [9, 2, 25, 0, 1, 1, 0, 128, 50], SettingFields(a), WriteEndpoint(e));
    NothingLeftOver(BulkConfig());
  }

  lemma WriteOne(a: AltSetting, e: Endpoint)
    requires a.endpoints == [e]
    ensures WriteSetting(a) == SettingFields(a) + (a.extra + WriteEndpoint(e))
  {
    assert WriteEndpoints([e]) == WriteEndpoint(e) + [] == WriteEndpoint(e);
  }

  lemma WriteOnly(c: Config, a: AltSetting, h: seq<byte>, fields: seq<byte>, rest: seq<byte>)
    requires c.interfaces == [[a]] && c.extra == [] && ConfigFields(c) == h && WriteSetting(a) == fields + ([] + rest)
    ensures WriteConfig(c) == h + fields + rest
  {
    assert WriteSettings([a]) == WriteSetting(a) + [] == WriteSetting(a);
    assert WriteInterfaces([[a]]) == WriteSettings([a]) + [] == WriteSettings([a]);
  }

  /** An audio device: a control interface with a class specific descriptor, and a
      streaming interface with an alternate setting that has an endpoint of nine
      bytes and a class specific descriptor behind it. */
  function AudioBytes(): seq<byte> {
    [9, 2, 50, 0, 2, 1, 0, 128, 50]
    + [9, 4, 0, 0, 0, 1, 1, 0, 0, 3, 36, 1]
    + [9, 4, 1, 0, 0, 1, 2, 0, 0]
    + [9, 4, 1, 1, 1, 1, 2, 0, 6, 9, 5, 1, 9, 0, 1, 4, 3, 7, 2, 37]
  }

  function AudioConfig(): Config {
    Config(9, 2, 50, 2, 1, 0, 128, 50, [],
      [[AltSetting(9, 4, 0, 0, 0, 1, 1, 0, 0, [3, 36, 1], [])],
       [AltSetting(9, 4, 1, 0, 0, 1, 2, 0, 0, [], []),
        AltSetting(9, 4, 1, 1, 1, 1, 2, 0, 6, [], [Endpoint(9, 5, 1, 9, 256, 4, 3, 7, [2, 37])])]])
  }

  lemma AudioDevice()
    ensures ConfigAt(AudioBytes()) == Configuration(AudioConfig(), 0)
  {
    var e := Endpoint(9, 5, 1, 9, 256, 4, 3, 7, [2, 37]);
    var control := AltSetting(9, 4, 0, 0, 0, 1, 1, 0, 0, [3, 36, 1], []);
    var idle := AltSetting(9, 4, 1, 0, 0, 1, 2, 0, 0, [], []);
    var streaming := AltSetting(9, 4, 1, 1, 1, 1, 2, 0, 6, [], [e]);
    AudioSettings(control, idle, streaming, e);
    AudioInterfaces(control, idle, streaming);
    AudioIsWellFormed(AudioConfig(), control, idle, streaming, e);
    WriteThree(AudioConfig(), [9, 2, 50, 0, 2, 1, 0, 128, 50],
               WriteSetting(control), WriteSetting(idle), WriteSetting(streaming));
    NothingLeftOver(AudioConfig());
  }

  lemma WriteThree(c: Config, h: seq<byte>, x: seq<byte>, y: seq<byte>, z: seq<byte>)
    requires ConfigFields(c) == h && c.extra == [] && WriteInterfaces(c.interfaces) == x + (y + z)
    ensures WriteConfig(c) == h + x + y + z
  {
  }

  lemma AudioSettings(control: AltSetting, idle: AltSetting, streaming: AltSetting, e: Endpoint)
    requires e == Endpoint(9, 5, 1, 9, 256, 4, 3, 7, [2, 37])
    requires control == AltSetting(9, 4, 0, 0, 0, 1, 1, 0, 0, [3, 36, 1], [])
    requires idle == AltSetting(9, 4, 1, 0, 0, 1, 2, 0, 0, [], [])
    requires streaming == AltSetting(9, 4, 1, 1, 1, 1, 2, 0, 6, [], [e])
    ensures WriteSetting(control) == [9, 4, 0, 0, 0, 1, 1, 0, 0, 3, 36, 1]
    ensures WriteSetting(idle) == [9, 4, 1, 0, 0, 1, 2, 0, 0]
    ensures WriteSetting(streaming) == [9, 4, 1, 1, 1, 1, 2, 0, 6, 9, 5, 1, 9, 0, 1, 4, 3, 7, 2, 37]
  {
    assert WriteEndpoint(e) == [9, 5, 1, 9, 0, 1, 4, 3, 7, 2, 37];
    WriteOne(streaming, e);
  }

  lemma AudioInterfaces(control: AltSetting, idle: AltSetting, streaming: AltSetting)
    ensures WriteInterfaces([[control], [idle, streaming]])
            == WriteSetting(control) + (WriteSetting(idle) + WriteSetting(streaming))
  {
    var list := [[control], [idle, streaming]];
    assert WriteSettings([control]) == WriteSetting(control) + [] == WriteSetting(control);
    assert [idle, streaming][1..] == [streaming];
    assert WriteSettings([streaming]) == WriteSetting(streaming) + [] == WriteSetting(streaming);
    assert list[1..] == [[idle, streaming]];
    assert WriteInterfaces([[idle, streaming]]) == WriteSettings([idle, streaming]) + [];
  }

  lemma AudioIsWellFormed(c: Config, control: AltSetting, idle: AltSetting, streaming: AltSetting, e: Endpoint)
    requires e == Endpoint(9, 5, 1, 9, 256, 4, 3, 7, [2, 37])
    requires control == AltSetting(9, 4, 0, 0, 0, 1, 1, 0, 0, [3, 36, 1], [])
    requires idle == AltSetting(9, 4, 1, 0, 0, 1, 2, 0, 0, [], [])
    requires streaming == AltSetting(9, 4, 1, 1, 1, 1, 2, 0, 6, [], [e])
    requires c == Config(9, 2, 50, 2, 1, 0, 128, 50, [], [[control], [idle, streaming]])
    ensures WfConfig(c)
  {
    assert [3, 36, 1][3..] == [] && [2, 37][2..] == [];
    assert WfSetting(control) && WfSetting(idle) && WfSetting(streaming);
    assert [idle, streaming][1..] == [streaming];
    assert WfSettings([streaming], 1) && WfSettings([idle, streaming], 1) && WfSettings([control], 0);
  }

  // ----- what is refused -----

  /** Every failure is the code -1, and these beginnings of a configuration fail. */
  lemma Refused(b: seq<byte>)
    requires |b| < 9 || b[1] != 2 || b[0] < 9 || b[0] > |b| || b[4] > 32
    ensures ConfigAt(b) == ConfigFailed(-1)
  {
  }

  /** An interface with more than 32 endpoints, or one that is too short, is refused;
      what is not an interface, or is cut short, is the end. */
  lemma SettingRefused(b: seq<byte>)
    ensures |b| >= 9 && b[1] == 4 && (b[0] < 9 || (b[0] <= |b| && b[4] > 32)) ==> SettingAt(b) == SettingFailed(-1)
    ensures |b| < 9 || b[1] != 4 || (b[0] >= 9 && b[0] > |b|) <==> SettingAt(b) == NoSetting
  {
  }

  lemma EndpointRefused(b: seq<byte>)
    ensures |b| < 2 || (b[1] == 5 && b[0] < 7 && b[0] <= |b|) ==> EndpointAt(b) == Failed(-1)
    ensures |b| >= 2 && (b[1] != 5 || b[0] > |b|) <==> EndpointAt(b) == Nothing
  {
  }

  // ----- a count without endpoints -----

  /** An alternate setting that announces one endpoint, followed by two bytes of a
      longer class specific descriptor. */
  function CutSetting(): seq<byte> { [9, 4, 0, 0, 1, 255, 0, 0, 0] + [5, 36] }

  lemma CutSettingParsed()
    ensures var a := SettingHeader(CutSetting());
            InterfaceAt(CutSetting()) == Parsed([a], 9) && a.bNumEndpoints == 1 && a.endpoints == []
  {
    var b := CutSetting();
    assert b[9..] == [5, 36];
    assert Extra([5, 36]) == Short(0);
  }

  /** So the count of endpoints can exceed the endpoints: here is a configuration
      of which the parser returns one endpoint too many. */
  lemma CountWithoutEndpoints()
    ensures var a := ConfigAt([9, 2, 20, 0, 1, 1, 0, 128, 50] + CutSetting());
            && a.Configuration? && a.value.interfaces == [[SettingHeader(CutSetting())]]
            && a.value.interfaces[0][0].bNumEndpoints == 1 && a.value.interfaces[0][0].endpoints == []
  {
    var h: seq<byte> := [9, 2, 20, 0, 1, 1, 0, 128, 50];
    var b, c, alt := h + CutSetting(), CutSetting(), SettingHeader(CutSetting());
    CutSettingParsed();
    BehindPrefix(h, c);
    assert c[0..] == c && c[..0] == [];
    assert Extra(c) == Stop(0);
    assert TurnAt(c, []) == NextTurn([], [alt], c[9..]);
    assert InterfacesAt(c[9..], 0, []) == Interfaces([], [], 2);
    assert InterfacesAt(c, 1, []) == Interfaces([], [[alt]], 2);
    ConfigParsed(b, [], [[alt]], 2);
  }
}
