/** The EEPROM image of rtl_eeprom and the byte device of librtlsdr that holds it. */
module Eeprom {
  import opened Patches
  import opened Words
  import opened Wrappers

  const EEPROM_SIZE := 256
  const STR_OFFSET := 9
  /** Characters come before this position; it holds the length of the IR
      configuration. */
  const STR_END := 78

  /** Flags count as set if they are not 0.  Strings do not contain 0. */
  datatype Config = Config(
    vendorId: uint16, productId: uint16, manufacturer: seq<byte>, product: seq<byte>, serial: seq<byte>,
    haveSerial: int, enableIr: int, remoteWakeup: int)

  // ----- the image as a whole -----

  /** A string descriptor: length, type 3, and every character with a zero behind it. */
  function Characters(str: seq<byte>): (d: seq<byte>)
    ensures |d| == 2 * |str|
  {
    if str == [] then [] else Characters(str[..|str| - 1]) + [str[|str| - 1], 0]
  }

  lemma {:induction false} CharacterAt(str: seq<byte>, k: nat)
    requires k < |str|
    ensures Characters(str)[2 * k] == str[k] && Characters(str)[2 * k + 1] == 0
  {
    if k < |str| - 1 {
      CharacterAt(str[..|str| - 1], k);
    }
  }

  function Descriptor(str: seq<byte>): (d: seq<byte>)
    requires |str| <= 126
    ensures |d| == 2 + 2 * |str|
  {
    [2 + 2 * |str|, 3] + Characters(str)
  }

  /** May the descriptor of a string with n characters begin at pos? */
  predicate Room(pos: int, n: nat) { pos >= 0 && (n == 0 || pos + 2 * n < STR_END) }

  function PosOfProduct(c: Config): int { STR_OFFSET + 2 + 2 * |c.manufacturer| }

  function PosOfSerial(c: Config): int { PosOfProduct(c) + 2 + 2 * |c.product| }

  /** The strings of the configuration fit: 34 characters for the manufacturer
      alone, 33 with a product, 32 with a serial number. */
  predicate Fits(c: Config) {
    && (|c.serial| > 0 ==> |c.manufacturer| + |c.product| + |c.serial| <= 32)
    && (|c.product| > 0 ==> |c.manufacturer| + |c.product| <= 33)
    && |c.manufacturer| <= 34
  }

  function Flag(x: int): int { if x != 0 then 1 else 0 }

  function Header(c: Config): (h: seq<byte>)
    ensures |h| == STR_OFFSET
  {
    [0x28, 0x32, c.vendorId % 256, c.vendorId / 256, c.productId % 256, c.productId / 256,
     if c.haveSerial != 0 then 0xa5 else 0, 0x14 + Flag(c.remoteWakeup) + 2 * Flag(c.enableIr), 2]
  }

  /** The image of c, written over what was there. */
  function Image(c: Config, before: seq<byte>): (image: seq<byte>)
    requires Fits(c) && |before| == EEPROM_SIZE
    ensures |image| == EEPROM_SIZE
  {
    var a := Patch(before, 0, Header(c));
    var b := Patch(a, STR_OFFSET, Descriptor(c.manufacturer));
    var d := Patch(b, PosOfProduct(c), Descriptor(c.product));
    Patch(d, PosOfSerial(c), Descriptor(c.serial))[STR_END := 0]
  }

  // ----- reading the image -----

  /** The characters of the string at pos, from place i on, if they lie within the
      data, and the position behind the string. */
  function StringFrom(pos: nat, data: seq<byte>, i: nat): Option<(seq<byte>, nat)>
    requires pos < |data| && i >= 2
    decreases 256 - i
  {
    if i >= data[pos] then Some(([], pos + i))
    else if pos + i >= |data| then None
    else
      match StringFrom(pos, data, i + 2)
      case None => None
      case Some(rest) => Some(([data[pos + i]] + rest.0, rest.1))
  }

  /** What parse_eeprom_to_conf() makes of an image; it prints an error, and goes
      on, if a marker is wrong.  None: it would read behind the end. */
  datatype Parsed = OutOfBounds | Parsed(conf: Config, error: bool)

  function Parse(data: seq<byte>): Parsed
    requires |data| == EEPROM_SIZE
  {
    match StringFrom(STR_OFFSET, data, 2)
    case None => OutOfBounds
    case Some(m) =>
      if m.1 + 1 >= |data| then OutOfBounds
      else
        match StringFrom(m.1, data, 2)
        case None => OutOfBounds
        case Some(p) =>
          if p.1 + 1 >= |data| then OutOfBounds
          else
            match StringFrom(p.1, data, 2)
            case None => OutOfBounds
            case Some(s) =>
              Parsed(
                Config(Word(data[2], data[3]), Word(data[4], data[5]), m.0, p.0, s.0,
                       if data[6] == 0xa5 then 1 else 0, data[7] / 2 % 2, data[7] % 2),
                || data[0] != 0x28 || data[1] != 0x32
                || data[STR_OFFSET + 1] != 3 || data[m.1 + 1] != 3 || data[p.1 + 1] != 3)
  }

  /** The image holds str at pos. */
  ghost predicate Holds(data: seq<byte>, pos: nat, str: seq<byte>) {
    && |str| <= 126 && pos + 2 + 2 * |str| <= |data| && data[pos] == 2 + 2 * |str|
    && forall k | 0 <= k < |str| :: data[pos + 2 + 2 * k] == str[k]
  }

  lemma {:induction false} ReadsBack(data: seq<byte>, pos: nat, str: seq<byte>, k: nat)
    requires Holds(data, pos, str) && k <= |str|
    ensures StringFrom(pos, data, 2 + 2 * k) == Some((str[k..], pos + 2 + 2 * |str|))
    decreases |str| - k
  {
    if k < |str| {
      ReadsBack(data, pos, str, k + 1);
      assert [str[k]] + str[k + 1..] == str[k..];
      OneCharacter(data, pos, 2 + 2 * k);
      assert 2 + 2 * k + 2 == 2 + 2 * (k + 1) && data[pos + 2 + 2 * k] == str[k];
    } else {
      assert str[k..] == [];
    }
  }

  lemma OneCharacter(data: seq<byte>, pos: nat, i: nat)
    requires pos < |data| && 2 <= i < data[pos] && pos + i < |data| && StringFrom(pos, data, i + 2).Some?
    ensures var rest := StringFrom(pos, data, i + 2).value;
            StringFrom(pos, data, i) == Some(([data[pos + i]] + rest.0, rest.1))
  {
  }

  // ----- the round trip -----

  /** Flags come back as 0 or 1. */
  function Normal(c: Config): Config {
    c.(haveSerial := Flag(c.haveSerial), enableIr := Flag(c.enableIr), remoteWakeup := Flag(c.remoteWakeup))
  }

  /** The descriptor of str is in place, up to an overwritten even position. */
  ghost predicate InPlace(data: seq<byte>, pos: nat, str: seq<byte>) {
    && |str| <= 126 && pos + 2 + 2 * |str| <= |data|
    && forall i | 0 <= i < 2 + 2 * |str| && pos + i != STR_END :: data[pos + i] == Descriptor(str)[i]
  }

  lemma InPlaceHolds(data: seq<byte>, pos: nat, str: seq<byte>)
    requires InPlace(data, pos, str) && pos % 2 == 1
    ensures Holds(data, pos, str)
    ensures pos + 1 != STR_END ==> data[pos + 1] == 3
  {
    assert data[pos + 0] == Descriptor(str)[0];
    forall k | 0 <= k < |str| ensures data[pos + 2 + 2 * k] == str[k] {
      CharacterAt(str, k);
      var i := 2 + 2 * k;
      assert data[pos + i] == Descriptor(str)[i];
    }
    var i := 1;
    assert pos + i != STR_END ==> data[pos + i] == Descriptor(str)[i];
  }

  /** Header and strings of c are in place. */
  ghost predicate Layout(c: Config, image: seq<byte>) {
    && |image| == EEPROM_SIZE && Fits(c)
    && image[..STR_OFFSET] == Header(c)
    && InPlace(image, STR_OFFSET, c.manufacturer) && InPlace(image, PosOfProduct(c), c.product)
    && InPlace(image, PosOfSerial(c), c.serial) && image[STR_END] == 0
  }

  lemma ImageLayout(c: Config, before: seq<byte>)
    requires Fits(c) && |before| == EEPROM_SIZE
    ensures Layout(c, Image(c, before))
  {
  }

  lemma HeaderBack(c: Config)
    ensures var h := Header(c);
            && h[0] == 0x28 && h[1] == 0x32 && Word(h[2], h[3]) == c.vendorId && Word(h[4], h[5]) == c.productId
            && (h[6] == 0xa5 <==> c.haveSerial != 0)
            && h[7] / 2 % 2 == Flag(c.enableIr) && h[7] % 2 == Flag(c.remoteWakeup)
  {
  }

  /** The strings of c can be read from an image, each behind the other. */
  ghost predicate StringsRead(c: Config, data: seq<byte>) {
    && |data| == EEPROM_SIZE && Fits(c)
    && StringFrom(STR_OFFSET, data, 2) == Some((c.manufacturer, PosOfProduct(c)))
    && StringFrom(PosOfProduct(c), data, 2) == Some((c.product, PosOfSerial(c)))
    && StringFrom(PosOfSerial(c), data, 2) == Some((c.serial, PosOfSerial(c) + 2 + 2 * |c.serial|))
  }

  lemma StringReadsBack(data: seq<byte>, pos: nat, str: seq<byte>)
    requires InPlace(data, pos, str) && pos % 2 == 1
    ensures StringFrom(pos, data, 2) == Some((str, pos + 2 + 2 * |str|))
    ensures pos + 1 != STR_END ==> data[pos + 1] == 3
  {
    InPlaceHolds(data, pos, str);
    ReadsBack(data, pos, str, 0);
    assert str[0..] == str;
  }

  lemma ManufacturerReads(c: Config, image: seq<byte>)
    requires Layout(c, image)
    ensures StringFrom(STR_OFFSET, image, 2) == Some((c.manufacturer, PosOfProduct(c)))
  {
    StringReadsBack(image, STR_OFFSET, c.manufacturer);
  }

  lemma ProductReads(c: Config, image: seq<byte>)
    requires Layout(c, image)
    ensures StringFrom(PosOfProduct(c), image, 2) == Some((c.product, PosOfSerial(c)))
  {
    StringReadsBack(image, PosOfProduct(c), c.product);
  }

  lemma SerialReads(c: Config, image: seq<byte>)
    requires Layout(c, image)
    ensures StringFrom(PosOfSerial(c), image, 2) == Some((c.serial, PosOfSerial(c) + 2 + 2 * |c.serial|))
  {
    StringReadsBack(image, PosOfSerial(c), c.serial);
  }

  lemma LayoutStrings(c: Config, image: seq<byte>)
    requires Layout(c, image)
    ensures StringsRead(c, image)
  {
    ManufacturerReads(c, image);
    ProductReads(c, image);
    SerialReads(c, image);
  }

  lemma LayoutMarkers(c: Config, image: seq<byte>)
    requires Layout(c, image)
    ensures image[STR_OFFSET + 1] == 3
    ensures image[PosOfProduct(c) + 1] != 3 <==> |c.manufacturer| == 33
    ensures image[PosOfSerial(c) + 1] != 3 <==> |c.manufacturer| + |c.product| == 32
  {
    InPlaceHolds(image, STR_OFFSET, c.manufacturer);
    InPlaceHolds(image, PosOfProduct(c), c.product);
    InPlaceHolds(image, PosOfSerial(c), c.serial);
  }

  lemma ParseOfStrings(c: Config, data: seq<byte>)
    requires StringsRead(c, data)
    ensures Parse(data) == Parsed(
                Config(Word(data[2], data[3]), Word(data[4], data[5]), c.manufacturer, c.product, c.serial,
                       if data[6] == 0xa5 then 1 else 0, data[7] / 2 % 2, data[7] % 2),
                || data[0] != 0x28 || data[1] != 0x32
                || data[STR_OFFSET + 1] != 3 || data[PosOfProduct(c) + 1] != 3 || data[PosOfSerial(c) + 1] != 3)
  {
  }

  lemma LayoutHeader(c: Config, h: seq<byte>)
    requires Layout(c, h)
    ensures h[0] == 0x28 && h[1] == 0x32 && Word(h[2], h[3]) == c.vendorId && Word(h[4], h[5]) == c.productId
    ensures h[6] == 0xa5 <==> c.haveSerial != 0
    ensures h[7] / 2 % 2 == Flag(c.enableIr) && h[7] % 2 == Flag(c.remoteWakeup)
  {
    HeaderBack(c);
    assert forall i | 0 <= i < STR_OFFSET :: h[i] == h[..STR_OFFSET][i];
  }

  lemma LayoutParses(c: Config, image: seq<byte>)
    requires Layout(c, image)
    ensures Parse(image) == Parsed(Normal(c), |c.manufacturer| == 33 || |c.manufacturer| + |c.product| == 32)
  {
    LayoutStrings(c, image);
    LayoutMarkers(c, image);
    LayoutHeader(c, image);
    ParseOfStrings(c, image);
  }

  /** Parsing the image of a configuration that fits gives the configuration back.
      It does so without an error message unless the byte that is set to 0 at the
      end is the marker of an empty string. */
  lemma ImageRoundTrip(c: Config, before: seq<byte>)
    requires Fits(c) && |before| == EEPROM_SIZE
    ensures Parse(Image(c, before))
            == Parsed(Normal(c), |c.manufacturer| == 33 || |c.manufacturer| + |c.product| == 32)
  {
    ImageLayout(c, before);
    LayoutParses(c, Image(c, before));
  }

  // ----- the image byte by byte -----

  /** The descriptor of str at an odd position: its length, type 3 and its characters,
      each with a zero behind it. */
  ghost predicate StringAt(data: seq<byte>, pos: nat, str: seq<byte>) {
    && pos + 2 + 2 * |str| <= |data| && data[pos] == 2 + 2 * |str| && (pos != 77 ==> data[pos + 1] == 3)
    && forall k | 0 <= k < |str| :: data[pos + 2 + 2 * k] == str[k] && data[pos + 3 + 2 * k] == 0
  }

  lemma InPlaceBytes(data: seq<byte>, pos: nat, str: seq<byte>)
    requires InPlace(data, pos, str) && pos % 2 == 1 && |data| > STR_END && data[STR_END] == 0
    ensures StringAt(data, pos, str)
  {
    InPlaceHolds(data, pos, str);
    forall k | 0 <= k < |str| ensures data[pos + 3 + 2 * k] == 0 {
      CharacterAt(str, k);
      var i := 3 + 2 * k;
      assert pos + i != STR_END ==> data[pos + i] == Descriptor(str)[i];
    }
  }

  /** The nine bytes before the strings; byte 7 has bits 4 and 2 set, and the flags
      in bits 1 and 0. */
  ghost predicate HeaderAt(data: seq<byte>, c: Config)
    requires |data| >= 9
  {
    && data[0] == 40 && data[1] == 50
    && data[2] == c.vendorId % 256 && data[3] == c.vendorId / 256
    && data[4] == c.productId % 256 && data[5] == c.productId / 256
    && (if c.haveSerial == 0 then data[6] == 0 else data[6] == 165)
    && data[7] / 16 == 1 && data[7] / 8 % 2 == 0 && data[7] / 4 % 2 == 1
    && (data[7] / 2 % 2 == 1 <==> c.enableIr != 0) && (data[7] % 2 == 1 <==> c.remoteWakeup != 0)
    && data[8] == 2
  }

  lemma HeaderBytes(data: seq<byte>, c: Config)
    requires |data| >= 9 && data[..9] == Header(c)
    ensures HeaderAt(data, c)
  {
    var h := Header(c);
    assert forall i | 0 <= i < 9 :: data[i] == data[..9][i] == h[i];
    HeaderBack(c);
    assert h[7] < 24;
  }

  /** The three strings, and where they begin in the image */
  function StringOf(c: Config, n: nat): seq<byte> {
    if n == 0 then c.manufacturer else if n == 1 then c.product else c.serial
  }

  function PosOf(c: Config, n: nat): nat {
    if n == 0 then 9
    else if n == 1 then 11 + 2 * |c.manufacturer|
    else 13 + 2 * |c.manufacturer| + 2 * |c.product|
  }

  lemma LayoutString(c: Config, image: seq<byte>, n: nat)
    requires Layout(c, image)
    ensures InPlace(image, PosOf(c, n), StringOf(c, n))
  {
  }

  lemma ImageTail(c: Config, before: seq<byte>, i: nat)
    requires Fits(c) && |before| == EEPROM_SIZE && i < EEPROM_SIZE && i != STR_END
    requires i >= PosOfSerial(c) + 2 + 2 * |c.serial|
    ensures Image(c, before)[i] == before[i]
  {
  }

  /** Every byte of the image: nine of the header and a zero at 78, ... */
  lemma ImageHeader(c: Config, before: seq<byte>)
    requires Fits(c) && |before| == 256
    ensures HeaderAt(Image(c, before), c) && Image(c, before)[78] == 0
  {
    ImageLayout(c, before);
    HeaderBytes(Image(c, before), c);
  }

  lemma StringInLayout(c: Config, image: seq<byte>, n: nat, pos: nat, str: seq<byte>)
    requires Layout(c, image) && pos == PosOf(c, n) && str == StringOf(c, n)
    ensures StringAt(image, pos, str)
  {
    LayoutString(c, image, n);
    InPlaceBytes(image, pos, str);
  }

  /** ... three strings one behind the other ... */
  lemma ImageString(c: Config, before: seq<byte>, n: nat, image: seq<byte>)
    requires Fits(c) && |before| == 256 && image == Image(c, before)
    ensures StringAt(image, PosOf(c, n), StringOf(c, n))
  {
    ImageLayout(c, before);
    StringInLayout(c, image, n, PosOf(c, n), StringOf(c, n));
  }

  /** ... and all that is behind the strings stays. */
  lemma ImageKeepsRest(c: Config, before: seq<byte>, end: nat)
    requires Fits(c) && |before| == 256
    requires end == 15 + 2 * |c.manufacturer| + 2 * |c.product| + 2 * |c.serial|
    ensures forall i | end <= i < 256 && i != 78 :: Image(c, before)[i] == before[i]
  {
    forall i | end <= i < 256 && i != 78 ensures Image(c, before)[i] == before[i] {
      ImageTail(c, before, i);
    }
  }

  // ----- the functions of rtl_eeprom -----

  method WriteCharacter(data: array<byte>, at: nat, c: byte)
    requires at + 1 < data.Length
    modifies data
    ensures data[..] == old(data[..])[at := c][at + 1 := 0]
  {
    data[at] := c;
    data[at + 1] := 0;
  }

  /** The loop of set_string_descriptor(); j is where it ends, or -1 */
  method WriteCharacters(pos: nat, data: array<byte>, str: seq<byte>) returns (j: int)
    requires data.Length == EEPROM_SIZE
    modifies data
    ensures j == if Room(pos, |str|) then 2 + 2 * |str| else -1
    ensures j >= 0 && str != [] ==> data[..] == Patch(old(data[..]), pos + 2, Characters(str))
    ensures str == [] ==> data[..] == old(data[..])
  {
    var i := 0;
    j := 2;
    ghost var before := data[..];
    while i < |str|
      invariant 0 <= i <= |str| && j == 2 + 2 * i && (i > 0 ==> pos + 2 * i < STR_END)
      invariant i == 0 ==> data[..] == before
      invariant i > 0 ==> data[..] == Patch(before, pos + 2, Characters(str[..i]))
    {
      if pos + j >= STR_END {
        return -1;
      }
      OneMoreCharacter(before, pos + 2, str, i);
      WriteCharacter(data, pos + j, str[i]);
      j := j + 2;
      i := i + 1;
    }
    assert str[..i] == str;
  }

  /** set_string_descriptor() */
  method SetStringDescriptor(pos: int, data: array<byte>, str: seq<byte>) returns (r: int)
    requires data.Length == EEPROM_SIZE && pos + 1 < data.Length
    modifies data
    ensures r == if Room(pos, |str|) then pos + 2 + 2 * |str| else -1
    ensures r >= 0 ==> |str| <= 126 && data[..] == Patch(old(data[..]), pos, Descriptor(str))
  {
    if pos < 0 {
      return -1;
    }
    data[pos + 1] := 3;
    ghost var marked := data[..];
    var j := WriteCharacters(pos, data, str);
    if j < 0 {
      return -1;
    }
    HeaderAndBody(old(data[..]), pos, j, 3, Characters(str));
    assert Descriptor(str) == [j, 3] + Characters(str);
    data[pos] := j;
    return pos + j;
  }

  lemma HeaderAndBody(s: seq<byte>, pos: nat, x: byte, y: byte, w: seq<byte>)
    requires pos + 2 + |w| <= |s|
    ensures Patch(s, pos, [x, y] + w) == Patch(s[pos + 1 := y], pos + 2, w)[pos := x]
    ensures w == [] ==> Patch(s[pos + 1 := y], pos + 2, w) == s[pos + 1 := y]
  {
    PatchTwice(s, pos, [x, y], w);
    PatchTwo(s, pos, x, y);
    PatchThenSet(s[pos + 1 := y], pos, x, w);
  }

  lemma PatchTwo(s: seq<byte>, pos: nat, x: byte, y: byte)
    requires pos + 2 <= |s|
    ensures Patch(s, pos, [x, y]) == s[pos + 1 := y][pos := x]
  {
  }

  lemma PatchThenSet(s: seq<byte>, pos: nat, x: byte, w: seq<byte>)
    requires pos + 2 + |w| <= |s|
    ensures Patch(s[pos := x], pos + 2, w) == Patch(s, pos + 2, w)[pos := x]
    ensures w == [] ==> Patch(s, pos + 2, w) == s
  {
  }

  lemma OneMoreCharacter(before: seq<byte>, at: nat, str: seq<byte>, i: nat)
    requires i < |str| && at + 2 * i + 2 <= |before|
    ensures Patch(before, at, Characters(str[..i + 1]))
            == Patch(before, at, Characters(str[..i]))[at + 2 * i := str[i]][at + 2 * i + 1 := 0]
    ensures Patch(before, at, Characters(str[..0])) == before
  {
    assert str[..i + 1][..i] == str[..i];
  }

  /** gen_eeprom_from_conf(): it reports success exactly for what fits. */
  method GenEepromFromConf(conf: Config, dat: array<byte>) returns (r: int)
    requires dat.Length == EEPROM_SIZE
    modifies dat
    ensures r >= 0 <==> Fits(conf)
    ensures r >= 0 ==> dat[..] == Image(conf, old(dat[..]))
  {
    GenHeader(conf, dat);
    var pos := SetStringDescriptor(STR_OFFSET, dat, conf.manufacturer);
    pos := SetStringDescriptor(pos, dat, conf.product);
    pos := SetStringDescriptor(pos, dat, conf.serial);
    dat[STR_END] := 0;
    return pos;
  }

  method GenHeader(conf: Config, dat: array<byte>)
    requires dat.Length == EEPROM_SIZE
    modifies dat
    ensures dat[..] == Patch(old(dat[..]), 0, Header(conf))
  {
    dat[0] := 0x28;
    dat[1] := 0x32;
    dat[2] := conf.vendorId % 256;
    dat[3] := conf.vendorId / 256;
    dat[4] := conf.productId % 256;
    dat[5] := conf.productId / 256;
    dat[6] := if conf.haveSerial != 0 then 0xa5 else 0;
    dat[7] := 0x14 + Flag(conf.remoteWakeup) + 2 * Flag(conf.enableIr);
    dat[8] := 2;
  }

  /** get_string_descriptor(); nothing if it would read behind the end */
  method GetStringDescriptor(pos: nat, data: array<byte>) returns (o: Option<(seq<byte>, nat)>, error: bool)
    requires pos + 1 < data.Length
    ensures o == StringFrom(pos, data[..], 2) && (error <==> data[pos + 1] != 3)
  {
    var length: int := data[pos];
    error := data[pos + 1] != 3;
    var str: seq<byte>, i: int := [], 2;
    BeforeNothing(StringFrom(pos, data[..], 2));
    while i < length
      invariant i >= 2 && StringFrom(pos, data[..], 2) == Before(str, StringFrom(pos, data[..], i))
      decreases length - i
    {
      if pos + i >= data.Length {
        return None, error;
      }
      NextCharacter(pos, data[..], i, str);
      str := str + [data[pos + i]];
      i := i + 2;
    }
    assert str + [] == str;
    return Some((str, pos + i)), error;
  }

  function Before(str: seq<byte>, o: Option<(seq<byte>, nat)>): Option<(seq<byte>, nat)> {
    match o
    case None => None
    case Some(rest) => Some((str + rest.0, rest.1))
  }

  lemma BeforeNothing(o: Option<(seq<byte>, nat)>)
    ensures Before([], o) == o
  {
    if o.Some? { assert [] + o.value.0 == o.value.0; }
  }

  lemma NextCharacter(pos: nat, data: seq<byte>, i: nat, str: seq<byte>)
    requires pos < |data| && 2 <= i < data[pos] && pos + i < |data|
    ensures Before(str, StringFrom(pos, data, i)) == Before(str + [data[pos + i]], StringFrom(pos, data, i + 2))
  {
    var o := StringFrom(pos, data, i + 2);
    if o.Some? {
      assert str + ([data[pos + i]] + o.value.0) == (str + [data[pos + i]]) + o.value.0;
    }
  }

  /** parse_eeprom_to_conf() */
  method ParseEepromToConf(dat: array<byte>) returns (parsed: Parsed)
    requires dat.Length == EEPROM_SIZE
    ensures parsed == Parse(dat[..])
  {
    var m, mError := GetStringDescriptor(STR_OFFSET, dat);
    if m.None? || m.value.1 + 1 >= dat.Length {
      return OutOfBounds;
    }
    var p, pError := GetStringDescriptor(m.value.1, dat);
    if p.None? || p.value.1 + 1 >= dat.Length {
      return OutOfBounds;
    }
    var s, sError := GetStringDescriptor(p.value.1, dat);
    if s.None? {
      return OutOfBounds;
    }
    return Parsed(
        Config(Word(dat[2], dat[3]), Word(dat[4], dat[5]), m.value.0, p.value.0, s.value.0,
               if dat[6] == 0xa5 then 1 else 0, dat[7] / 2 % 2, dat[7] % 2),
        dat[0] != 0x28 || dat[1] != 0x32 || mError || pError || sError);
  }

  // ----- the byte device -----

  class Device {
    /** What the EEPROM chip holds. */
    var cells: seq<byte>

    constructor (cells: seq<byte>)
      requires |cells| == EEPROM_SIZE
      ensures this.cells == cells
    {
      this.cells := cells;
    }

    /** rtlsdr_write_eeprom(): answers[i] is the return code of the write of byte i,
        if it is needed; a write that does not return 2 leaves the cell alone. */
    method WriteEeprom(data: seq<byte>, offset: byte, answers: seq<int>) returns (r: int, ghost done: nat)
      requires |cells| == EEPROM_SIZE && |answers| >= |data|
      modifies this
      ensures |data| + offset > 256 ==> r == -2 && done == 0
      ensures |data| + offset <= 256 ==> r == 0 || r == -3
      ensures done <= |data| && (r == 0 ==> done == |data|) && (done > 0 ==> done + offset <= 256)
      ensures cells == if done == 0 then old(cells) else Patch(old(cells), offset, data[..done])
      ensures r == 0 ==> forall k | 0 <= k < |data| && old(cells)[offset + k] != data[k] :: answers[k] == 2
      ensures r == -3 ==> done < |data| && answers[done] != 2 && old(cells)[offset + done] != data[done]
    {
      done := 0;
      if |data| + offset > 256 {
        return -2, 0;
      }
      var i := 0;
      assert Patch(cells, offset, data[..0]) == cells;
      while i < |data|
        invariant 0 <= i <= |data| && |cells| == EEPROM_SIZE
        invariant WrittenUpTo(old(cells), cells, offset, data, answers, i)
      {
        var cmd1 := cells[i + offset];
        WrittenNext(old(cells), cells, offset, data, answers, i);
        if cmd1 == data[i] {
          i := i + 1;
          continue;
        }
        cmd1 := data[i];
        var rc := answers[i];
        if rc != 2 {
          return -3, i;
        }
        cells := cells[i + offset := cmd1];
        i := i + 1;
      }
      return 0, i;
    }

    /** rtlsdr_read_eeprom(), when the bus works */
    method ReadEeprom(data: array<byte>, offset: byte, length: nat) returns (r: int)
      requires |cells| == EEPROM_SIZE && length <= data.Length
      modifies data
      ensures length + offset > 256 ==> r == -2 && data[..] == old(data[..])
      ensures length + offset <= 256
              ==> r == 1 && data[..length] == cells[offset..offset + length] && data[length..] == old(data[length..])
    {
      if length + offset > 256 {
        return -2;
      }
      var i := 0;
      while i < length
        invariant 0 <= i <= length && data[..i] == cells[offset..offset + i] && data[length..] == old(data[length..])
      {
        data[i] := cells[offset + i];
        i := i + 1;
      }
      return 1;
    }
  }

  /** The first i bytes have been written, where they were not there already. */
  ghost predicate WrittenUpTo(
    before: seq<byte>, now: seq<byte>, offset: byte, data: seq<byte>, answers: seq<int>, i: nat)
    requires i <= |data| <= |answers| && |data| + offset <= |before|
  {
    && now == Patch(before, offset, data[..i])
    && forall k | 0 <= k < i && before[offset + k] != data[k] :: answers[k] == 2
  }

  lemma WrittenNext(
    before: seq<byte>, now: seq<byte>, offset: byte, data: seq<byte>, answers: seq<int>, i: nat)
    requires i < |data| <= |answers| && |data| + offset <= |before|
    requires WrittenUpTo(before, now, offset, data, answers, i)
    ensures now[i + offset] == before[offset + i]
    ensures now[i + offset] == data[i] ==> WrittenUpTo(before, now, offset, data, answers, i + 1)
    ensures answers[i] == 2 ==> WrittenUpTo(before, now[i + offset := data[i]], offset, data, answers, i + 1)
  {
    PatchOneMore(before, offset, data, i);
  }

  lemma PatchOneMore(s: seq<byte>, at: nat, v: seq<byte>, i: nat)
    requires i < |v| && at + |v| <= |s|
    ensures Patch(s, at, v[..i + 1]) == Patch(s, at, v[..i])[at + i := v[i]]
  {
  }

  lemma PatchAll(s: seq<byte>, v: seq<byte>)
    requires |s| == |v|
    ensures Patch(s, 0, v[..|v|]) == v
  {
  }

  /** Generating and writing a configuration */
  method Store(conf: Config, dev: Device, buf: array<byte>, answers: seq<int>) returns (ok: bool)
    requires |dev.cells| == EEPROM_SIZE == buf.Length && |answers| >= EEPROM_SIZE
    modifies dev, buf
    ensures ok ==> Fits(conf) && dev.cells == Image(conf, old(buf[..]))
    ensures !ok && Fits(conf) ==> exists i | 0 <= i < EEPROM_SIZE :: answers[i] != 2
  {
    var r := GenEepromFromConf(conf, buf);
    if r < 0 {
      return false;
    }
    ghost var done;
    r, done := dev.WriteEeprom(buf[..], 0, answers);
    if r == 0 { PatchAll(old(dev.cells), buf[..]); }
    return r == 0;
  }

  /** Reading and parsing a configuration */
  method Load(dev: Device, buf: array<byte>) returns (parsed: Parsed)
    requires |dev.cells| == EEPROM_SIZE == buf.Length
    modifies buf
    ensures parsed == Parse(dev.cells)
  {
    var _ := dev.ReadEeprom(buf, 0, EEPROM_SIZE);
    assert buf[..] == dev.cells;
    parsed := ParseEepromToConf(buf);
  }

  /** Loading what was stored returns the configuration. */
  method StoreAndLoad(conf: Config, dev: Device, buf: array<byte>, answers: seq<int>) returns (ok: bool, parsed: Parsed)
    requires |dev.cells| == EEPROM_SIZE == buf.Length && |answers| >= EEPROM_SIZE
    modifies dev, buf
    ensures ok ==> Fits(conf) && parsed.Parsed? && parsed.conf == Normal(conf)
    ensures !ok && Fits(conf) ==> exists i | 0 <= i < EEPROM_SIZE :: answers[i] != 2
  {
    parsed := OutOfBounds;
    ok := Store(conf, dev, buf, answers);
    if ok {
      ImageRoundTrip(conf, old(buf[..]));
      parsed := Load(dev, buf);
    }
  }
}
