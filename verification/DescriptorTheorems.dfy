/** Properties of the descriptor parser on arbitrary bytes: what it consumes, and
    how its counts relate to what it filled in. */
module DescriptorTheorems {
  import opened Descriptors
  import opened Words

  // ----- byte accounting -----

  /** A property of what is left of a buffer that stays when one whole descriptor
      is taken away. */
  type Kept = q: seq<byte> -> bool | StaysWithout(q) ghost witness (b: seq<byte>) => true

  ghost predicate StaysWithout(q: seq<byte> -> bool) {
    forall b: seq<byte> {:trigger q(b[b[0]..])} | |b| >= 2 && 2 <= b[0] <= |b| && q(b) :: q(b[b[0]..])
  }

  lemma Dropped(b: seq<byte>, n: nat, m: nat)
    requires n + m <= |b|
    ensures b[n..][m..] == b[n + m..] && b[0..] == b
  {
  }

  lemma {:induction false} ExtraKeeps(q: Kept, b: seq<byte>)
    requires q(b) && !Extra(b).Bad?
    ensures q(b[Extra(b).n..])
  {
    assert b[0..] == b;
    if |b| >= 2 && 2 <= b[0] <= |b| && !Proper(b[1]) {
      ExtraKeeps(q, b[b[0]..]);
      Dropped(b, b[0], Extra(b[b[0]..]).n);
    }
  }

  lemma EndpointKeeps(q: Kept, b: seq<byte>)
    requires q(b) && EndpointAt(b).Parsed?
    ensures q(b[EndpointAt(b).n..])
  {
    var rest := b[b[0]..];
    ExtraKeeps(q, rest);
    Dropped(b, b[0], Extra(rest).n);
  }

  /** The bytes that EndpointsAt() takes, -1 for an error. */
  function EndpointsTaken(b: seq<byte>, count: nat): int {
    match EndpointsAt(b, count)
    case EndpointsFailed(_) => -1
    case Endpoints(_, n) => n
  }

  /** EndpointsTaken() as a value, whose definition proofs do not unfold. */
  ghost predicate IsEndpointsTaken(f: (seq<byte>, nat) -> int) {
    forall b: seq<byte>, count: nat {:trigger EndpointsTaken(b, count)} :: f(b, count) == EndpointsTaken(b, count)
  }

  /** The next endpoint, if there is one, and the bytes that the others take. */
  lemma EndpointsTurn(q: Kept, f: (seq<byte>, nat) -> int, b: seq<byte>, count: nat) returns (n: nat)
    requires IsEndpointsTaken(f) && q(b) && f(b, count) > 0
    ensures count > 0 && n <= |b| && q(b[n..]) && f(b[n..], count - 1) >= 0
    ensures f(b, count) == n + f(b[n..], count - 1)
  {
    assert f(b, count) == EndpointsTaken(b, count);
    n := EndpointAt(b).n;
    EndpointKeeps(q, b);
    assert f(b[n..], count - 1) == EndpointsTaken(b[n..], count - 1);
  }

  lemma {:induction false} TakenKeep(q: Kept, f: (seq<byte>, nat) -> int, b: seq<byte>, count: nat)
    requires IsEndpointsTaken(f) && q(b) && f(b, count) >= 0
    ensures f(b, count) <= |b| && q(b[f(b, count)..])
    decreases count
  {
    if f(b, count) == 0 {
      assert b[0..] == b;
    } else {
      var n := EndpointsTurn(q, f, b, count);
      TakenKeep(q, f, b[n..], count - 1);
      Dropped(b, n, f(b[n..], count - 1));
    }
  }

  lemma EndpointsKeep(q: Kept, b: seq<byte>, count: nat)
    requires q(b) && EndpointsAt(b, count).Endpoints?
    ensures q(b[EndpointsAt(b, count).n..])
  {
    var f := (b: seq<byte>, count: nat) => EndpointsTaken(b, count);
    TakenKeep(q, f, b, count);
    assert f(b, count) == EndpointsTaken(b, count) == EndpointsAt(b, count).n;
  }

  /** n bytes of extra descriptors and m bytes of endpoints lie behind the descriptor
      at the start of b. */
  ghost predicate Parts(b: seq<byte>, n: nat, m: nat) {
    && |b| >= 9 && 9 <= b[0] <= |b|
    && var rest := b[b[0]..];
       !Extra(rest).Bad? && n == Extra(rest).n && (m == 0 || m == EndpointsTaken(rest[n..], b[4]))
  }

  lemma SettingParts(b: seq<byte>) returns (n: nat, m: nat)
    requires SettingAt(b).Setting?
    ensures Parts(b, n, m) && SettingAt(b).n == b[0] + n + m
  {
    var rest := b[b[0]..];
    n := Extra(rest).n;
    m := if SettingAt(b).cut then 0 else EndpointsAt(rest[n..], b[4]).n;
  }

  lemma PartsKeep(q: Kept, b: seq<byte>, n: nat, m: nat) returns (rest: seq<byte>)
    requires q(b) && Parts(b, n, m)
    ensures |rest| == |b| - (b[0] + n + m) && q(rest) && rest == b[b[0]..][n..][m..]
  {
    var x := b[b[0]..];
    ExtraKeeps(q, x);
    rest := x[n..];
    if m > 0 {
      EndpointsKeep(q, rest, b[4]);
    }
    assert rest[0..] == rest;
    rest := rest[m..];
  }

  lemma DroppedTwice(b: seq<byte>, k: nat, n: nat, m: nat)
    requires k + n + m <= |b|
    ensures b[k..][n..][m..] == b[k + n + m..]
  {
  }

  lemma SettingKeeps(q: Kept, b: seq<byte>) returns (rest: seq<byte>)
    requires q(b) && SettingAt(b).Setting?
    ensures rest == b[SettingAt(b).n..] && q(rest)
  {
    var n, m := SettingParts(b);
    rest := PartsKeep(q, b, n, m);
    DroppedTwice(b, b[0], n, m);
  }

  /** The bytes that SettingsAt() takes, 0 if there are none. */
  function Taken(b: seq<byte>, number: nat): (n: nat)
    ensures n <= |b|
  {
    match SettingsAt(b, number)
    case Parsed(_, n) => n
    case _ => 0
  }

  lemma SettingsTurn(q: Kept, b: seq<byte>, number: nat) returns (rest: seq<byte>)
    requires q(b) && Taken(b, number) > 0
    ensures |rest| < |b| && rest == b[|b| - |rest|..] && q(rest)
    ensures Taken(b, number) == |b| - |rest| || Taken(b, number) == |b| - |rest| + Taken(rest, number)
  {
    rest := SettingKeeps(q, b);
  }

  lemma {:induction false} SettingsKeep(q: Kept, b: seq<byte>, number: nat) returns (rest: seq<byte>)
    requires q(b)
    ensures rest == b[Taken(b, number)..] && q(rest)
    decreases |b|
  {
    rest := b;
    if Taken(b, number) > 0 {
      rest := SettingsTurn(q, b, number);
      if Taken(b, number) != |b| - |rest| {
        rest := SettingsKeep(q, rest, number);
      }
    }
  }

  lemma TurnKeeps(q: Kept, b: seq<byte>, extra: seq<byte>) returns (rest: seq<byte>)
    requires q(b) && !TurnAt(b, extra).TurnFailed?
    ensures |rest| <= |b| && rest == b[|b| - |rest|..] && q(rest)
    ensures TurnAt(b, extra).LastTurn? ==> |rest| == TurnAt(b, extra).left
    ensures TurnAt(b, extra).NextTurn? ==> rest == TurnAt(b, extra).rest
  {
    var n := Extra(b).n;
    ExtraKeeps(q, b);
    rest := b[n..];
    if Extra(b).Stop? && InterfaceAt(rest).Parsed? {
      var m := InterfaceAt(rest).n;
      rest := SettingsKeep(q, rest, if |rest| >= INTERFACE_LENGTH then rest[2] else 0);
      Dropped(b, n, m);
    }
  }

  /** The bytes that InterfacesAt() leaves over, -1 for an error. */
  function LeftOver(b: seq<byte>, count: nat, extra: seq<byte>): int {
    match InterfacesAt(b, count, extra)
    case InterfacesFailed(_) => -1
    case Interfaces(_, _, left) => left
  }

  /** LeftOver() as a value, whose definition proofs do not unfold. */
  type LeftOverFunction = f: (seq<byte>, nat, seq<byte>) -> int | IsLeftOver(f)
    ghost witness (b: seq<byte>, count: nat, extra: seq<byte>) => LeftOver(b, count, extra)

  ghost predicate IsLeftOver(f: (seq<byte>, nat, seq<byte>) -> int) {
    forall b: seq<byte>, count: nat, extra: seq<byte> {:trigger LeftOver(b, count, extra)} ::
      f(b, count, extra) == LeftOver(b, count, extra)
  }

  ghost function LeftOverValue(): LeftOverFunction {
    (b: seq<byte>, count: nat, extra: seq<byte>) => LeftOver(b, count, extra)
  }

  /** One turn, which may be the last. */
  lemma InterfacesTurn(q: Kept, f: LeftOverFunction, b: seq<byte>, count: nat, extra: seq<byte>)
    returns (rest: seq<byte>, extra': seq<byte>)
    requires q(b) && count > 0 && f(b, count, extra) >= 0
    ensures |rest| <= |b| && rest == b[|b| - |rest|..] && q(rest)
    ensures f(b, count, extra) == |rest| || f(b, count, extra) == f(rest, count - 1, extra')
  {
    assert f(b, count, extra) == LeftOver(b, count, extra);
    rest := TurnKeeps(q, b, extra);
    extra' := TurnAt(b, extra).extra;
    assert f(rest, count - 1, extra') == LeftOver(rest, count - 1, extra');
  }

  lemma NoTurn(f: LeftOverFunction, b: seq<byte>, extra: seq<byte>)
    ensures f(b, 0, extra) == |b|
  {
    assert f(b, 0, extra) == LeftOver(b, 0, extra);
  }

  lemma {:induction false} InterfacesKeep(
    q: Kept, f: LeftOverFunction, left: nat, b: seq<byte>, count: nat, extra: seq<byte>)
    requires q(b) && f(b, count, extra) == left
    ensures left <= |b| && q(b[|b| - left..])
    decreases count
  {
    if count == 0 {
      NoTurn(f, b, extra);
      Dropped(b, 0, 0);
    } else {
      var rest, extra' := InterfacesTurn(q, f, b, count, extra);
      if |rest| != left {
        InterfacesKeep(q, f, left, rest, count - 1, extra');
        Dropped(b, |b| - |rest|, |rest| - left);
      }
    }
  }

  lemma ConfigLeft(f: LeftOverFunction, b: seq<byte>) returns (left: nat)
    requires ConfigAt(b).Configuration?
    ensures |b| >= 9 && 9 <= b[0] <= |b| && b[0] == ConfigAt(b).value.bLength
    ensures left == ConfigAt(b).left == f(b[b[0]..], b[4], [])
    ensures ConfigAt(b).value.bNumInterfaces == |ConfigAt(b).value.interfaces|
  {
    left := ConfigAt(b).left;
    assert f(b[b[0]..], b[4], []) == LeftOver(b[b[0]..], b[4], []);
  }

  lemma ConfigKeeps(q: Kept, f: LeftOverFunction, b: seq<byte>, left: nat)
    requires q(b) && |b| >= 9 && 9 <= b[0] <= |b| && f(b[b[0]..], b[4], []) == left
    ensures b[0] <= |b| - left && q(b[|b| - left..])
  {
    var rest := b[b[0]..];
    InterfacesKeep(q, f, left, rest, b[4], []);
    Dropped(b, b[0], |rest| - left);
  }

  /** The sum of the bLength fields of the descriptors in the first n bytes, one
      behind the other, as far as they are whole. */
  function SumOfLengths(b: seq<byte>, n: nat): nat
    requires n <= |b|
    decreases n
  {
    if n < 2 || b[0] < 2 || b[0] > n then 0 else b[0] + SumOfLengths(b[b[0]..], n - b[0])
  }

  /** The same for all but the last bytes. */
  function SumBefore(b: seq<byte>, left: nat): nat
    requires left <= |b|
  {
    SumOfLengths(b, |b| - left)
  }

  /** One more descriptor behind n bytes of whole descriptors. */
  lemma {:induction false} SumOfOneMore(b: seq<byte>, n: nat, l: nat)
    requires n + 2 <= |b| && SumOfLengths(b, n) == n && 2 <= l == b[n] <= |b| - n
    ensures SumOfLengths(b, n + l) == n + l
    decreases n
  {
    if n == 0 {
    } else {
      var rest := b[b[0]..];
      SumOfOneMore(rest, n - b[0], l);
    }
  }

  /** rest is the end of b, and what comes before it are whole descriptors. */
  ghost predicate BehindWhole(b: seq<byte>, rest: seq<byte>) {
    && |rest| <= |b| && rest == b[|b| - |rest|..]
    && SumOfLengths(b, |b| - |rest|) == |b| - |rest|
  }

  lemma OneDescriptorMore(b: seq<byte>, rest: seq<byte>)
    requires BehindWhole(b, rest) && |rest| >= 2 && 2 <= rest[0] <= |rest|
    ensures BehindWhole(b, rest[rest[0]..])
  {
    var n := |b| - |rest|;
    SumOfOneMore(b, n, rest[0]);
    Dropped(b, n, rest[0]);
  }

  lemma BehindStays(b: seq<byte>)
    ensures StaysWithout(rest => BehindWhole(b, rest))
  {
    forall rest: seq<byte> | |rest| >= 2 && 2 <= rest[0] <= |rest| && BehindWhole(b, rest)
      ensures BehindWhole(b, rest[rest[0]..])
    {
      OneDescriptorMore(b, rest);
    }
  }

  ghost function BehindProperty(b: seq<byte>): (q: Kept)
    ensures q(b)
    ensures forall rest | q(rest) :: BehindWhole(b, rest)
  {
    BehindStays(b);
    rest => BehindWhole(b, rest)
  }

  lemma ConsumesWhole(f: LeftOverFunction, b: seq<byte>, left: nat)
    requires |b| >= 9 && 9 <= b[0] <= |b| && f(b[b[0]..], b[4], []) == left
    ensures b[0] <= |b| - left && SumBefore(b, left) == |b| - left
  {
    ConfigKeeps(BehindProperty(b), f, b, left);
    var rest := b[|b| - left..];
    assert |rest| == left && BehindWhole(b, rest);
  }

  lemma ConfigAccounts(f: LeftOverFunction, b: seq<byte>)
    requires ConfigAt(b).Configuration?
    ensures ConfigAt(b).value.bLength <= |b| - ConfigAt(b).left
    ensures SumBefore(b, ConfigAt(b).left) == |b| - ConfigAt(b).left
    ensures |ConfigAt(b).value.interfaces| == ConfigAt(b).value.bNumInterfaces
  {
    var left := ConfigLeft(f, b);
    ConsumesWhole(f, b, left);
  }

  /** Whatever the bytes are: the consumed length is the sum of the bLength fields
      of the descriptors consumed; and there are as many interfaces as the count
      says. */
  lemma ConfigAccounting(b: seq<byte>)
    ensures match ConfigAt(b)
            case ConfigFailed(code) => code < 0
            case Configuration(c, left) =>
              && c.bLength <= |b| - left && SumBefore(b, left) == |b| - left
              && |c.interfaces| == c.bNumInterfaces
  {
    if ConfigAt(b).Configuration? {
      ConfigAccounts(LeftOverValue(), b);
    }
  }

  // ----- counts -----

  /** The count of endpoints is that of the endpoints filled in, unless a class
      specific descriptor behind the interface is cut short: then the parser
      returns with the count from the bus and no endpoints at all. */
  lemma EndpointCount(b: seq<byte>)
    requires SettingAt(b).Setting?
    ensures var alt := SettingAt(b).value;
            alt.bNumEndpoints == |alt.endpoints| <==> !(Extra(b[b[0]..]).Short? && b[4] > 0)
    ensures SettingAt(b).cut <==> Extra(b[b[0]..]).Short?
  {
  }

  /** The alternate settings that SettingsAt() finds */
  function AltsAt(b: seq<byte>, number: nat): seq<AltSetting> {
    match SettingsAt(b, number)
    case Parsed(alts, _) => alts
    case _ => []
  }

  /** AltsAt() as a value, whose definition proofs do not unfold. */
  type AltsFunction = f: (seq<byte>, nat) -> seq<AltSetting> | IsAltsAt(f)
    ghost witness (b: seq<byte>, number: nat) => AltsAt(b, number)

  ghost predicate IsAltsAt(f: (seq<byte>, nat) -> seq<AltSetting>) {
    forall b: seq<byte>, number: nat {:trigger AltsAt(b, number)} :: f(b, number) == AltsAt(b, number)
  }

  lemma AltsStep(f: AltsFunction, b: seq<byte>, number: nat) returns (first: AltSetting, rest: seq<byte>)
    requires |f(b, number)| > 1
    ensures |rest| < |b| && f(b, number) == [first] + f(rest, number)
    ensures first.bNumEndpoints == |first.endpoints|
  {
    assert f(b, number) == AltsAt(b, number);
    first, rest := SettingAt(b).value, b[SettingAt(b).n..];
    EndpointCount(b);
    assert f(rest, number) == AltsAt(rest, number);
  }

  lemma {:induction false} CountsAgree(f: AltsFunction, b: seq<byte>, number: nat, k: nat)
    requires k < |f(b, number)| - 1
    ensures f(b, number)[k].bNumEndpoints == |f(b, number)[k].endpoints|
    decreases |b|
  {
    var first, rest := AltsStep(f, b, number);
    if k > 0 {
      CountsAgree(f, rest, number, k - 1);
    }
  }

  /** Within an interface only the last alternate setting can be affected. */
  lemma EndpointCounts(b: seq<byte>, number: nat)
    ensures forall k | 0 <= k < |AltsAt(b, number)| - 1 ::
              AltsAt(b, number)[k].bNumEndpoints == |AltsAt(b, number)[k].endpoints|
  {
    var f: AltsFunction := (b: seq<byte>, number: nat) => AltsAt(b, number);
    var alts := f(b, number);
    assert alts == AltsAt(b, number);
    forall k | 0 <= k < |alts| - 1 ensures alts[k].bNumEndpoints == |alts[k].endpoints| {
      CountsAgree(f, b, number, k);
    }
  }
}
