/**
 * The original CASA 1.1 client at the root of the repository (client.go):
 * plain numbers per OBIS code instead of readings, no discovery inside
 * GetMeterValues, a stricter filter on unit tags, and the host-header
 * helper parseURIHost.
 *
 * Its convertToOBIS and defaultScheme are the same as EmhObis.ConvertToObis
 * and EmhCasa.DefaultScheme, and its discovery walk is EmhCasa's; the
 * contract listing, the contract details and the meter values are inputs
 * as there, url.Parse followed by Hostname is a partial function
 * `parseHost`, and the mDNS lookup is an input `discovered`.
 */
module Legacy {

  import opened Wrappers
  import opened Text
  import opened Smgw
  import opened EmhObis
  import opened EmhCasa

  // ---------------------------------------------------------------------------
  // One meter value
  // ---------------------------------------------------------------------------

  /**
   * The number GetMeterValues keeps for a value: none when the text does not
   * parse or the unit tag is not one of the five known ones; otherwise the
   * raw value times 10^scaler, divided by 1000 for Wh.
   */
  function PlainValue(item: MeterValue, parseFloat: string -> Option<real>): (v: Option<real>)
    ensures v.Some? <==> parseFloat(item.value).Some? && item.unit in DefinedUnits
    ensures v.Some? && item.unit == UnitWh ==> v.value * 1000.0 == parseFloat(item.value).value * Pow10(item.scaler)
    ensures v.Some? && item.unit != UnitWh ==> v.value == parseFloat(item.value).value * Pow10(item.scaler)
  {
    match parseFloat(item.value)
    case None => None
    case Some(raw) => ByUnit(Scaled(raw, item.scaler), item.unit)
  }

  /** raw * math.Pow(10, scaler) */
  function Scaled(raw: real, scaler: int): real {
    raw * Pow10(scaler)
  }

  /** The switch on the unit tag: W, A, V and Hz as they are, Wh as kWh, any other tag dropped. */
  function ByUnit(val: real, unit: int): (v: Option<real>)
    ensures v.Some? <==> unit in DefinedUnits
    ensures v.Some? && unit == UnitWh ==> v.value * 1000.0 == val
    ensures v.Some? && unit != UnitWh ==> v.value == val
  {
    if unit == 27 || unit == 33 || unit == 35 || unit == 44 then Some(val)
    else if unit == 30 then Some(val / 1000.0)
    else None
  }

  /**
   * Where both clients keep a value, they agree: the number is the value of
   * the reading EmhCasa builds for it.
   */
  lemma AgreesWithConvertReading(item: MeterValue, obis: string, now: Instant, parseFloat: string -> Option<real>)
    requires PlainValue(item, parseFloat).Some?
    ensures PlainValue(item, parseFloat).value == ConvertReading(item, obis, now, parseFloat).value
    ensures ConvertReading(item, obis, now, parseFloat).unit == item.unit
  {
  }

  /**
   * Where they differ: EmhCasa keeps an unparseable value as 0 and an
   * unknown unit tag as the zero Unit, GetMeterValues drops both.
   */
  lemma DropsWhatEmhCasaKeeps(item: MeterValue, obis: string, now: Instant, parseFloat: string -> Option<real>)
    requires parseFloat(item.value).None? || item.unit !in DefinedUnits
    ensures PlainValue(item, parseFloat).None?
    ensures parseFloat(item.value).None? ==> ConvertReading(item, obis, now, parseFloat).value == 0.0
    ensures item.unit !in DefinedUnits ==> ConvertReading(item, obis, now, parseFloat).unit == 0
  {
  }

  // ---------------------------------------------------------------------------
  // GetMeterValues
  // ---------------------------------------------------------------------------

  /** The value at `i` converts to the code `k` and has a number to keep. */
  predicate KeepsAt(values: seq<MeterValue>, i: int, k: string, parseFloat: string -> Option<real>)
    requires 0 <= i < |values|
  {
    ConvertToObis(values[i].logicalName) == Success(k) && PlainValue(values[i], parseFloat).Some?
  }

  /** The code and number GetMeterValues keeps for one value: none unless the name converts and the number is kept. */
  function Kept(item: MeterValue, parseFloat: string -> Option<real>): (s: Option<(string, real)>)
    ensures s.Some? <==> ConvertToObis(item.logicalName).Success? && PlainValue(item, parseFloat).Some?
    ensures s.Some? ==> s.value == (ConvertToObis(item.logicalName).value, PlainValue(item, parseFloat).value)
  {
    var obis := ConvertToObis(item.logicalName);
    var v := PlainValue(item, parseFloat);
    if obis.Success? && v.Some? then Some((obis.value, v.value)) else None
  }

  /** What each value keeps, in order. */
  function KeptAll(values: seq<MeterValue>, parseFloat: string -> Option<real>): (s: seq<Option<(string, real)>>)
    ensures |s| == |values| && forall i :: 0 <= i < |values| ==> s[i] == Kept(values[i], parseFloat)
  {
    seq(|values|, i requires 0 <= i < |values| => Kept(values[i], parseFloat))
  }

  /** One value added to the map: stored under its code when it converts and is kept. */
  function AddValue(m: map<string, real>, item: MeterValue, parseFloat: string -> Option<real>): map<string, real> {
    Store(m, Kept(item, parseFloat))
  }

  /** The map GetMeterValues builds, later values overwriting earlier ones under the same code. */
  function PlainValues(values: seq<MeterValue>, parseFloat: string -> Option<real>): (m: map<string, real>)
    ensures |m| <= |values|
  {
    StoreAllSize(map[], KeptAll(values, parseFloat));
    StoreAll(map[], KeptAll(values, parseFloat))
  }

  /** One more value at the end is one more step on the map built so far. */
  lemma PlainValuesSnoc(values: seq<MeterValue>, item: MeterValue, parseFloat: string -> Option<real>)
    ensures PlainValues(values + [item], parseFloat) == AddValue(PlainValues(values, parseFloat), item, parseFloat)
  {
    assert KeptAll(values + [item], parseFloat) == KeptAll(values, parseFloat) + [Kept(item, parseFloat)];
    StoreAllSnoc(map[], KeptAll(values, parseFloat), Kept(item, parseFloat));
  }

  /** The map's codes are exactly the codes of the values that are kept. */
  lemma PlainValuesKeys(values: seq<MeterValue>, parseFloat: string -> Option<real>, k: string)
    ensures k in PlainValues(values, parseFloat) <==> exists i :: 0 <= i < |values| && KeepsAt(values, i, k, parseFloat)
  {
    var kept := KeptAll(values, parseFloat);
    StoreAllKeys(map[], kept, k);
    forall i | 0 <= i < |values|
      ensures StoresAt(kept, i, k) <==> KeepsAt(values, i, k, parseFloat)
    {
    }
  }

  /** The number stored under a code is the one of the last value kept under it. */
  lemma LastValueWins(values: seq<MeterValue>, parseFloat: string -> Option<real>, i: int, k: string)
    requires 0 <= i < |values| && KeepsAt(values, i, k, parseFloat)
    requires forall j :: i < j < |values| ==> !KeepsAt(values, j, k, parseFloat)
    ensures k in PlainValues(values, parseFloat)
    ensures PlainValues(values, parseFloat)[k] == PlainValue(values[i], parseFloat).value
  {
    var kept := KeptAll(values, parseFloat);
    assert StoresAt(kept, i, k);
    forall j | i < j < |kept| ensures !StoresAt(kept, j, k) {
      assert !KeepsAt(values, j, k, parseFloat);
    }
    StoreAllLast(map[], kept, i, k);
  }

  /** Without a value to keep the map is empty, so GetMeterValues reports an error. */
  lemma NothingKept(values: seq<MeterValue>, parseFloat: string -> Option<real>)
    requires forall i :: 0 <= i < |values| ==> PlainValue(values[i], parseFloat).None?
    ensures PlainValues(values, parseFloat) == map[]
  {
    StoreAllNothing(map[], KeptAll(values, parseFloat));
  }

  /**
   * GetMeterValues' outcome for `meterID`: no id is an error and triggers
   * no discovery; the fetch error is wrapped; an empty map is an error.
   */
  function MeterValuesFor(meterID: string, fetched: Result<seq<MeterValue>, Error>,
                          parseFloat: string -> Option<real>): (r: Result<map<string, real>, Error>)
    ensures meterID == "" ==> r == Failure(Fail("meter ID not set"))
    ensures meterID != "" && fetched.Failure? ==> r == Failure(Wrap("failed to get meter values", fetched.error))
    ensures meterID != "" && fetched.Success? && PlainValues(fetched.value, parseFloat) == map[] ==>
              r == Failure(Fail("no valid meter values found"))
    ensures r.Success? ==> meterID != "" && fetched.Success? && |r.value| > 0
                           && r.value == PlainValues(fetched.value, parseFloat)
    ensures meterID != "" && fetched.Success? && PlainValues(fetched.value, parseFloat) != map[] ==>
              r == Success(PlainValues(fetched.value, parseFloat))
  {
    if meterID == "" then Failure(Fail("meter ID not set"))
    else if fetched.Failure? then Failure(Wrap("failed to get meter values", fetched.error))
    else
      var m := PlainValues(fetched.value, parseFloat);
      if |m| == 0 then Failure(Fail("no valid meter values found")) else Success(m)
  }

  // ---------------------------------------------------------------------------
  // parseURIHost
  // ---------------------------------------------------------------------------

  /** strings.ReplaceAll(s, "%", "%25"): every percent sign escaped. */
  function EscapePercent(s: string): (r: string)
    ensures |r| == |s| + 2 * CountChar(s, '%')
  {
    if s == [] then ""
    else if s[0] == '%' then "%25" + EscapePercent(s[1..])
    else [s[0]] + EscapePercent(s[1..])
  }

  /** The inverse: every "%25" back to a percent sign. */
  function UnescapePercent(s: string): string
    decreases |s|
  {
    if s == [] then ""
    else if HasPrefix(s, "%25") then "%" + UnescapePercent(s[3..])
    else [s[0]] + UnescapePercent(s[1..])
  }

  /** Escaping loses nothing: the parser sees the original text, percent signs encoded. */
  lemma {:induction false} EscapeRoundTrip(s: string)
    ensures UnescapePercent(EscapePercent(s)) == s
  {
    if s != [] {
      EscapeRoundTrip(s[1..]);
      var e := EscapePercent(s);
      if s[0] == '%' {
        assert HasPrefix(e, "%25") && e[3..] == EscapePercent(s[1..]);
      } else {
        assert e[0] == s[0] && e[1..] == EscapePercent(s[1..]);
        assert !HasPrefix(e, "%25");
      }
    }
  }

  /** strings.Contains with a one-character needle is membership. */
  lemma {:induction false} ContainsChar(s: string, c: char)
    ensures Contains(s, [c]) <==> c in s
    decreases |s|
  {
    if s != [] {
      ContainsChar(s[1..], c);
      assert HasPrefix(s, [c]) <==> s[0] == c;
      assert c in s <==> s[0] == c || c in s[1..];
    }
  }

  /**
   * parseURIHost: the escaped text goes to the URL parser; its error is
   * wrapped, an empty host name is an error, and a host name with a colon
   * (an IPv6 address) is put in brackets.
   */
  function ParseUriHost(uri: string, parseHost: string -> Result<string, Error>): (r: Result<string, Error>)
    ensures parseHost(EscapePercent(uri)).Failure? ==> r == Failure(Wrap("invalid uri", parseHost(EscapePercent(uri)).error))
    ensures parseHost(EscapePercent(uri)) == Success("") ==> r == Failure(Fail("invalid uri: no host"))
    ensures r.Success? ==> && parseHost(EscapePercent(uri)).Success?
                           && var h := parseHost(EscapePercent(uri)).value;
                              && h != ""
                              && (':' in h ==> r.value == "[" + h + "]")
                              && (':' !in h ==> r.value == h)
    ensures parseHost(EscapePercent(uri)).Success? && parseHost(EscapePercent(uri)).value != "" ==>
              var h := parseHost(EscapePercent(uri)).value;
              r == Success(if ':' in h then "[" + h + "]" else h)
  {
    match parseHost(EscapePercent(uri))
    case Failure(e) => Failure(Wrap("invalid uri", e))
    case Success(hostname) =>
      ContainsChar(hostname, ':');
      if hostname == "" then Failure(Fail("invalid uri: no host"))
      else if Contains(hostname, ":") then Success("[" + hostname + "]")
      else Success(hostname)
  }

  /** A bracketed result is exactly an IPv6 host name: it starts with '[' only when the name has a colon. */
  lemma BracketsOnlyForColons(uri: string, parseHost: string -> Result<string, Error>)
    requires ParseUriHost(uri, parseHost).Success?
    requires parseHost(EscapePercent(uri)).Success? && '[' !in parseHost(EscapePercent(uri)).value
    ensures var h := parseHost(EscapePercent(uri)).value;
      ParseUriHost(uri, parseHost).value[0] == '[' <==> ':' in h
  {
  }

  /** The empty text has no host. */
  lemma EmptyUriExample(parseHost: string -> Result<string, Error>)
    requires parseHost(EscapePercent("")) == Success("")
    ensures ParseUriHost("", parseHost) == Failure(Fail("invalid uri: no host"))
  {
  }

  // ---------------------------------------------------------------------------
  // The client
  // ---------------------------------------------------------------------------

  class Client {
    var uri: string
    /** Empty unless given to NewClient or found by DiscoverMeterID. */
    var meterID: string
    /** hostHeaderTransport.host; empty means the request's own host. */
    var hostHeader: string

    constructor(uri: string, meterID: string)
      ensures this.uri == uri && this.meterID == meterID && hostHeader == ""
    {
      this.uri := uri;
      this.meterID := meterID;
      hostHeader := "";
    }

    /**
     * DiscoverMeterID: walks the listed contracts in order, skipping those
     * whose detail fetch fails, and keeps the first sensor domain of the
     * first one that has any; on failure the id is left as it was.
     */
    method DiscoverMeterID(contracts: Result<seq<string>, Error>, details: string -> Result<DerivedContract, Error>)
      returns (err: Option<Error>)
      modifies this`meterID
      ensures Discovery(contracts, details).Success? ==> err.None? && meterID == Discovery(contracts, details).value
      ensures Discovery(contracts, details).Failure? ==> err == Some(Discovery(contracts, details).error) && meterID == old(meterID)
    {
      if contracts.Failure? {
        return Some(Wrap("failed to get contracts", contracts.error));
      }
      var ids := contracts.value;
      var i := 0;
      while i < |ids|
        invariant 0 <= i <= |ids|
        invariant FirstSensorDomain(ids[i..], details) == FirstSensorDomain(ids, details)
        invariant meterID == old(meterID)
      {
        assert ids[i..][1..] == ids[i + 1..];
        var contract := details(ids[i]);
        if contract.Failure? {
          i := i + 1;
          continue;
        }
        if |contract.value.sensorDomains| > 0 {
          meterID := contract.value.sensorDomains[0];
          return None;
        }
        i := i + 1;
      }
      return Some(Fail("no contract with sensor domains found"));
    }

    /**
     * GetMeterValues: needs an id (it never discovers one), then keeps the
     * values whose name converts, whose text parses and whose unit tag is
     * known, in order.
     */
    method GetMeterValues(origin: string -> Result<seq<MeterValue>, Error>, parseFloat: string -> Option<real>)
      returns (r: Result<map<string, real>, Error>)
      ensures r == MeterValuesFor(meterID, origin(meterID), parseFloat)
    {
      if meterID == "" {
        return Failure(Fail("meter ID not set"));
      }
      var fetched := origin(meterID);
      if fetched.Failure? {
        return Failure(Wrap("failed to get meter values", fetched.error));
      }
      var values := CollectValues(fetched.value, parseFloat);
      if |values| == 0 {
        return Failure(Fail("no valid meter values found"));
      }
      return Success(values);
    }

    /** GetMeterValues' loop over the fetched values, first to last. */
    static method CollectValues(items: seq<MeterValue>, parseFloat: string -> Option<real>)
      returns (values: map<string, real>)
      ensures values == PlainValues(items, parseFloat)
    {
      values := map[];
      var i := 0;
      while i < |items|
        invariant 0 <= i <= |items|
        invariant values == PlainValues(items[..i], parseFloat)
      {
        assert items[..i + 1] == items[..i] + [items[i]];
        PlainValuesSnoc(items[..i], items[i], parseFloat);
        values := KeepValue(values, items[i], parseFloat);
        i := i + 1;
      }
      assert items[..i] == items;
    }

    /** The body of GetMeterValues' loop: skip an unconvertible name or an unparseable value, then switch on the unit tag. */
    static method KeepValue(values: map<string, real>, item: MeterValue, parseFloat: string -> Option<real>)
      returns (values': map<string, real>)
      ensures values' == AddValue(values, item, parseFloat)
    {
      values' := values;
      var obis := ConvertToObis(item.logicalName);
      if obis.Failure? {
        return;
      }
      var raw := parseFloat(item.value);
      if raw.None? {
        return;
      }
      var val := ByUnit(Scaled(raw.value, item.scaler), item.unit);
      if val.Some? {
        values' := values'[obis.value := val.value];
      }
    }

    /** MeterID: the id, discovering it when empty; discovery's error is wrapped. */
    method MeterID(contracts: Result<seq<string>, Error>, details: string -> Result<DerivedContract, Error>)
      returns (r: Result<string, Error>)
      modifies this`meterID
      ensures old(meterID) != "" ==> r == Success(old(meterID)) && meterID == old(meterID)
      ensures old(meterID) == "" && Discovery(contracts, details).Failure? ==>
                r == Failure(Wrap("failed to discover meter ID", Discovery(contracts, details).error)) && meterID == old(meterID)
      ensures old(meterID) == "" && Discovery(contracts, details).Success? ==>
                r == Discovery(contracts, details) && meterID == r.value
    {
      if meterID == "" {
        var err := DiscoverMeterID(contracts, details);
        if err.Some? {
          return Failure(Wrap("failed to discover meter ID", err.value));
        }
      }
      return Success(meterID);
    }

    method SetHostHeader(host: string)
      modifies this`hostHeader
      ensures hostHeader == host
    {
      hostHeader := host;
    }
  }

  /**
   * NewClient: an empty uri is replaced by the discovered gateway, then
   * the credentials are checked and the scheme defaulted to https; the
   * meter id is taken as given.
   */
  method NewClient(uri: string, user: string, password: string, meterID: string, discovered: Result<string, Error>)
    returns (r: Result<Client, Error>)
    ensures ResolveUri(uri, user, password, discovered).Failure? ==> r == Failure(ResolveUri(uri, user, password, discovered).error)
    ensures ResolveUri(uri, user, password, discovered).Success? ==>
              r.Success? && fresh(r.value) && r.value.uri == ResolveUri(uri, user, password, discovered).value
              && r.value.meterID == meterID && r.value.hostHeader == ""
  {
    var u := ResolveUri(uri, user, password, discovered);
    if u.Failure? {
      return Failure(u.error);
    }
    var c := new Client(u.value, meterID);
    return Success(c);
  }

  /** NewClientDiscover: NewClient with the gateway and the meter id both left to discovery. */
  method NewClientDiscover(user: string, password: string, discovered: Result<string, Error>)
    returns (r: Result<Client, Error>)
    ensures ResolveUri("", user, password, discovered).Failure? ==> r == Failure(ResolveUri("", user, password, discovered).error)
    ensures r.Success? ==> fresh(r.value) && r.value.meterID == "" && HasSuffix(r.value.uri, discovered.value)
    ensures ResolveUri("", user, password, discovered).Success? ==>
              r.Success? && r.value.uri == DefaultScheme(discovered.value, "https") && r.value.hostHeader == ""
  {
    r := NewClient("", user, password, "", discovered);
  }
}
