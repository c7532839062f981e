/**
 * The EMH CASA 1.1 gateway client (emhcasa/client.go): meter-ID discovery
 * over the gateway's derived contracts, the conversion of one CASA meter
 * value into a Reading, and the assembly of the readings map.
 *
 * Every HTTP fetch is an input: the contract listing is a Result, the
 * contract details and the meter values are functions of the contract id and
 * of the meter id (the URL of each depends on nothing else), and
 * strconv.ParseFloat is a partial function `parseFloat`.  One instant `now`
 * stands for the calls to time.Now.
 */
module EmhCasa {

  import opened Wrappers
  import opened Text
  import opened Smgw
  import opened EmhObis

  /** One derived contract (emhcasa/types.go). */
  datatype DerivedContract = DerivedContract(tafType: string, sensorDomains: seq<string>)

  /** One value of the "extended" meter reading (emhcasa/types.go). */
  datatype MeterValue = MeterValue(value: string, unit: int, scaler: int, logicalName: string)

  // ---------------------------------------------------------------------------
  // Scheme defaulting
  // ---------------------------------------------------------------------------

  predicate HasScheme(uri: string) {
    HasPrefix(uri, "http://") || HasPrefix(uri, "https://")
  }

  /** defaultScheme: a URI without "http://" or "https://" gets `scheme + "://"` in front. */
  function DefaultScheme(uri: string, scheme: string): (r: string)
    ensures HasSuffix(r, uri)
    ensures HasScheme(uri) ==> r == uri
    ensures !HasScheme(uri) ==> HasPrefix(r, scheme + "://") && |r| == |scheme| + 3 + |uri|
  {
    if !HasScheme(uri) then scheme + "://" + uri else uri
  }

  /** With scheme "http" or "https" the result has a scheme, so defaulting twice is defaulting once. */
  lemma DefaultSchemeIdempotent(uri: string, scheme: string)
    requires scheme == "http" || scheme == "https"
    ensures HasScheme(DefaultScheme(uri, scheme))
    ensures DefaultScheme(DefaultScheme(uri, scheme), scheme) == DefaultScheme(uri, scheme)
  {
    var r := DefaultScheme(uri, scheme);
    if !HasScheme(uri) {
      assert r[..|scheme| + 3] == scheme + "://";
      if scheme == "http" {
        assert r[..7] == "http://";
      } else {
        assert r[..8] == "https://";
      }
    }
  }

  /** A URI that does not start with 'h' has no scheme. */
  lemma NoSchemeUnlessH(uri: string)
    requires uri != [] && uri[0] != 'h'
    ensures !HasScheme(uri)
  {
    if |uri| >= 7 {
      assert uri[..7][0] == uri[0];
    }
    if |uri| >= 8 {
      assert uri[..8][0] == uri[0];
    }
  }

  lemma SchemeAddedToAddress()
    ensures DefaultScheme("192.168.33.2", "https") == "https://192.168.33.2"
  {
    NoSchemeUnlessH("192.168.33.2");
    assert "https" + "://" + "192.168.33.2" == "https://192.168.33.2";
  }

  lemma HttpsKept()
    ensures DefaultScheme("https://example.com", "https") == "https://example.com"
  {
    assert HasPrefix("https://example.com", "https://");
  }

  lemma HttpKept()
    ensures DefaultScheme("http://example.com", "https") == "http://example.com"
  {
    assert HasPrefix("http://example.com", "http://");
  }

  lemma HttpAdded()
    ensures DefaultScheme("example.com", "http") == "http://example.com"
  {
    NoSchemeUnlessH("example.com");
    assert "http" + "://" + "example.com" == "http://example.com";
  }

  /** The four cases of the scheme test table. */
  lemma DefaultSchemeExamples()
    ensures DefaultScheme("192.168.33.2", "https") == "https://192.168.33.2"
    ensures DefaultScheme("https://example.com", "https") == "https://example.com"
    ensures DefaultScheme("http://example.com", "https") == "http://example.com"
    ensures DefaultScheme("example.com", "http") == "http://example.com"
  {
    SchemeAddedToAddress();
    HttpsKept();
    HttpKept();
    HttpAdded();
  }

  /**
   * NewClient's checks, in their order: an empty URI asks mDNS (`discovered`)
   * and fails with its error wrapped; then missing credentials fail; then the
   * URI gets "https://" unless it has a scheme.
   */
  function ResolveUri(uri: string, user: string, password: string, discovered: Result<string, Error>): (r: Result<string, Error>)
    ensures uri == "" && discovered.Failure? ==> r == Failure(Wrap("failed to discover gateway", discovered.error))
    ensures (uri != "" || discovered.Success?) && (user == "" || password == "") ==> r == Failure(Fail("credentials are required"))
    ensures r.Success? ==> user != "" && password != "" && HasScheme(r.value)
    ensures r.Success? && uri != "" ==> HasSuffix(r.value, uri)
    ensures r.Success? && uri == "" ==> HasSuffix(r.value, discovered.value)
    ensures (uri != "" || discovered.Success?) && user != "" && password != "" ==>
              r == Success(DefaultScheme(if uri == "" then discovered.value else uri, "https"))
  {
    if uri == "" && discovered.Failure? then Failure(Wrap("failed to discover gateway", discovered.error))
    else if user == "" || password == "" then Failure(Fail("credentials are required"))
    else
      var u := if uri == "" then discovered.value else uri;
      DefaultSchemeIdempotent(u, "https");
      Success(DefaultScheme(u, "https"))
  }

  // ---------------------------------------------------------------------------
  // Converting one meter value
  // ---------------------------------------------------------------------------

  /** math.Pow(10, n) for an integer exponent. */
  function Pow10(n: int): (r: real)
    ensures r > 0.0
    ensures n >= 0 ==> r >= 1.0
    decreases if n < 0 then -n else n
  {
    if n == 0 then 1.0
    else if n > 0 then 10.0 * Pow10(n - 1)
    else Pow10(n + 1) / 10.0
  }

  /** The unit tag's Unit: the five known tags keep their number, any other becomes the zero Unit. */
  function UnitOfTag(tag: int): (u: Unit)
    ensures tag in DefinedUnits ==> u == tag
    ensures tag !in DefinedUnits ==> u == 0
  {
    if tag == 27 then UnitWatt
    else if tag == 30 then UnitWh
    else if tag == 33 then UnitAmpere
    else if tag == 35 then UnitVolt
    else if tag == 44 then UnitHertz
    else 0
  }

  /** The parsed value, 0 when strconv.ParseFloat fails (its error is discarded). */
  function RawValue(item: MeterValue, parseFloat: string -> Option<real>): real {
    parseFloat(item.value).GetOr(0.0)
  }

  /**
   * convertReading: the raw value times 10^scaler, divided by 1000 when the
   * tag is 30 (Wh is reported as kWh), stored under `obis` with quality good.
   */
  function ConvertReading(item: MeterValue, obis: string, now: Instant, parseFloat: string -> Option<real>): (r: Reading)
    ensures r.obis == obis && r.quality == QualityGood && r.timestamp == now
    ensures item.unit in DefinedUnits ==> r.unit == item.unit
    ensures item.unit !in DefinedUnits ==> r.unit == 0
    ensures item.unit == UnitWh ==> r.value * 1000.0 == RawValue(item, parseFloat) * Pow10(item.scaler)
    ensures item.unit != UnitWh ==> r.value == RawValue(item, parseFloat) * Pow10(item.scaler)
    ensures parseFloat(item.value).None? ==> r.value == 0.0
  {
    var v := RawValue(item, parseFloat) * Pow10(item.scaler);
    Reading(if item.unit == 30 then v / 1000.0 else v, UnitOfTag(item.unit), now, obis, QualityGood)
  }

  /** The scaling test table, for a parser that reads those strings as their numbers. */
  lemma ScalingExamples(parseFloat: string -> Option<real>, now: Instant)
    requires parseFloat("2500") == Some(2500.0) && parseFloat("5") == Some(5.0)
    requires parseFloat("123450") == Some(123450.0) && parseFloat("153") == Some(153.0)
    requires parseFloat("2315") == Some(2315.0) && parseFloat("500") == Some(500.0)
    requires parseFloat("250") == Some(250.0) && parseFloat("1234") == Some(1234.0)
    ensures ConvertReading(MeterValue("2500", 27, 0, ""), "", now, parseFloat).value == 2500.0
    ensures ConvertReading(MeterValue("5", 27, 2, ""), "", now, parseFloat).value == 500.0
    ensures ConvertReading(MeterValue("123450", 30, 0, ""), "", now, parseFloat).value == 123.45
    ensures ConvertReading(MeterValue("153", 33, -1, ""), "", now, parseFloat).value == 15.3
    ensures ConvertReading(MeterValue("2315", 35, -1, ""), "", now, parseFloat).value == 231.5
    ensures ConvertReading(MeterValue("500", 44, -1, ""), "", now, parseFloat).value == 50.0
    ensures ConvertReading(MeterValue("250", 27, -2, ""), "", now, parseFloat).value == 2.5
    ensures ConvertReading(MeterValue("1234", 27, 1, ""), "", now, parseFloat).value == 12340.0
  {
    assert Pow10(2) == 100.0 by { assert Pow10(1) == 10.0; }
    assert Pow10(-1) == 0.1;
    assert Pow10(-2) == 0.01;
  }

  // ---------------------------------------------------------------------------
  // Assembling the readings map
  // ---------------------------------------------------------------------------

  /** The value at `i` converts to the code `k`. */
  predicate ConvertsTo(values: seq<MeterValue>, i: int, k: string)
    requires 0 <= i < |values|
  {
    ConvertToObis(values[i].logicalName) == Success(k)
  }

  /** The code and reading one value contributes: none when its logical name does not convert. */
  function Converted(item: MeterValue, now: Instant, parseFloat: string -> Option<real>): (s: Option<(string, Reading)>)
    ensures s.Some? <==> ConvertToObis(item.logicalName).Success?
    ensures s.Some? ==> s.value.0 == ConvertToObis(item.logicalName).value
                        && s.value.1 == ConvertReading(item, s.value.0, now, parseFloat)
  {
    match ConvertToObis(item.logicalName)
    case Success(obis) => Some((obis, ConvertReading(item, obis, now, parseFloat)))
    case Failure(_) => None
  }

  /** What each value contributes, in order. */
  function ConvertedAll(values: seq<MeterValue>, now: Instant, parseFloat: string -> Option<real>): (s: seq<Option<(string, Reading)>>)
    ensures |s| == |values| && forall i :: 0 <= i < |values| ==> s[i] == Converted(values[i], now, parseFloat)
  {
    seq(|values|, i requires 0 <= i < |values| => Converted(values[i], now, parseFloat))
  }

  /**
   * The map GetReadings builds: each value whose logical name converts is
   * stored under its code, later values overwriting earlier ones.
   */
  function ReadingsOf(values: seq<MeterValue>, now: Instant, parseFloat: string -> Option<real>): (m: map<string, Reading>)
    ensures WellFormed(m)
  {
    var stores := ConvertedAll(values, now, parseFloat);
    StoreAllWellFormed(map[], stores);
    StoreAll(map[], stores)
  }

  /** One more value at the end is one more step on the map built so far. */
  lemma ReadingsOfSnoc(values: seq<MeterValue>, item: MeterValue, now: Instant, parseFloat: string -> Option<real>)
    ensures ReadingsOf(values + [item], now, parseFloat) == Store(ReadingsOf(values, now, parseFloat), Converted(item, now, parseFloat))
  {
    assert ConvertedAll(values + [item], now, parseFloat) == ConvertedAll(values, now, parseFloat) + [Converted(item, now, parseFloat)];
    StoreAllSnoc(map[], ConvertedAll(values, now, parseFloat), Converted(item, now, parseFloat));
  }

  /** The map's codes are exactly the codes of the values whose logical names convert. */
  lemma ReadingsOfKeys(values: seq<MeterValue>, now: Instant, parseFloat: string -> Option<real>, k: string)
    ensures k in ReadingsOf(values, now, parseFloat) <==> exists i :: 0 <= i < |values| && ConvertsTo(values, i, k)
  {
    var stores := ConvertedAll(values, now, parseFloat);
    StoreAllKeys(map[], stores, k);
    forall i | 0 <= i < |values|
      ensures StoresAt(stores, i, k) <==> ConvertsTo(values, i, k)
    {
    }
  }

  /** The reading stored under a code comes from the last value that converts to it. */
  lemma LastWriteWins(values: seq<MeterValue>, now: Instant, parseFloat: string -> Option<real>, i: int, k: string)
    requires 0 <= i < |values| && ConvertsTo(values, i, k)
    requires forall j :: i < j < |values| ==> !ConvertsTo(values, j, k)
    ensures k in ReadingsOf(values, now, parseFloat)
    ensures ReadingsOf(values, now, parseFloat)[k] == ConvertReading(values[i], k, now, parseFloat)
  {
    var stores := ConvertedAll(values, now, parseFloat);
    assert StoresAt(stores, i, k);
    forall j | i < j < |stores| ensures !StoresAt(stores, j, k) {
      assert !ConvertsTo(values, j, k);
    }
    StoreAllLast(map[], stores, i, k);
  }

  /** A value whose logical name does not convert leaves the map as it was. */
  lemma SkipsUnconvertible(values: seq<MeterValue>, item: MeterValue, now: Instant, parseFloat: string -> Option<real>)
    requires ConvertToObis(item.logicalName).Failure?
    ensures ReadingsOf(values + [item], now, parseFloat) == ReadingsOf(values, now, parseFloat)
  {
    ReadingsOfSnoc(values, item, now, parseFloat);
  }

  /**
   * The outcome of fetching the values of `meterID`: the fetch error wrapped,
   * "no valid meter values found" for an empty map, else an Information
   * named after the meter.
   */
  function ReadingsFor(meterID: string, fetched: Result<seq<MeterValue>, Error>, now: Instant, parseFloat: string -> Option<real>): (r: Result<Information, Error>)
    ensures fetched.Failure? ==> r == Failure(Wrap("failed to get meter values", fetched.error))
    ensures fetched.Success? && ReadingsOf(fetched.value, now, parseFloat) == map[] ==> r == Failure(Fail("no valid meter values found"))
    ensures r.Success? ==> && r.value.name == meterID && r.value.model == "EMH CASA 1.1"
                           && r.value.manufacturer == "EMH" && r.value.firmwareVersion == ""
                           && r.value.lastUpdate == now
                           && |r.value.readings| > 0 && WellFormed(r.value.readings)
                           && r.value.readings == ReadingsOf(fetched.value, now, parseFloat)
    ensures fetched.Success? && ReadingsOf(fetched.value, now, parseFloat) != map[] ==> r.Success?
  {
    match fetched
    case Failure(e) => Failure(Wrap("failed to get meter values", e))
    case Success(values) =>
      var m := ReadingsOf(values, now, parseFloat);
      if |m| == 0 then Failure(Fail("no valid meter values found"))
      else Success(Information(meterID, "EMH CASA 1.1", "EMH", "", now, m))
  }

  // ---------------------------------------------------------------------------
  // Meter-ID discovery
  // ---------------------------------------------------------------------------

  /** A contract detail that was fetched and names at least one sensor domain. */
  predicate Qualifies(detail: Result<DerivedContract, Error>) {
    detail.Success? && |detail.value.sensorDomains| > 0
  }

  /** The first sensor domain of the first qualifying contract, in listing order. */
  function FirstSensorDomain(ids: seq<string>, details: string -> Result<DerivedContract, Error>): (r: Option<string>)
    ensures r.None? <==> forall i :: 0 <= i < |ids| ==> !Qualifies(details(ids[i]))
    ensures r.Some? ==> exists i :: 0 <= i < |ids| && Qualifies(details(ids[i]))
                         && r.value == details(ids[i]).value.sensorDomains[0]
                         && forall j :: 0 <= j < i ==> !Qualifies(details(ids[j]))
  {
    if ids == [] then None
    else if Qualifies(details(ids[0])) then
      Some(details(ids[0]).value.sensorDomains[0])
    else
      var r := FirstSensorDomain(ids[1..], details);
      assert forall i :: 1 <= i < |ids| ==> ids[1..][i - 1] == ids[i];
      if r.Some? then
        var i :| 0 <= i < |ids[1..]| && Qualifies(details(ids[1..][i]))
                 && r.value == details(ids[1..][i]).value.sensorDomains[0]
                 && forall j :: 0 <= j < i ==> !Qualifies(details(ids[1..][j]));
        assert ids[1..][i] == ids[i + 1];
        assert forall j :: 0 <= j < i + 1 ==> !Qualifies(details(ids[j])) by {
          forall j | 0 <= j < i + 1 ensures !Qualifies(details(ids[j])) {
            if j > 0 { assert ids[j] == ids[1..][j - 1]; }
          }
        }
        r
      else r
  }

  /** discoverMeterIDContext's outcome: the listing error wrapped, the first sensor domain, or "no contract …". */
  function Discovery(contracts: Result<seq<string>, Error>, details: string -> Result<DerivedContract, Error>): (r: Result<string, Error>)
    ensures contracts.Failure? ==> r == Failure(Wrap("failed to get contracts", contracts.error))
    ensures contracts.Success? && FirstSensorDomain(contracts.value, details).None? ==> r == Failure(Fail("no contract with sensor domains found"))
    ensures contracts.Success? && FirstSensorDomain(contracts.value, details).Some? ==>
              r == Success(FirstSensorDomain(contracts.value, details).value)
    ensures r.Success? <==> contracts.Success? && exists i :: 0 <= i < |contracts.value| && Qualifies(details(contracts.value[i]))
    ensures r.Success? ==>
      exists i :: 0 <= i < |contracts.value| && Qualifies(details(contracts.value[i]))
        && r.value == details(contracts.value[i]).value.sensorDomains[0]
        && forall j :: 0 <= j < i ==> !Qualifies(details(contracts.value[j]))
  {
    match contracts
    case Failure(e) => Failure(Wrap("failed to get contracts", e))
    case Success(ids) =>
      match FirstSensorDomain(ids, details)
      case Some(id) => Success(id)
      case None => Failure(Fail("no contract with sensor domains found"))
  }

  /** The Information's readings as plain numbers, as GetMeterValues returns them. */
  function ValuesOf(readings: map<string, Reading>): (v: map<string, real>)
    ensures v.Keys == readings.Keys
    ensures forall k :: k in v ==> v[k] == readings[k].value
  {
    map k | k in readings :: readings[k].value
  }

  // ---------------------------------------------------------------------------
  // The client and its cached meter id
  // ---------------------------------------------------------------------------

  class Client {
    var uri: string
    /** Empty until set by discovery or SetMeterID. */
    var meterID: string
    /** The Host header override; empty means the request's own host. */
    var hostHeader: string

    constructor(uri: string, meterID: string)
      ensures this.uri == uri && this.meterID == meterID && hostHeader == ""
    {
      this.uri := uri;
      this.meterID := meterID;
      hostHeader := "";
    }

    /**
     * discoverMeterIDContext: walks the listed contracts in order, skipping
     * those whose detail fetch fails, and caches the first sensor domain of
     * the first contract that has one.  On failure the cached id is kept.
     */
    method DiscoverMeterIdContext(contracts: Result<seq<string>, Error>, details: string -> Result<DerivedContract, Error>)
      returns (err: Option<Error>)
      modifies this`meterID
      ensures Discovery(contracts, details).Success? ==> err.None? && meterID == Discovery(contracts, details).value
      ensures Discovery(contracts, details).Failure? ==> err == Some(Discovery(contracts, details).error) && meterID == old(meterID)
    {
      if contracts.Failure? {
        return Some(Wrap("failed to get contracts", contracts.error));
      }
      var ids := contracts.value;
      var i := 0;
      while i < |ids|
        invariant 0 <= i <= |ids|
        invariant FirstSensorDomain(ids[i..], details) == FirstSensorDomain(ids, details)
        invariant meterID == old(meterID)
      {
        assert ids[i..][0] == ids[i] && ids[i..][1..] == ids[i + 1..];
        var contract := details(ids[i]);
        if contract.Failure? {
          i := i + 1;
          continue;
        }
        if |contract.value.sensorDomains| > 0 {
          meterID := contract.value.sensorDomains[0];
          assert FirstSensorDomain(ids, details) == Some(meterID);
          return None;
        }
        i := i + 1;
      }
      assert ids[i..] == [];
      return Some(Fail("no contract with sensor domains found"));
    }

    /** DiscoverMeterID: the discovered id, or discovery's error. */
    method DiscoverMeterID(contracts: Result<seq<string>, Error>, details: string -> Result<DerivedContract, Error>)
      returns (r: Result<string, Error>)
      modifies this`meterID
      ensures r == Discovery(contracts, details)
      ensures r.Success? ==> meterID == r.value
      ensures r.Failure? ==> meterID == old(meterID)
    {
      var err := DiscoverMeterIdContext(contracts, details);
      if err.Some? {
        return Failure(err.value);
      }
      return Success(meterID);
    }

    /**
     * GetReadings: discovers the meter id only when none is cached, then
     * converts the values fetched for that id.
     */
    method GetReadings(contracts: Result<seq<string>, Error>, details: string -> Result<DerivedContract, Error>,
                       origin: string -> Result<seq<MeterValue>, Error>, now: Instant, parseFloat: string -> Option<real>)
      returns (r: Result<Information, Error>)
      modifies this`meterID
      ensures old(meterID) != "" ==> meterID == old(meterID)
      ensures old(meterID) == "" && Discovery(contracts, details).Failure? ==>
                meterID == old(meterID) && r == Failure(Wrap("failed to discover meter ID", Discovery(contracts, details).error))
      ensures old(meterID) == "" && Discovery(contracts, details).Success? ==> meterID == Discovery(contracts, details).value
      ensures old(meterID) != "" || Discovery(contracts, details).Success? ==> r == ReadingsFor(meterID, origin(meterID), now, parseFloat)
    {
      if meterID == "" {
        var err := DiscoverMeterIdContext(contracts, details);
        if err.Some? {
          return Failure(Wrap("failed to discover meter ID", err.value));
        }
      }
      var fetched := origin(meterID);
      if fetched.Failure? {
        return Failure(Wrap("failed to get meter values", fetched.error));
      }
      var readings := CollectReadings(fetched.value, now, parseFloat);
      if |readings| == 0 {
        return Failure(Fail("no valid meter values found"));
      }
      return Success(Information(meterID, "EMH CASA 1.1", "EMH", "", now, readings));
    }

    /** GetReadings' loop over the fetched values, first to last. */
    static method CollectReadings(values: seq<MeterValue>, now: Instant, parseFloat: string -> Option<real>)
      returns (readings: map<string, Reading>)
      ensures readings == ReadingsOf(values, now, parseFloat)
    {
      readings := map[];
      var i := 0;
      while i < |values|
        invariant 0 <= i <= |values|
        invariant readings == ReadingsOf(values[..i], now, parseFloat)
      {
        assert values[..i + 1] == values[..i] + [values[i]];
        ReadingsOfSnoc(values[..i], values[i], now, parseFloat);
        var obis := ConvertToObis(values[i].logicalName);
        if obis.Success? {
          readings := readings[obis.value := ConvertReading(values[i], obis.value, now, parseFloat)];
        }
        i := i + 1;
      }
      assert values[..i] == values;
    }

    /** GetMeterValues: GetReadings' readings as plain numbers. */
    method GetMeterValues(contracts: Result<seq<string>, Error>, details: string -> Result<DerivedContract, Error>,
                          origin: string -> Result<seq<MeterValue>, Error>, now: Instant, parseFloat: string -> Option<real>)
      returns (r: Result<map<string, real>, Error>)
      modifies this`meterID
      ensures old(meterID) != "" ==> meterID == old(meterID)
      ensures old(meterID) == "" && Discovery(contracts, details).Failure? ==>
                meterID == old(meterID) && r == Failure(Wrap("failed to discover meter ID", Discovery(contracts, details).error))
      ensures old(meterID) == "" && Discovery(contracts, details).Success? ==> meterID == Discovery(contracts, details).value
      ensures old(meterID) != "" || Discovery(contracts, details).Success? ==>
                var info := ReadingsFor(meterID, origin(meterID), now, parseFloat);
                && (info.Failure? ==> r == Failure(info.error))
                && (info.Success? ==> r == Success(ValuesOf(info.value.readings)))
    {
      var info := GetReadings(contracts, details, origin, now, parseFloat);
      if info.Failure? {
        return Failure(info.error);
      }
      return Success(ValuesOf(info.value.readings));
    }

    /** MeterID: the cached id, discovering it when empty and swallowing discovery's error. */
    method MeterID(contracts: Result<seq<string>, Error>, details: string -> Result<DerivedContract, Error>)
      returns (id: string)
      modifies this`meterID
      ensures id == meterID
      ensures old(meterID) != "" ==> id == old(meterID)
      ensures old(meterID) == "" && Discovery(contracts, details).Success? ==> id == Discovery(contracts, details).value
      ensures old(meterID) == "" && Discovery(contracts, details).Failure? ==> id == ""
    {
      if meterID == "" {
        var _ := DiscoverMeterIdContext(contracts, details);
      }
      return meterID;
    }

    method SetMeterID(id: string)
      modifies this`meterID
      ensures meterID == id
    {
      meterID := id;
    }

    method SetHostHeader(host: string)
      modifies this`hostHeader
      ensures hostHeader == host
    {
      hostHeader := host;
    }
  }

  /**
   * NewClient: the URI checks of ResolveUri, then a client holding the
   * resolved URI and the given (possibly empty) meter id.
   */
  method NewClient(uri: string, user: string, password: string, meterID: string, discovered: Result<string, Error>)
    returns (r: Result<Client, Error>)
    ensures ResolveUri(uri, user, password, discovered).Failure? ==> r == Failure(ResolveUri(uri, user, password, discovered).error)
    ensures ResolveUri(uri, user, password, discovered).Success? ==> r.Success?
    ensures r.Success? ==> fresh(r.value) && r.value.uri == ResolveUri(uri, user, password, discovered).value
                           && r.value.meterID == meterID && r.value.hostHeader == ""
  {
    var resolved := ResolveUri(uri, user, password, discovered);
    if resolved.Failure? {
      return Failure(resolved.error);
    }
    var c := new Client(resolved.value, meterID);
    return Success(c);
  }
}
