/**
 * The Theben Conexa gateway client (theben/client.go): configuration checks,
 * usage-point selection, the translation of Theben's hex OBIS names, value
 * scaling, unit inference and the assembly of the readings map.
 *
 * The three JSON-RPC requests ("smgw-info", "user-info", "readings") are
 * inputs, each a Result; fmt.Sscanf with "%f" is a partial function `scan`,
 * time.Parse with RFC 3339 a partial function `parseTime`, and one instant
 * `now` stands for time.Now.
 */
module Theben {

  import opened Wrappers
  import opened Text
  import opened Smgw
  import opened EmhObis
  import EmhCasa

  datatype UsagePoint = UsagePoint(id: string, tafState: string, tafNumber: string)

  /** One entry of a channel of the "readings" response. */
  datatype RawReading = RawReading(obis: string, value: string, captureTime: string)

  datatype SmgwInfo = SmgwInfo(firmwareVersion: string, manufacturer: string, model: string)

  // ---------------------------------------------------------------------------
  // Configuration
  // ---------------------------------------------------------------------------

  /**
   * NewClient's checks: missing credentials first, then a missing base URL;
   * a URL without "http://" or "https://" gets "https://" in front.
   */
  function ValidateConfig(baseURL: string, username: string, password: string): (r: Result<string, Error>)
    ensures username == "" || password == "" ==> r == Failure(Fail("credentials are required"))
    ensures username != "" && password != "" && baseURL == "" ==> r == Failure(Fail("base URL is required"))
    ensures r.Success? ==> EmhCasa.HasScheme(r.value) && HasSuffix(r.value, baseURL)
    ensures r.Success? && EmhCasa.HasScheme(baseURL) ==> r.value == baseURL
    ensures r.Success? && !EmhCasa.HasScheme(baseURL) ==> r.value == "https://" + baseURL
    ensures username != "" && password != "" && baseURL != "" ==> r == Success(EmhCasa.DefaultScheme(baseURL, "https"))
  {
    if username == "" || password == "" then Failure(Fail("credentials are required"))
    else if baseURL == "" then Failure(Fail("base URL is required"))
    else
      EmhCasa.DefaultSchemeIdempotent(baseURL, "https");
      Success(EmhCasa.DefaultScheme(baseURL, "https"))
  }

  // ---------------------------------------------------------------------------
  // Usage-point selection
  // ---------------------------------------------------------------------------

  /** The preferred kind of usage point: TAF 7 in state "running". */
  predicate RunningTaf7(up: UsagePoint) {
    up.tafState == "running" && up.tafNumber == "7"
  }

  /** The id of the first running TAF-7 usage point, if any. */
  function FirstRunningTaf7(ups: seq<UsagePoint>): (r: Option<string>)
    ensures r.None? <==> forall i :: 0 <= i < |ups| ==> !RunningTaf7(ups[i])
    ensures r.Some? ==> exists i :: 0 <= i < |ups| && RunningTaf7(ups[i]) && r.value == ups[i].id
                         && forall j :: 0 <= j < i ==> !RunningTaf7(ups[j])
  {
    if ups == [] then None
    else if RunningTaf7(ups[0]) then Some(ups[0].id)
    else
      var r := FirstRunningTaf7(ups[1..]);
      if r.Some? then
        var i :| 0 <= i < |ups[1..]| && RunningTaf7(ups[1..][i]) && r.value == ups[1..][i].id
                 && forall j :: 0 <= j < i ==> !RunningTaf7(ups[1..][j]);
        assert ups[1..][i] == ups[i + 1];
        assert forall j :: 0 <= j < i + 1 ==> !RunningTaf7(ups[j]) by {
          forall j | 0 <= j < i + 1 ensures !RunningTaf7(ups[j]) {
            if j > 0 { assert ups[j] == ups[1..][j - 1]; }
          }
        }
        r
      else
        assert forall i :: 1 <= i < |ups| ==> ups[i] == ups[1..][i - 1];
        r
  }

  /**
   * getUsagePointID's choice: the first running TAF-7 usage point, else the
   * first usage point, else "no usage points found"; a failed request
   * passes its error through.
   */
  function UsagePointChoice(userInfo: Result<seq<UsagePoint>, Error>): (r: Result<string, Error>)
    ensures userInfo.Failure? ==> r == Failure(userInfo.error)
    ensures userInfo.Success? && userInfo.value == [] ==> r == Failure(Fail("no usage points found"))
    ensures r.Success? ==> userInfo.Success? && exists i :: 0 <= i < |userInfo.value| && r.value == userInfo.value[i].id
    ensures userInfo.Success? && FirstRunningTaf7(userInfo.value).Some? ==> r == Success(FirstRunningTaf7(userInfo.value).value)
    ensures userInfo.Success? && FirstRunningTaf7(userInfo.value).None? && userInfo.value != [] ==>
              r == Success(userInfo.value[0].id)
    ensures r.Success? <==> userInfo.Success? && userInfo.value != []
  {
    match userInfo
    case Failure(e) => Failure(e)
    case Success(ups) =>
      match FirstRunningTaf7(ups)
      case Some(id) => Success(id)
      case None => if |ups| > 0 then Success(ups[0].id) else Failure(Fail("no usage points found"))
  }

  /** getUsagePointID, with its two passes over the usage points. */
  method GetUsagePointID(userInfo: Result<seq<UsagePoint>, Error>) returns (r: Result<string, Error>)
    ensures r == UsagePointChoice(userInfo)
  {
    if userInfo.Failure? {
      return Failure(userInfo.error);
    }
    var ups := userInfo.value;
    var i := 0;
    while i < |ups|
      invariant 0 <= i <= |ups|
      invariant FirstRunningTaf7(ups[i..]) == FirstRunningTaf7(ups)
    {
      assert ups[i..][1..] == ups[i + 1..];
      if ups[i].tafState == "running" && ups[i].tafNumber == "7" {
        return Success(ups[i].id);
      }
      i := i + 1;
    }
    if |ups| > 0 {
      return Success(ups[0].id);
    }
    return Failure(Fail("no usage points found"));
  }

  // ---------------------------------------------------------------------------
  // Theben's OBIS names
  // ---------------------------------------------------------------------------

  /**
   * convertOBIS's table: the thirteen hex names Theben reports, with the code
   * each stands for.  The Go map literal has distinct keys, so looking a name
   * up in it is taking the first pair with that name.
   */
  const Mappings: seq<(string, string)> := [
    ("0100010800ff", "1-0:1.8.0"),
    ("0100020800ff", "1-0:2.8.0"),
    ("0100100700ff", "1-0:16.7.0"),
    ("01001f0700ff", "1-0:31.7.0"),
    ("0100200700ff", "1-0:32.7.0"),
    ("0100240700ff", "1-0:36.7.0"),
    ("0100330700ff", "1-0:51.7.0"),
    ("0100340700ff", "1-0:52.7.0"),
    ("0100380700ff", "1-0:56.7.0"),
    ("0100470700ff", "1-0:71.7.0"),
    ("0100480700ff", "1-0:72.7.0"),
    ("01004c0700ff", "1-0:76.7.0"),
    ("01000e0700ff", "1-0:14.7.0")
  ]

  /** The code paired with `key` by the first pair that has it. */
  function Lookup(key: string, table: seq<(string, string)>): (r: Option<string>)
    ensures r.None? <==> forall i :: 0 <= i < |table| ==> table[i].0 != key
    ensures r.Some? ==> exists i :: 0 <= i < |table| && table[i].0 == key && r.value == table[i].1
  {
    if table == [] then None
    else if table[0].0 == key then Some(table[0].1)
    else
      var r := Lookup(key, table[1..]);
      assert forall i :: 1 <= i < |table| ==> table[i] == table[1..][i - 1];
      if r.Some? then
        var i :| 0 <= i < |table[1..]| && table[1..][i].0 == key && r.value == table[1..][i].1;
        assert table[i + 1] == table[1..][i];
        r
      else r
  }

  /** The name as convertOBIS looks it up: trimmed and lower-cased. */
  function LookupKey(hexObis: string): string {
    ToLower(TrimSpace(hexObis))
  }

  /** convertOBIS: the code of a known name after trimming and lower-casing, "" for any other. */
  function ConvertObis(hexObis: string): (r: string)
    ensures r != "" ==> exists i :: 0 <= i < |Mappings| && Mappings[i].0 == LookupKey(hexObis) && Mappings[i].1 == r
  {
    match Lookup(LookupKey(hexObis), Mappings)
    case Some(standard) => standard
    case None => ""
  }

  /** convertOBIS answers "" exactly for names not in the table, and otherwise a table code. */
  lemma ConvertObisFound(hexObis: string)
    ensures ConvertObis(hexObis) == "" <==> forall i :: 0 <= i < |Mappings| ==> Mappings[i].0 != LookupKey(hexObis)
    ensures ConvertObis(hexObis) != "" ==>
      exists i :: 0 <= i < |Mappings| && Mappings[i].0 == LookupKey(hexObis) && ConvertObis(hexObis) == Mappings[i].1
  {
    assert forall i :: 0 <= i < |Mappings| ==> Mappings[i].1 != "";
  }

  /** A name made of digits and lower-case hex letters is its own lookup key. */
  lemma CanonicalKey(k: string)
    requires forall i :: 0 <= i < |k| ==> IsDigit(k[i]) || 'a' <= k[i] <= 'f'
    ensures LookupKey(k) == k
  {
    TrimLeftNoop(k);
    TrimRightNoop(k);
  }

  lemma Entry1()
    ensures ConvertToObis("0100010800ff") == Success(ObisText(1, 8, 0))
  {
    var k := "0100010800ff";
    assert '.' !in k && forall i :: 4 <= i < 10 ==> IsHexDigit(k[i]);
    assert ByteAt(k, 4) == 1 && ByteAt(k, 6) == 8 && ByteAt(k, 8) == 0;
    ConvertPlainName(k, 1, 8, 0);
  }

  lemma Entry2()
    ensures ConvertToObis("0100020800ff") == Success(ObisText(2, 8, 0))
  {
    var k := "0100020800ff";
    assert '.' !in k && forall i :: 4 <= i < 10 ==> IsHexDigit(k[i]);
    assert ByteAt(k, 4) == 2 && ByteAt(k, 6) == 8 && ByteAt(k, 8) == 0;
    ConvertPlainName(k, 2, 8, 0);
  }

  lemma Entry16()
    ensures ConvertToObis("0100100700ff") == Success(ObisText(16, 7, 0))
  {
    var k := "0100100700ff";
    assert '.' !in k && forall i :: 4 <= i < 10 ==> IsHexDigit(k[i]);
    assert ByteAt(k, 4) == 16 && ByteAt(k, 6) == 7 && ByteAt(k, 8) == 0;
    ConvertPlainName(k, 16, 7, 0);
  }

  lemma Entry31()
    ensures ConvertToObis("01001f0700ff") == Success(ObisText(31, 7, 0))
  {
    var k := "01001f0700ff";
    assert '.' !in k && forall i :: 4 <= i < 10 ==> IsHexDigit(k[i]);
    assert ByteAt(k, 4) == 31 && ByteAt(k, 6) == 7 && ByteAt(k, 8) == 0;
    ConvertPlainName(k, 31, 7, 0);
  }

  lemma Entry32()
    ensures ConvertToObis("0100200700ff") == Success(ObisText(32, 7, 0))
  {
    var k := "0100200700ff";
    assert '.' !in k && forall i :: 4 <= i < 10 ==> IsHexDigit(k[i]);
    assert ByteAt(k, 4) == 32 && ByteAt(k, 6) == 7 && ByteAt(k, 8) == 0;
    ConvertPlainName(k, 32, 7, 0);
  }

  lemma Entry36()
    ensures ConvertToObis("0100240700ff") == Success(ObisText(36, 7, 0))
  {
    var k := "0100240700ff";
    assert '.' !in k && forall i :: 4 <= i < 10 ==> IsHexDigit(k[i]);
    assert ByteAt(k, 4) == 36 && ByteAt(k, 6) == 7 && ByteAt(k, 8) == 0;
    ConvertPlainName(k, 36, 7, 0);
  }

  lemma Entry51()
    ensures ConvertToObis("0100330700ff") == Success(ObisText(51, 7, 0))
  {
    var k := "0100330700ff";
    assert '.' !in k && forall i :: 4 <= i < 10 ==> IsHexDigit(k[i]);
    assert ByteAt(k, 4) == 51 && ByteAt(k, 6) == 7 && ByteAt(k, 8) == 0;
    ConvertPlainName(k, 51, 7, 0);
  }

  lemma Entry52()
    ensures ConvertToObis("0100340700ff") == Success(ObisText(52, 7, 0))
  {
    var k := "0100340700ff";
    assert '.' !in k && forall i :: 4 <= i < 10 ==> IsHexDigit(k[i]);
    assert ByteAt(k, 4) == 52 && ByteAt(k, 6) == 7 && ByteAt(k, 8) == 0;
    ConvertPlainName(k, 52, 7, 0);
  }

  lemma Entry56()
    ensures ConvertToObis("0100380700ff") == Success(ObisText(56, 7, 0))
  {
    var k := "0100380700ff";
    assert '.' !in k && forall i :: 4 <= i < 10 ==> IsHexDigit(k[i]);
    assert ByteAt(k, 4) == 56 && ByteAt(k, 6) == 7 && ByteAt(k, 8) == 0;
    ConvertPlainName(k, 56, 7, 0);
  }

  lemma Entry71()
    ensures ConvertToObis("0100470700ff") == Success(ObisText(71, 7, 0))
  {
    var k := "0100470700ff";
    assert '.' !in k && forall i :: 4 <= i < 10 ==> IsHexDigit(k[i]);
    assert ByteAt(k, 4) == 71 && ByteAt(k, 6) == 7 && ByteAt(k, 8) == 0;
    ConvertPlainName(k, 71, 7, 0);
  }

  lemma Entry72()
    ensures ConvertToObis("0100480700ff") == Success(ObisText(72, 7, 0))
  {
    var k := "0100480700ff";
    assert '.' !in k && forall i :: 4 <= i < 10 ==> IsHexDigit(k[i]);
    assert ByteAt(k, 4) == 72 && ByteAt(k, 6) == 7 && ByteAt(k, 8) == 0;
    ConvertPlainName(k, 72, 7, 0);
  }

  lemma Entry76()
    ensures ConvertToObis("01004c0700ff") == Success(ObisText(76, 7, 0))
  {
    var k := "01004c0700ff";
    assert '.' !in k && forall i :: 4 <= i < 10 ==> IsHexDigit(k[i]);
    assert ByteAt(k, 4) == 76 && ByteAt(k, 6) == 7 && ByteAt(k, 8) == 0;
    ConvertPlainName(k, 76, 7, 0);
  }

  lemma Entry14()
    ensures ConvertToObis("01000e0700ff") == Success(ObisText(14, 7, 0))
  {
    var k := "01000e0700ff";
    assert '.' !in k && forall i :: 4 <= i < 10 ==> IsHexDigit(k[i]);
    assert ByteAt(k, 4) == 14 && ByteAt(k, 6) == 7 && ByteAt(k, 8) == 0;
    ConvertPlainName(k, 14, 7, 0);
  }

  /** Row `i` of the table pairs `k` with "1-0:" and the text of the bytes C, D and E. */
  lemma AgreesAt(i: nat, k: string, c: nat, d: nat, e: nat, code: string)
    requires i < |Mappings| && Mappings[i] == (k, "1-0:" + code)
    requires ConvertToObis(k) == Success(ObisText(c, d, e)) && ObisText(c, d, e) == code
    ensures ConvertToObis(Mappings[i].0).Success? && Mappings[i].1 == "1-0:" + ConvertToObis(Mappings[i].0).value
  {
  }

  lemma Row0()
    ensures Mappings[0] == ("0100010800ff", "1-0:" + "1.8.0")
    ensures ObisText(1, 8, 0) == "1.8.0"
  {
    assert "1-0:" + "1.8.0" == "1-0:1.8.0";
  }

  lemma Row1()
    ensures Mappings[1] == ("0100020800ff", "1-0:" + "2.8.0")
    ensures ObisText(2, 8, 0) == "2.8.0"
  {
    assert "1-0:" + "2.8.0" == "1-0:2.8.0";
  }

  lemma Row2()
    ensures Mappings[2] == ("0100100700ff", "1-0:" + "16.7.0")
    ensures ObisText(16, 7, 0) == "16.7.0"
  {
    assert "1-0:" + "16.7.0" == "1-0:16.7.0";
    assert NatToDecimal(16) == NatToDecimal(1) + [DigitChar(6)];
  }

  lemma Row3()
    ensures Mappings[3] == ("01001f0700ff", "1-0:" + "31.7.0")
    ensures ObisText(31, 7, 0) == "31.7.0"
  {
    assert "1-0:" + "31.7.0" == "1-0:31.7.0";
    assert NatToDecimal(31) == NatToDecimal(3) + [DigitChar(1)];
  }

  lemma Row4()
    ensures Mappings[4] == ("0100200700ff", "1-0:" + "32.7.0")
    ensures ObisText(32, 7, 0) == "32.7.0"
  {
    assert "1-0:" + "32.7.0" == "1-0:32.7.0";
    assert NatToDecimal(32) == NatToDecimal(3) + [DigitChar(2)];
  }

  lemma Row5()
    ensures Mappings[5] == ("0100240700ff", "1-0:" + "36.7.0")
    ensures ObisText(36, 7, 0) == "36.7.0"
  {
    assert "1-0:" + "36.7.0" == "1-0:36.7.0";
    assert NatToDecimal(36) == NatToDecimal(3) + [DigitChar(6)];
  }

  lemma Row6()
    ensures Mappings[6] == ("0100330700ff", "1-0:" + "51.7.0")
    ensures ObisText(51, 7, 0) == "51.7.0"
  {
    assert "1-0:" + "51.7.0" == "1-0:51.7.0";
    assert NatToDecimal(51) == NatToDecimal(5) + [DigitChar(1)];
  }

  lemma Row7()
    ensures Mappings[7] == ("0100340700ff", "1-0:" + "52.7.0")
    ensures ObisText(52, 7, 0) == "52.7.0"
  {
    assert "1-0:" + "52.7.0" == "1-0:52.7.0";
    assert NatToDecimal(52) == NatToDecimal(5) + [DigitChar(2)];
  }

  lemma Row8()
    ensures Mappings[8] == ("0100380700ff", "1-0:" + "56.7.0")
    ensures ObisText(56, 7, 0) == "56.7.0"
  {
    assert "1-0:" + "56.7.0" == "1-0:56.7.0";
    assert NatToDecimal(56) == NatToDecimal(5) + [DigitChar(6)];
  }

  lemma Row9()
    ensures Mappings[9] == ("0100470700ff", "1-0:" + "71.7.0")
    ensures ObisText(71, 7, 0) == "71.7.0"
  {
    assert "1-0:" + "71.7.0" == "1-0:71.7.0";
    assert NatToDecimal(71) == NatToDecimal(7) + [DigitChar(1)];
  }

  lemma Row10()
    ensures Mappings[10] == ("0100480700ff", "1-0:" + "72.7.0")
    ensures ObisText(72, 7, 0) == "72.7.0"
  {
    assert "1-0:" + "72.7.0" == "1-0:72.7.0";
    assert NatToDecimal(72) == NatToDecimal(7) + [DigitChar(2)];
  }

  lemma Row11()
    ensures Mappings[11] == ("01004c0700ff", "1-0:" + "76.7.0")
    ensures ObisText(76, 7, 0) == "76.7.0"
  {
    assert "1-0:" + "76.7.0" == "1-0:76.7.0";
    assert NatToDecimal(76) == NatToDecimal(7) + [DigitChar(6)];
  }

  lemma Row12()
    ensures Mappings[12] == ("01000e0700ff", "1-0:" + "14.7.0")
    ensures ObisText(14, 7, 0) == "14.7.0"
  {
    assert "1-0:" + "14.7.0" == "1-0:14.7.0";
    assert NatToDecimal(14) == NatToDecimal(1) + [DigitChar(4)];
  }

  lemma Agrees0()
    ensures ConvertToObis(Mappings[0].0).Success? && Mappings[0].1 == "1-0:" + ConvertToObis(Mappings[0].0).value
  {
    Row0();
    Entry1();
    AgreesAt(0, "0100010800ff", 1, 8, 0, "1.8.0");
  }

  lemma Agrees1()
    ensures ConvertToObis(Mappings[1].0).Success? && Mappings[1].1 == "1-0:" + ConvertToObis(Mappings[1].0).value
  {
    Row1();
    Entry2();
    AgreesAt(1, "0100020800ff", 2, 8, 0, "2.8.0");
  }

  lemma Agrees2()
    ensures ConvertToObis(Mappings[2].0).Success? && Mappings[2].1 == "1-0:" + ConvertToObis(Mappings[2].0).value
  {
    Row2();
    Entry16();
    AgreesAt(2, "0100100700ff", 16, 7, 0, "16.7.0");
  }

  lemma Agrees3()
    ensures ConvertToObis(Mappings[3].0).Success? && Mappings[3].1 == "1-0:" + ConvertToObis(Mappings[3].0).value
  {
    Row3();
    Entry31();
    AgreesAt(3, "01001f0700ff", 31, 7, 0, "31.7.0");
  }

  lemma Agrees4()
    ensures ConvertToObis(Mappings[4].0).Success? && Mappings[4].1 == "1-0:" + ConvertToObis(Mappings[4].0).value
  {
    Row4();
    Entry32();
    AgreesAt(4, "0100200700ff", 32, 7, 0, "32.7.0");
  }

  lemma Agrees5()
    ensures ConvertToObis(Mappings[5].0).Success? && Mappings[5].1 == "1-0:" + ConvertToObis(Mappings[5].0).value
  {
    Row5();
    Entry36();
    AgreesAt(5, "0100240700ff", 36, 7, 0, "36.7.0");
  }

  lemma Agrees6()
    ensures ConvertToObis(Mappings[6].0).Success? && Mappings[6].1 == "1-0:" + ConvertToObis(Mappings[6].0).value
  {
    Row6();
    Entry51();
    AgreesAt(6, "0100330700ff", 51, 7, 0, "51.7.0");
  }

  lemma Agrees7()
    ensures ConvertToObis(Mappings[7].0).Success? && Mappings[7].1 == "1-0:" + ConvertToObis(Mappings[7].0).value
  {
    Row7();
    Entry52();
    AgreesAt(7, "0100340700ff", 52, 7, 0, "52.7.0");
  }

  lemma Agrees8()
    ensures ConvertToObis(Mappings[8].0).Success? && Mappings[8].1 == "1-0:" + ConvertToObis(Mappings[8].0).value
  {
    Row8();
    Entry56();
    AgreesAt(8, "0100380700ff", 56, 7, 0, "56.7.0");
  }

  lemma Agrees9()
    ensures ConvertToObis(Mappings[9].0).Success? && Mappings[9].1 == "1-0:" + ConvertToObis(Mappings[9].0).value
  {
    Row9();
    Entry71();
    AgreesAt(9, "0100470700ff", 71, 7, 0, "71.7.0");
  }

  lemma Agrees10()
    ensures ConvertToObis(Mappings[10].0).Success? && Mappings[10].1 == "1-0:" + ConvertToObis(Mappings[10].0).value
  {
    Row10();
    Entry72();
    AgreesAt(10, "0100480700ff", 72, 7, 0, "72.7.0");
  }

  lemma Agrees11()
    ensures ConvertToObis(Mappings[11].0).Success? && Mappings[11].1 == "1-0:" + ConvertToObis(Mappings[11].0).value
  {
    Row11();
    Entry76();
    AgreesAt(11, "01004c0700ff", 76, 7, 0, "76.7.0");
  }

  lemma Agrees12()
    ensures ConvertToObis(Mappings[12].0).Success? && Mappings[12].1 == "1-0:" + ConvertToObis(Mappings[12].0).value
  {
    Row12();
    Entry14();
    AgreesAt(12, "01000e0700ff", 14, 7, 0, "14.7.0");
  }

  /**
   * Theben's table agrees with the EMH byte-slicing rule: each name converts,
   * under convertToOBIS, to the code its entry names after "1-0:".
   */
  lemma TableAgreesWithEmh()
    ensures forall i :: 0 <= i < |Mappings| ==>
      ConvertToObis(Mappings[i].0).Success? && Mappings[i].1 == "1-0:" + ConvertToObis(Mappings[i].0).value
  {
    forall i | 0 <= i < |Mappings|
      ensures ConvertToObis(Mappings[i].0).Success? && Mappings[i].1 == "1-0:" + ConvertToObis(Mappings[i].0).value
    {
      if i == 0 {
        Agrees0();
      } else if i == 1 {
        Agrees1();
      } else if i == 2 {
        Agrees2();
      } else if i == 3 {
        Agrees3();
      } else if i == 4 {
        Agrees4();
      } else if i == 5 {
        Agrees5();
      } else if i == 6 {
        Agrees6();
      } else if i == 7 {
        Agrees7();
      } else if i == 8 {
        Agrees8();
      } else if i == 9 {
        Agrees9();
      } else if i == 10 {
        Agrees10();
      } else if i == 11 {
        Agrees11();
      } else {
        Agrees12();
      }
    }
  }

  /** Each name of the table is its own lookup key. */
  lemma KeysCanonical()
    ensures forall i :: 0 <= i < |Mappings| ==> LookupKey(Mappings[i].0) == Mappings[i].0
  {
    forall i | 0 <= i < |Mappings|
      ensures LookupKey(Mappings[i].0) == Mappings[i].0
    {
      CanonicalKey(Mappings[i].0);
    }
  }

  /**
   * Whenever convertOBIS knows a name, its answer is "1-0:" followed by what
   * convertToOBIS makes of the trimmed, lower-cased name; every name of the
   * table is known.
   */
  lemma ConvertObisAgreesWithEmh(hexObis: string)
    ensures ConvertObis(hexObis) != "" ==>
      ConvertToObis(LookupKey(hexObis)).Success? && ConvertObis(hexObis) == "1-0:" + ConvertToObis(LookupKey(hexObis)).value
    ensures forall i :: 0 <= i < |Mappings| ==> ConvertObis(Mappings[i].0) != ""
  {
    if ConvertObis(hexObis) != "" {
      var i :| 0 <= i < |Mappings| && Mappings[i].0 == LookupKey(hexObis) && Mappings[i].1 == ConvertObis(hexObis);
      TableAgreesWithEmh();
      assert ConvertToObis(Mappings[i].0).Success? && Mappings[i].1 == "1-0:" + ConvertToObis(Mappings[i].0).value;
    }
    EveryKeyConverts();
  }

  /** Every name of the table is known to convertOBIS. */
  lemma EveryKeyConverts()
    ensures forall i :: 0 <= i < |Mappings| ==> ConvertObis(Mappings[i].0) != ""
  {
    KeysCanonical();
    forall i | 0 <= i < |Mappings| ensures ConvertObis(Mappings[i].0) != "" {
      ConvertObisFound(Mappings[i].0);
    }
  }

  // ---------------------------------------------------------------------------
  // Values and units
  // ---------------------------------------------------------------------------

  /**
   * parseValue: the scanned number divided by 1000 for an energy code (one
   * containing ".8."), by 10000 for every other code; None when the scan fails.
   */
  function ParseValue(valueStr: string, obis: string, scan: string -> Option<real>): (r: Option<real>)
    ensures r.None? <==> scan(valueStr).None?
    ensures r.Some? && Contains(obis, ".8.") ==> r.value * 1000.0 == scan(valueStr).value
    ensures r.Some? && !Contains(obis, ".8.") ==> r.value * 10000.0 == scan(valueStr).value
  {
    match scan(valueStr)
    case None => None
    case Some(v) => if Contains(obis, ".8.") then Some(v / 1000.0) else Some(v / 10000.0)
  }

  /**
   * The unit table shared by the Theben and PPC clients, on the C and D
   * fields of a code: D "8" is energy; D "7" is power, current, voltage or
   * frequency by C; everything else is reported as W.
   */
  function CodeUnit(c: string, d: string): (u: Unit)
    ensures u in DefinedUnits
    ensures u == UnitWh <==> d == "8"
    ensures u == UnitAmpere <==> d == "7" && c in {"31", "51", "71"}
    ensures u == UnitVolt <==> d == "7" && c in {"32", "52", "72"}
    ensures u == UnitHertz <==> d == "7" && c == "14"
    ensures d == "7" && c in {"16", "36", "56", "76"} ==> u == UnitWatt
    ensures d != "7" && d != "8" ==> u == UnitWatt
  {
    if d == "8" then UnitWh
    else if d == "7" then
      if c == "16" || c == "36" || c == "56" || c == "76" then UnitWatt
      else if c == "31" || c == "51" || c == "71" then UnitAmpere
      else if c == "32" || c == "52" || c == "72" then UnitVolt
      else if c == "14" then UnitHertz
      else UnitWatt
    else UnitWatt
  }

  /**
   * determineUnit: the field between the first and the second ":", split
   * on "."; W when there is no ":" or that field has fewer than two parts.
   */
  function DetermineUnit(obis: string): (u: Unit)
    ensures u in DefinedUnits
    ensures ':' !in obis ==> u == UnitWatt
    ensures |Split(obis, ':')| >= 2 && '.' !in Split(obis, ':')[1] ==> u == UnitWatt
  {
    CountCharZero(obis, ':');
    var parts := Split(obis, ':');
    if |parts| < 2 then UnitWatt
    else
      CountCharZero(parts[1], '.');
      var codeParts := Split(parts[1], '.');
      if |codeParts| < 2 then UnitWatt
      else CodeUnit(codeParts[0], codeParts[1])
  }

  /** A Theben code "1-0:C.D.E" gets the unit the table gives its C and D. */
  lemma DetermineUnitOfCode(c: string, d: string, e: string)
    requires AllDigits(c) && AllDigits(d) && AllDigits(e)
    ensures DetermineUnit("1-0:" + c + "." + d + "." + e) == CodeUnit(c, d)
  {
    var code := c + "." + d + "." + e;
    assert ':' !in code by {
      forall i | 0 <= i < |code| ensures code[i] != ':' {
        Smgw.DotJoinAt(c + "." + d, e, i);
        if i < |c + "." + d| {
          Smgw.DotJoinAt(c, d, i);
        }
      }
    }
    assert "1-0:" + code == "1-0" + [':'] + code;
    assert Join(["1-0", code], ':') == "1-0" + [':'] + code by {
      assert ["1-0", code][1..] == [code];
    }
    SplitJoin(["1-0", code], ':');
    ObisTextSplit(c, d, e);
    assert "1-0:" + c + "." + d + "." + e == "1-0:" + code;
    assert Split("1-0:" + code, ':')[1] == code;
  }

  // ---------------------------------------------------------------------------
  // Assembling the readings map
  // ---------------------------------------------------------------------------

  /** The capture time when it is present and parses, `now` otherwise. */
  function CaptureTime(captureTime: string, now: Instant, parseTime: string -> Option<Instant>): (t: Instant)
    ensures captureTime == "" || parseTime(captureTime).None? ==> t == now
    ensures captureTime != "" && parseTime(captureTime).Some? ==> t == parseTime(captureTime).value
  {
    if captureTime != "" && parseTime(captureTime).Some? then parseTime(captureTime).value else now
  }

  /** The reading one raw entry contributes, if its name is known and its value scans. */
  function Entry(r: RawReading, now: Instant, scan: string -> Option<real>, parseTime: string -> Option<Instant>): (e: Option<Reading>)
    ensures e.Some? ==> e.value.quality == QualityGood
  {
    var obis := ConvertObis(r.obis);
    if obis == "" then None
    else
      match ParseValue(r.value, obis, scan)
      case None => None
      case Some(v) => Some(Reading(v, DetermineUnit(obis), CaptureTime(r.captureTime, now, parseTime), obis, QualityGood))
  }

  /**
   * An entry is used exactly when its name is in the table and its value
   * scans; it is then stored under the table's code, with the scaled value,
   * the unit of that code and its capture time.
   */
  lemma EntryUsable(r: RawReading, now: Instant, scan: string -> Option<real>, parseTime: string -> Option<Instant>)
    ensures Entry(r, now, scan, parseTime).Some? <==> ConvertObis(r.obis) != "" && scan(r.value).Some?
    ensures Entry(r, now, scan, parseTime).Some? ==>
      var e := Entry(r, now, scan, parseTime).value;
      && e.obis == ConvertObis(r.obis)
      && e.value == ParseValue(r.value, e.obis, scan).value
      && e.unit == DetermineUnit(e.obis)
      && e.timestamp == CaptureTime(r.captureTime, now, parseTime)
  {
    if ConvertObis(r.obis) != "" && scan(r.value).Some? {
      EntryWhenUsable(r, now, scan, parseTime);
    } else {
      EntryWhenUnusable(r, now, scan, parseTime);
    }
  }

  lemma EntryWhenUsable(r: RawReading, now: Instant, scan: string -> Option<real>, parseTime: string -> Option<Instant>)
    requires ConvertObis(r.obis) != "" && scan(r.value).Some?
    ensures var obis := ConvertObis(r.obis);
      Entry(r, now, scan, parseTime)
      == Some(Reading(ParseValue(r.value, obis, scan).value, DetermineUnit(obis), CaptureTime(r.captureTime, now, parseTime), obis, QualityGood))
  {
  }

  lemma EntryWhenUnusable(r: RawReading, now: Instant, scan: string -> Option<real>, parseTime: string -> Option<Instant>)
    requires ConvertObis(r.obis) == "" || scan(r.value).None?
    ensures Entry(r, now, scan, parseTime) == None
  {
  }

  /** The entries of all channels, channel after channel. */
  function Flatten(channels: seq<seq<RawReading>>): seq<RawReading> {
    if channels == [] then [] else channels[0] + Flatten(channels[1..])
  }

  /** One step of getReadings' inner loop: a usable entry is stored under its code, any other is skipped. */
  function AddEntry(m: map<string, Reading>, r: RawReading, now: Instant, scan: string -> Option<real>, parseTime: string -> Option<Instant>): (m': map<string, Reading>)
    ensures WellFormed(m) ==> WellFormed(m')
  {
    var e := Entry(r, now, scan, parseTime);
    if e.None? then m
    else
      InsertKeepsWellFormed(m, e.value);
      m[e.value.obis := e.value]
  }

  /** The entries added one after the other, in order, to the map `m`. */
  function AddEntries(m: map<string, Reading>, es: seq<RawReading>, now: Instant, scan: string -> Option<real>, parseTime: string -> Option<Instant>): (m': map<string, Reading>)
    ensures WellFormed(m) ==> WellFormed(m')
    decreases |es|
  {
    if es == [] then m else AddEntries(AddEntry(m, es[0], now, scan, parseTime), es[1..], now, scan, parseTime)
  }

  /** The map getReadings builds from a run of entries, later entries overwriting earlier ones. */
  function ReadingsOf(entries: seq<RawReading>, now: Instant, scan: string -> Option<real>, parseTime: string -> Option<Instant>): (m: map<string, Reading>)
    ensures WellFormed(m)
  {
    AddEntries(map[], entries, now, scan, parseTime)
  }

  /** Adding a run and then another is adding their concatenation. */
  lemma {:induction false} AddEntriesAppend(m: map<string, Reading>, a: seq<RawReading>, b: seq<RawReading>,
                                            now: Instant, scan: string -> Option<real>, parseTime: string -> Option<Instant>)
    ensures AddEntries(m, a + b, now, scan, parseTime) == AddEntries(AddEntries(m, a, now, scan, parseTime), b, now, scan, parseTime)
    decreases |a|
  {
    if a == [] {
      assert a + b == b;
    } else {
      assert (a + b)[0] == a[0];
      assert (a + b)[1..] == a[1..] + b;
      AddEntriesAppend(AddEntry(m, a[0], now, scan, parseTime), a[1..], b, now, scan, parseTime);
    }
  }

  /** One more entry at the end of the run is one more step on the map built so far. */
  lemma AddEntriesSnoc(m: map<string, Reading>, es: seq<RawReading>, r: RawReading,
                       now: Instant, scan: string -> Option<real>, parseTime: string -> Option<Instant>)
    ensures AddEntries(m, es + [r], now, scan, parseTime) == AddEntry(AddEntries(m, es, now, scan, parseTime), r, now, scan, parseTime)
  {
    AddEntriesAppend(m, es, [r], now, scan, parseTime);
    var m1 := AddEntries(m, es, now, scan, parseTime);
    assert [r][1..] == [];
    assert AddEntries(m1, [r], now, scan, parseTime) == AddEntries(AddEntry(m1, r, now, scan, parseTime), [], now, scan, parseTime);
  }

  /** An entry with an unknown name or an unscannable value leaves the map as it was. */
  lemma SkipsUnusable(entries: seq<RawReading>, r: RawReading, now: Instant, scan: string -> Option<real>, parseTime: string -> Option<Instant>)
    requires ConvertObis(r.obis) == "" || scan(r.value).None?
    ensures ReadingsOf(entries + [r], now, scan, parseTime) == ReadingsOf(entries, now, scan, parseTime)
  {
    EntryUsable(r, now, scan, parseTime);
    ReadingsOfSnoc(entries, r, now, scan, parseTime);
  }

  /** Entries none of which is usable leave any map as it was. */
  lemma {:induction false} AddUnusable(m: map<string, Reading>, es: seq<RawReading>, now: Instant, scan: string -> Option<real>, parseTime: string -> Option<Instant>)
    requires forall i :: 0 <= i < |es| ==> Entry(es[i], now, scan, parseTime).None?
    ensures AddEntries(m, es, now, scan, parseTime) == m
    decreases |es|
  {
    if es != [] {
      var rest := es[1..];
      assert forall i :: 0 <= i < |rest| ==> rest[i] == es[i + 1];
      AddUnusable(m, rest, now, scan, parseTime);
    }
  }

  /** Without a usable entry the map is empty, and getReadings still succeeds with it. */
  lemma NoUsableEntries(entries: seq<RawReading>, now: Instant, scan: string -> Option<real>, parseTime: string -> Option<Instant>)
    requires forall i :: 0 <= i < |entries| ==> Entry(entries[i], now, scan, parseTime).None?
    ensures ReadingsOf(entries, now, scan, parseTime) == map[]
  {
    AddUnusable(map[], entries, now, scan, parseTime);
  }

  /** A usable entry is stored under its code, replacing whatever was there. */
  lemma LaterEntryOverwrites(entries: seq<RawReading>, r: RawReading, now: Instant, scan: string -> Option<real>, parseTime: string -> Option<Instant>)
    requires ConvertObis(r.obis) != "" && scan(r.value).Some?
    ensures var m := ReadingsOf(entries + [r], now, scan, parseTime);
      ConvertObis(r.obis) in m && m[ConvertObis(r.obis)] == Entry(r, now, scan, parseTime).value
      && forall k :: k in m && k != ConvertObis(r.obis) ==> k in ReadingsOf(entries, now, scan, parseTime)
  {
    EntryUsable(r, now, scan, parseTime);
    ReadingsOfSnoc(entries, r, now, scan, parseTime);
  }

  /** The entry is usable and its reading goes under the code `k`. */
  predicate UsableFor(r: RawReading, k: string, now: Instant, scan: string -> Option<real>, parseTime: string -> Option<Instant>) {
    Entry(r, now, scan, parseTime).Some? && Entry(r, now, scan, parseTime).value.obis == k
  }

  /** Some entry of `es` is usable for `k`. */
  predicate UsableIn(es: seq<RawReading>, k: string, now: Instant, scan: string -> Option<real>, parseTime: string -> Option<Instant>) {
    exists i :: 0 <= i < |es| && UsableFor(es[i], k, now, scan, parseTime)
  }

  lemma UsableInCons(es: seq<RawReading>, k: string, now: Instant, scan: string -> Option<real>, parseTime: string -> Option<Instant>)
    requires es != []
    ensures UsableIn(es, k, now, scan, parseTime) <==> UsableFor(es[0], k, now, scan, parseTime) || UsableIn(es[1..], k, now, scan, parseTime)
  {
    var rest := es[1..];
    if UsableIn(rest, k, now, scan, parseTime) {
      var i :| 0 <= i < |rest| && UsableFor(rest[i], k, now, scan, parseTime);
      assert es[i + 1] == rest[i];
    }
    if UsableIn(es, k, now, scan, parseTime) {
      var i :| 0 <= i < |es| && UsableFor(es[i], k, now, scan, parseTime);
      if i > 0 {
        assert rest[i - 1] == es[i];
      }
    }
  }

  /** What one step does to the code `k`. */
  lemma AddEntryStep(m: map<string, Reading>, r: RawReading, k: string,
                     now: Instant, scan: string -> Option<real>, parseTime: string -> Option<Instant>)
    ensures k in AddEntry(m, r, now, scan, parseTime) <==> k in m || UsableFor(r, k, now, scan, parseTime)
    ensures UsableFor(r, k, now, scan, parseTime) ==> AddEntry(m, r, now, scan, parseTime)[k] == Entry(r, now, scan, parseTime).value
    ensures !UsableFor(r, k, now, scan, parseTime) && k in m ==> AddEntry(m, r, now, scan, parseTime)[k] == m[k]
  {
  }

  /** Entries none of which is usable for `k` leave the reading under `k` as it was. */
  lemma {:induction false} AddEntriesKeepsKey(m: map<string, Reading>, es: seq<RawReading>, k: string,
                                              now: Instant, scan: string -> Option<real>, parseTime: string -> Option<Instant>)
    requires k in m
    requires forall i :: 0 <= i < |es| ==> !UsableFor(es[i], k, now, scan, parseTime)
    ensures k in AddEntries(m, es, now, scan, parseTime) && AddEntries(m, es, now, scan, parseTime)[k] == m[k]
    decreases |es|
  {
    if es != [] {
      AddEntryStep(m, es[0], k, now, scan, parseTime);
      var rest := es[1..];
      assert forall i :: 0 <= i < |rest| ==> rest[i] == es[i + 1];
      AddEntriesKeepsKey(AddEntry(m, es[0], now, scan, parseTime), rest, k, now, scan, parseTime);
    }
  }

  /** After adding entries, a code is present iff it was before or some entry is usable for it. */
  lemma {:induction false} AddEntriesKeys(m: map<string, Reading>, es: seq<RawReading>, k: string,
                                          now: Instant, scan: string -> Option<real>, parseTime: string -> Option<Instant>)
    ensures k in AddEntries(m, es, now, scan, parseTime) <==> k in m || UsableIn(es, k, now, scan, parseTime)
    decreases |es|
  {
    if es != [] {
      AddEntryStep(m, es[0], k, now, scan, parseTime);
      UsableInCons(es, k, now, scan, parseTime);
      AddEntriesKeys(AddEntry(m, es[0], now, scan, parseTime), es[1..], k, now, scan, parseTime);
    }
  }

  /** A code is in getReadings' map iff some entry of the run is usable for it. */
  lemma ReadingsOfKeys(entries: seq<RawReading>, k: string, now: Instant, scan: string -> Option<real>, parseTime: string -> Option<Instant>)
    ensures k in ReadingsOf(entries, now, scan, parseTime)
            <==> exists i :: 0 <= i < |entries| && UsableFor(entries[i], k, now, scan, parseTime)
  {
    AddEntriesKeys(map[], entries, k, now, scan, parseTime);
  }

  /** A sequence is the part before position `i`, the element there, and the part after. */
  lemma SplitAt<T>(s: seq<T>, i: int)
    requires 0 <= i < |s|
    ensures s == (s[..i] + [s[i]]) + s[i + 1..]
  {
  }

  /** An entry usable for `k` at the end of a run puts its reading under `k`. */
  lemma SnocStores(m: map<string, Reading>, init: seq<RawReading>, r: RawReading, k: string,
                   now: Instant, scan: string -> Option<real>, parseTime: string -> Option<Instant>)
    requires UsableFor(r, k, now, scan, parseTime)
    ensures var m' := AddEntries(m, init + [r], now, scan, parseTime);
      k in m' && m'[k] == Entry(r, now, scan, parseTime).value
  {
    AddEntriesSnoc(m, init, r, now, scan, parseTime);
    AddEntryStep(AddEntries(m, init, now, scan, parseTime), r, k, now, scan, parseTime);
  }

  /**
   * The reading under a code is the one of the last entry usable for it,
   * whatever entries for other codes follow.
   */
  lemma LastUsableWins(entries: seq<RawReading>, i: int, k: string, now: Instant, scan: string -> Option<real>, parseTime: string -> Option<Instant>)
    requires 0 <= i < |entries| && UsableFor(entries[i], k, now, scan, parseTime)
    requires forall j :: i < j < |entries| ==> !UsableFor(entries[j], k, now, scan, parseTime)
    ensures k in ReadingsOf(entries, now, scan, parseTime)
    ensures ReadingsOf(entries, now, scan, parseTime)[k] == Entry(entries[i], now, scan, parseTime).value
  {
    SplitAt(entries, i);
    NoneUsableAfter(entries, i, entries[i + 1..], k, now, scan, parseTime);
    UsableThenNone(map[], entries[..i], entries[i], entries[i + 1..], k, now, scan, parseTime);
  }

  /** An entry usable for `k`, then entries none of which is: the map holds that entry's reading under `k`. */
  lemma UsableThenNone(m: map<string, Reading>, init: seq<RawReading>, r: RawReading, rest: seq<RawReading>, k: string,
                       now: Instant, scan: string -> Option<real>, parseTime: string -> Option<Instant>)
    requires UsableFor(r, k, now, scan, parseTime)
    requires forall j :: 0 <= j < |rest| ==> !UsableFor(rest[j], k, now, scan, parseTime)
    ensures var m' := AddEntries(m, (init + [r]) + rest, now, scan, parseTime);
      k in m' && m'[k] == Entry(r, now, scan, parseTime).value
  {
    AddEntriesAppend(m, init + [r], rest, now, scan, parseTime);
    SnocStores(m, init, r, k, now, scan, parseTime);
    AddEntriesKeepsKey(AddEntries(m, init + [r], now, scan, parseTime), rest, k, now, scan, parseTime);
  }

  /** No entry after position `i` is usable for `k`: the same said of the tail after `i`. */
  lemma NoneUsableAfter(entries: seq<RawReading>, i: int, rest: seq<RawReading>, k: string,
                        now: Instant, scan: string -> Option<real>, parseTime: string -> Option<Instant>)
    requires 0 <= i < |entries| && rest == entries[i + 1..]
    requires forall j :: i < j < |entries| ==> !UsableFor(entries[j], k, now, scan, parseTime)
    ensures forall j :: 0 <= j < |rest| ==> !UsableFor(rest[j], k, now, scan, parseTime)
  {
    forall j | 0 <= j < |rest| ensures !UsableFor(rest[j], k, now, scan, parseTime) {
      assert rest[j] == entries[i + 1 + j];
    }
  }

  /** The body of getReadings' inner loop: skip an unknown name or an unscannable value, else build the reading. */
  method ConvertEntry(r: RawReading, now: Instant, scan: string -> Option<real>, parseTime: string -> Option<Instant>)
    returns (e: Option<Reading>)
    ensures e == Entry(r, now, scan, parseTime)
  {
    var obis := ConvertObis(r.obis);
    if obis == "" {
      return None;
    }
    var value := ParseValue(r.value, obis, scan);
    if value.None? {
      return None;
    }
    var ts := now;
    if r.captureTime != "" {
      var parsed := parseTime(r.captureTime);
      if parsed.Some? {
        ts := parsed.value;
      }
    }
    var unit := DetermineUnit(obis);
    return Some(Reading(value.value, unit, ts, obis, QualityGood));
  }

  /** One more entry: stored under its code when usable, ignored otherwise. */
  lemma ReadingsOfSnoc(entries: seq<RawReading>, r: RawReading, now: Instant, scan: string -> Option<real>, parseTime: string -> Option<Instant>)
    ensures var e := Entry(r, now, scan, parseTime);
      ReadingsOf(entries + [r], now, scan, parseTime)
        == if e.Some? then ReadingsOf(entries, now, scan, parseTime)[e.value.obis := e.value] else ReadingsOf(entries, now, scan, parseTime)
  {
    AddEntriesSnoc(map[], entries, r, now, scan, parseTime);
  }

  /** getReadings' inner loop: the entries of one channel, in order, added to the map so far. */
  method CollectChannel(readings0: map<string, Reading>, ch: seq<RawReading>,
                        now: Instant, scan: string -> Option<real>, parseTime: string -> Option<Instant>)
    returns (readings: map<string, Reading>)
    ensures readings == AddEntries(readings0, ch, now, scan, parseTime)
  {
    readings := readings0;
    var j := 0;
    while j < |ch|
      invariant 0 <= j <= |ch|
      invariant AddEntries(readings, ch[j..], now, scan, parseTime) == AddEntries(readings0, ch, now, scan, parseTime)
    {
      assert ch[j..][0] == ch[j] && ch[j..][1..] == ch[j + 1..];
      var entry := ConvertEntry(ch[j], now, scan, parseTime);
      if entry.Some? {
        readings := readings[entry.value.obis := entry.value];
      }
      j := j + 1;
    }
  }

  /** getReadings' walk over the channels and their entries, in order. */
  method CollectReadings(channels: seq<seq<RawReading>>, now: Instant, scan: string -> Option<real>, parseTime: string -> Option<Instant>)
    returns (readings: map<string, Reading>)
    ensures readings == ReadingsOf(Flatten(channels), now, scan, parseTime)
  {
    readings := map[];
    var i := 0;
    while i < |channels|
      invariant 0 <= i <= |channels|
      invariant AddEntries(readings, Flatten(channels[i..]), now, scan, parseTime) == ReadingsOf(Flatten(channels), now, scan, parseTime)
    {
      assert channels[i..][0] == channels[i] && channels[i..][1..] == channels[i + 1..];
      AddEntriesAppend(readings, channels[i], Flatten(channels[i + 1..]), now, scan, parseTime);
      readings := CollectChannel(readings, channels[i], now, scan, parseTime);
      i := i + 1;
    }
  }

  /**
   * getReadings: a failed request passes its error through; otherwise the
   * collected map, which may be empty.
   */
  method GetReadingsFor(fetched: Result<seq<seq<RawReading>>, Error>, now: Instant, scan: string -> Option<real>, parseTime: string -> Option<Instant>)
    returns (r: Result<map<string, Reading>, Error>)
    ensures fetched.Failure? ==> r == Failure(fetched.error)
    ensures fetched.Success? ==> r.Success? && r.value == ReadingsOf(Flatten(fetched.value), now, scan, parseTime)
    ensures r.Success? ==> WellFormed(r.value)
  {
    if fetched.Failure? {
      return Failure(fetched.error);
    }
    var readings := CollectReadings(fetched.value, now, scan, parseTime);
    return Success(readings);
  }

  // ---------------------------------------------------------------------------
  // The client and its cached usage-point id
  // ---------------------------------------------------------------------------

  class Client {
    var baseURL: string
    var username: string
    var password: string
    /** The usage-point id; empty until discovered or set. */
    var meterID: string

    constructor(baseURL: string, username: string, password: string)
      ensures this.baseURL == baseURL && this.username == username && this.password == password
      ensures meterID == ""
    {
      this.baseURL := baseURL;
      this.username := username;
      this.password := password;
      meterID := "";
    }

    /**
     * GetReadings: the gateway information is requested first; the usage
     * point is looked up only when no id is cached, and cached; the readings
     * request does not depend on the id.
     */
    method GetReadings(smgwInfo: Result<SmgwInfo, Error>, userInfo: Result<seq<UsagePoint>, Error>,
                       fetched: Result<seq<seq<RawReading>>, Error>, now: Instant,
                       scan: string -> Option<real>, parseTime: string -> Option<Instant>)
      returns (r: Result<Information, Error>)
      modifies this`meterID
      ensures smgwInfo.Failure? ==> r == Failure(Wrap("failed to get SMGW info", smgwInfo.error)) && meterID == old(meterID)
      ensures old(meterID) != "" ==> meterID == old(meterID)
      ensures smgwInfo.Success? && old(meterID) == "" && UsagePointChoice(userInfo).Failure? ==>
                r == Failure(Wrap("failed to get usage point", UsagePointChoice(userInfo).error)) && meterID == old(meterID)
      ensures smgwInfo.Success? && old(meterID) == "" && UsagePointChoice(userInfo).Success? ==>
                meterID == UsagePointChoice(userInfo).value
      ensures smgwInfo.Success? && (old(meterID) != "" || UsagePointChoice(userInfo).Success?) && fetched.Failure? ==>
                r == Failure(Wrap("failed to get readings", fetched.error))
      ensures r.Success? ==> && smgwInfo.Success? && fetched.Success?
                             && r.value == Information(meterID, smgwInfo.value.model, smgwInfo.value.manufacturer,
                                                       smgwInfo.value.firmwareVersion, now,
                                                       ReadingsOf(Flatten(fetched.value), now, scan, parseTime))
      ensures smgwInfo.Success? && (old(meterID) != "" || UsagePointChoice(userInfo).Success?) && fetched.Success? ==> r.Success?
    {
      if smgwInfo.Failure? {
        return Failure(Wrap("failed to get SMGW info", smgwInfo.error));
      }
      if meterID == "" {
        var id := GetUsagePointID(userInfo);
        if id.Failure? {
          return Failure(Wrap("failed to get usage point", id.error));
        }
        meterID := id.value;
      }
      var readings := GetReadingsFor(fetched, now, scan, parseTime);
      if readings.Failure? {
        return Failure(Wrap("failed to get readings", readings.error));
      }
      var info := smgwInfo.value;
      return Success(Information(meterID, info.model, info.manufacturer, info.firmwareVersion, now, readings.value));
    }

    /** DiscoverMeterID: always asks the gateway, and caches the id it chose. */
    method DiscoverMeterID(userInfo: Result<seq<UsagePoint>, Error>) returns (r: Result<string, Error>)
      modifies this`meterID
      ensures r == UsagePointChoice(userInfo)
      ensures r.Success? ==> meterID == r.value
      ensures r.Failure? ==> meterID == old(meterID)
    {
      r := GetUsagePointID(userInfo);
      if r.Success? {
        meterID := r.value;
      }
    }

    /** MeterID: the cached id, discovering it when empty and ignoring discovery's error. */
    method MeterID(userInfo: Result<seq<UsagePoint>, Error>) returns (id: string)
      modifies this`meterID
      ensures id == meterID
      ensures old(meterID) != "" ==> id == old(meterID)
      ensures old(meterID) == "" && UsagePointChoice(userInfo).Success? ==> id == UsagePointChoice(userInfo).value
      ensures old(meterID) == "" && UsagePointChoice(userInfo).Failure? ==> id == ""
    {
      if meterID == "" {
        var _ := DiscoverMeterID(userInfo);
      }
      return meterID;
    }

    method SetMeterID(id: string)
      modifies this`meterID
      ensures meterID == id
    {
      meterID := id;
    }
  }

  /** NewClient: the configuration checks, then a client with no usage point yet. */
  method NewClient(baseURL: string, username: string, password: string) returns (r: Result<Client, Error>)
    ensures ValidateConfig(baseURL, username, password).Failure? ==> r == Failure(ValidateConfig(baseURL, username, password).error)
    ensures ValidateConfig(baseURL, username, password).Success? ==> r.Success?
    ensures r.Success? ==> fresh(r.value) && r.value.baseURL == ValidateConfig(baseURL, username, password).value
                           && r.value.meterID == ""
  {
    var url := ValidateConfig(baseURL, username, password);
    if url.Failure? {
      return Failure(url.error);
    }
    var c := new Client(url.value, username, password);
    return Success(c);
  }
}
