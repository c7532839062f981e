/**
 * The EMH CASA logical-name converter (emhcasa/obis.go, repeated verbatim in
 * client.go).  A logical name is twelve hex characters AABBCCDDEEFF, possibly
 * followed by ".suffix"; the OBIS code is "C.D.E" with the bytes CC, DD and EE
 * written in decimal.
 */
module EmhObis {

  import opened Wrappers
  import opened Text
  import opened Smgw

  /** The error strconv.ParseInt reports for a pair it cannot read. */
  function ParseIntError(pair: string): Error {
    Fail("strconv.ParseInt: parsing \"" + pair + "\": invalid syntax")
  }

  /** fmt.Sprintf("%d.%d.%d", c, d, e) */
  function ObisText(c: int, d: int, e: int): string {
    IntToDecimal(c) + "." + IntToDecimal(d) + "." + IntToDecimal(e)
  }

  /** The hex part of a logical name: everything before the first dot. */
  function HexPart(logicalName: string): string {
    BeforeFirst(logicalName, '.')
  }

  /** convertToOBIS */
  function ConvertToObis(logicalName: string): (r: Result<string, Error>)
    ensures r.Success? ==> |HexPart(logicalName)| == 12
  {
    var hex := HexPart(logicalName);
    if |hex| != 12 then Failure(Fail("unexpected logical name: " + logicalName))
    else ConvertHex(hex)
  }

  /** The three ParseInt calls on the pairs at 4, 6 and 8, the first failure winning. */
  function ConvertHex(hex: string): Result<string, Error>
    requires |hex| == 12
  {
    match ParseHexPair(hex[4..6])
    case None => Failure(ParseIntError(hex[4..6]))
    case Some(c) =>
      match ParseHexPair(hex[6..8])
      case None => Failure(ParseIntError(hex[6..8]))
      case Some(d) =>
        match ParseHexPair(hex[8..10])
        case None => Failure(ParseIntError(hex[8..10]))
        case Some(e) => Success(ObisText(c, d, e))
  }

  // ---------------------------------------------------------------------------
  // What the converter looks at
  // ---------------------------------------------------------------------------

  /** A hex part of any length other than twelve is rejected, e.g. "010010". */
  lemma WrongLengthRejected(logicalName: string)
    requires |HexPart(logicalName)| != 12
    ensures ConvertToObis(logicalName) == Failure(Fail("unexpected logical name: " + logicalName))
  {
  }

  /** Any of the three pairs that strconv.ParseInt rejects makes the conversion fail. */
  lemma BadPairRejected(logicalName: string, at: nat)
    requires |HexPart(logicalName)| == 12
    requires at == 4 || at == 6 || at == 8
    requires ParseHexPair(HexPart(logicalName)[at..at + 2]).None?
    ensures ConvertToObis(logicalName).Failure?
  {
  }

  /** The conversion succeeds exactly when the hex part has twelve characters and all three pairs parse. */
  lemma ConvertSucceedsIff(logicalName: string)
    ensures var hex := HexPart(logicalName);
      ConvertToObis(logicalName).Success? <==>
        |hex| == 12 && ParseHexPair(hex[4..6]).Some? && ParseHexPair(hex[6..8]).Some?
        && ParseHexPair(hex[8..10]).Some?
  {
  }

  /** Characters 0-3 and 10-11 of the hex part never matter, and neither does a suffix. */
  lemma OnlyMiddleBytesMatter(n1: string, n2: string)
    requires |HexPart(n1)| == 12 && |HexPart(n2)| == 12
    requires HexPart(n1)[4..10] == HexPart(n2)[4..10]
    ensures ConvertToObis(n1) == ConvertToObis(n2)
  {
    var h1, h2 := HexPart(n1), HexPart(n2);
    MiddlePairs(h1);
    MiddlePairs(h2);
    assert ConvertToObis(n1) == ConvertHex(h1);
    assert ConvertToObis(n2) == ConvertHex(h2);
  }

  /** The three pairs ConvertHex reads all lie in characters 4-9. */
  lemma MiddlePairs(h: string)
    requires |h| == 12
    ensures h[4..6] == h[4..10][0..2] && h[6..8] == h[4..10][2..4] && h[8..10] == h[4..10][4..6]
  {
  }

  /** A ".suffix" is discarded: "0100100700FF.1" converts like "0100100700FF". */
  lemma SuffixIgnored(s: string, t: string)
    requires '.' !in s
    ensures ConvertToObis(s + "." + t).ToOption() == ConvertToObis(s).ToOption()
    ensures |s| == 12 ==> ConvertToObis(s + "." + t) == ConvertToObis(s)
  {
    BeforeFirstOfJoin(s, '.', t);
    BeforeFirstNoSep(s, '.');
  }

  /** Hex digits are read in either case: lower-casing a name changes no successful result. */
  lemma CaseInsensitive(logicalName: string)
    ensures ConvertToObis(ToLower(logicalName)).ToOption() == ConvertToObis(logicalName).ToOption()
  {
    var hex := HexPart(logicalName);
    LowerHexPart(logicalName);
    if |hex| == 12 {
      HexCaseInsensitive(hex);
    }
  }

  lemma HexCaseInsensitive(hex: string)
    requires |hex| == 12
    ensures ConvertHex(ToLower(hex)).ToOption() == ConvertHex(hex).ToOption()
  {
    var lhex := ToLower(hex);
    PairCaseInsensitive(hex[4..6]);
    PairCaseInsensitive(hex[6..8]);
    PairCaseInsensitive(hex[8..10]);
    assert lhex[4..6] == ToLower(hex[4..6]);
    assert lhex[6..8] == ToLower(hex[6..8]);
    assert lhex[8..10] == ToLower(hex[8..10]);
  }

  lemma {:induction false} LowerHexPart(s: string)
    ensures HexPart(ToLower(s)) == ToLower(HexPart(s))
  {
    if s != [] {
      assert ToLower(s)[1..] == ToLower(s[1..]);
      LowerHexPart(s[1..]);
    }
  }

  lemma PairCaseInsensitive(p: string)
    requires |p| == 2
    ensures ParseHexPair(ToLower(p)) == ParseHexPair(p)
  {
  }

  // ---------------------------------------------------------------------------
  // What the converter produces
  // ---------------------------------------------------------------------------

  /** The byte written by the two hex digits at `at`. */
  function ByteAt(hex: string, at: nat): (b: nat)
    requires at + 2 <= |hex| && IsHexDigit(hex[at]) && IsHexDigit(hex[at + 1])
    ensures b < 256
  {
    16 * HexValue(hex[at]) + HexValue(hex[at + 1])
  }

  /**
   * When the three pairs are hex digits the result is "C.D.E" with each byte
   * in decimal, no leading zeros, each in 0..255, and the text is a valid
   * OBIS code that splits back into the three numbers.
   */
  lemma HexDigitsGiveValidObis(logicalName: string)
    requires |HexPart(logicalName)| == 12
    requires forall i :: 4 <= i < 10 ==> IsHexDigit(HexPart(logicalName)[i])
    ensures var hex := HexPart(logicalName);
      var c, d, e := ByteAt(hex, 4), ByteAt(hex, 6), ByteAt(hex, 8);
      && ConvertToObis(logicalName) == Success(ObisText(c, d, e))
      && IsValidObis(ObisText(c, d, e))
      && Split(ObisText(c, d, e), '.') == [NatToDecimal(c), NatToDecimal(d), NatToDecimal(e)]
  {
    var hex := HexPart(logicalName);
    var c, d, e := ByteAt(hex, 4), ByteAt(hex, 6), ByteAt(hex, 8);
    HexDigitsConvert(hex);
    assert ConvertToObis(logicalName) == ConvertHex(hex);
    assert ObisText(c, d, e) == NatToDecimal(c) + "." + NatToDecimal(d) + "." + NatToDecimal(e);
    ObisTextValid(NatToDecimal(c), NatToDecimal(d), NatToDecimal(e));
  }

  /** The three ParseInt calls succeed on hex digits, giving the bytes they write. */
  lemma HexDigitsConvert(hex: string)
    requires |hex| == 12
    requires forall i :: 4 <= i < 10 ==> IsHexDigit(hex[i])
    ensures ConvertHex(hex) == Success(ObisText(ByteAt(hex, 4), ByteAt(hex, 6), ByteAt(hex, 8)))
  {
    PairAt(hex, 4);
    PairAt(hex, 6);
    PairAt(hex, 8);
  }

  /** The pair of hex digits at `at` parses to the byte they write. */
  lemma PairAt(hex: string, at: nat)
    requires at + 2 <= |hex| && IsHexDigit(hex[at]) && IsHexDigit(hex[at + 1])
    ensures ParseHexPair(hex[at..at + 2]) == Some(ByteAt(hex, at))
  {
    ParseHexPairDigits(hex[at..at + 2]);
  }

  /** The logical name a gateway writes for the six bytes A..F, in upper-case hex. */
  function LogicalName(a: nat, b: nat, c: nat, d: nat, e: nat, f: nat): (name: string)
    requires a < 256 && b < 256 && c < 256 && d < 256 && e < 256 && f < 256
    ensures |name| == 12 && '.' !in name
    ensures name[4..6] == HexByte(c) && name[6..8] == HexByte(d) && name[8..10] == HexByte(e)
  {
    HexByte(a) + HexByte(b) + HexByte(c) + HexByte(d) + HexByte(e) + HexByte(f)
  }

  /** The decimal fields of "C.D.E" for three bytes read back as C, D and E. */
  lemma ObisTextOfBytes(c: nat, d: nat, e: nat)
    requires c < 256 && d < 256 && e < 256
    ensures IsValidObis(ObisText(c, d, e))
    ensures |Split(ObisText(c, d, e), '.')| == 3
    ensures DecimalValue(Split(ObisText(c, d, e), '.')[0]) == c
    ensures DecimalValue(Split(ObisText(c, d, e), '.')[1]) == d
    ensures DecimalValue(Split(ObisText(c, d, e), '.')[2]) == e
  {
    var sc, sd, se := NatToDecimal(c), NatToDecimal(d), NatToDecimal(e);
    assert ObisText(c, d, e) == sc + "." + sd + "." + se;
    ObisTextValid(sc, sd, se);
    var parts := Split(ObisText(c, d, e), '.');
    assert parts == [sc, sd, se];
    DecimalRoundTrip(c);
    DecimalRoundTrip(d);
    DecimalRoundTrip(e);
    assert parts[0] == sc && parts[1] == sd && parts[2] == se;
  }

  /**
   * Round trip: converting the logical name of bytes A..F gives "C.D.E", a
   * valid OBIS code whose three decimal fields read back as C, D and E.
   */
  lemma RoundTrip(a: nat, b: nat, c: nat, d: nat, e: nat, f: nat)
    requires a < 256 && b < 256 && c < 256 && d < 256 && e < 256 && f < 256
    ensures ConvertToObis(LogicalName(a, b, c, d, e, f)) == Success(ObisText(c, d, e))
    ensures IsValidObis(ObisText(c, d, e))
    ensures |Split(ObisText(c, d, e), '.')| == 3
    ensures DecimalValue(Split(ObisText(c, d, e), '.')[0]) == c
    ensures DecimalValue(Split(ObisText(c, d, e), '.')[1]) == d
    ensures DecimalValue(Split(ObisText(c, d, e), '.')[2]) == e
  {
    var name := LogicalName(a, b, c, d, e, f);
    BeforeFirstNoSep(name, '.');
    HexByteRoundTrip(c);
    HexByteRoundTrip(d);
    HexByteRoundTrip(e);
    ObisTextOfBytes(c, d, e);
  }

  // ---------------------------------------------------------------------------
  // Worked examples
  // ---------------------------------------------------------------------------

  /** A dot-free twelve-character name whose middle pairs are hex digits converts to their bytes. */
  lemma ConvertPlainName(name: string, c: nat, d: nat, e: nat)
    requires |name| == 12 && '.' !in name
    requires forall i :: 4 <= i < 10 ==> IsHexDigit(name[i])
    requires ByteAt(name, 4) == c && ByteAt(name, 6) == d && ByteAt(name, 8) == e
    ensures ConvertToObis(name) == Success(ObisText(c, d, e))
  {
    BeforeFirstNoSep(name, '.');
    HexDigitsGiveValidObis(name);
  }

  /** The decimal texts of the examples' byte triples. */
  lemma ExampleTexts()
    ensures ObisText(16, 7, 0) == "16.7.0" && ObisText(1, 8, 0) == "1.8.0"
    ensures ObisText(31, 7, 0) == "31.7.0" && ObisText(32, 7, 0) == "32.7.0"
    ensures ObisText(2, 8, 0) == "2.8.0" && ObisText(1, 27, 6) == "1.27.6"
    ensures ObisText(-1, 7, 0) == "-1.7.0" && ObisText(15, 7, 0) == "15.7.0"
  {
    TwoDigits(16);
    TwoDigits(31);
    TwoDigits(32);
    TwoDigits(27);
    TwoDigits(15);
  }

  /** A number from 10 to 99 is written as its tens digit, then its units digit. */
  lemma TwoDigits(n: nat)
    requires 10 <= n < 100
    ensures NatToDecimal(n) == [DigitChar(n / 10), DigitChar(n % 10)]
  {
  }

  lemma Example16()
    ensures ConvertToObis("0100100700FF") == Success(ObisText(16, 7, 0))
  {
    var n := "0100100700FF";
    assert '.' !in n && forall i :: 4 <= i < 10 ==> IsHexDigit(n[i]);
    assert ByteAt(n, 4) == 16 && ByteAt(n, 6) == 7 && ByteAt(n, 8) == 0;
    ConvertPlainName(n, 16, 7, 0);
  }

  lemma Example1()
    ensures ConvertToObis("0100010800FF") == Success(ObisText(1, 8, 0))
  {
    var n := "0100010800FF";
    assert '.' !in n && forall i :: 4 <= i < 10 ==> IsHexDigit(n[i]);
    assert ByteAt(n, 4) == 1 && ByteAt(n, 6) == 8 && ByteAt(n, 8) == 0;
    ConvertPlainName(n, 1, 8, 0);
  }

  lemma Example31()
    ensures ConvertToObis("01001F0700FF") == Success(ObisText(31, 7, 0))
  {
    var n := "01001F0700FF";
    assert '.' !in n && forall i :: 4 <= i < 10 ==> IsHexDigit(n[i]);
    assert ByteAt(n, 4) == 31 && ByteAt(n, 6) == 7 && ByteAt(n, 8) == 0;
    ConvertPlainName(n, 31, 7, 0);
  }

  lemma Example32()
    ensures ConvertToObis("0100200700FF") == Success(ObisText(32, 7, 0))
  {
    var n := "0100200700FF";
    assert '.' !in n && forall i :: 4 <= i < 10 ==> IsHexDigit(n[i]);
    assert ByteAt(n, 4) == 32 && ByteAt(n, 6) == 7 && ByteAt(n, 8) == 0;
    ConvertPlainName(n, 32, 7, 0);
  }

  lemma Example2()
    ensures ConvertToObis("0100020800FF") == Success(ObisText(2, 8, 0))
  {
    var n := "0100020800FF";
    assert '.' !in n && forall i :: 4 <= i < 10 ==> IsHexDigit(n[i]);
    assert ByteAt(n, 4) == 2 && ByteAt(n, 6) == 8 && ByteAt(n, 8) == 0;
    ConvertPlainName(n, 2, 8, 0);
  }

  lemma ExampleDoc()
    ensures ConvertToObis("0600011B0600") == Success(ObisText(1, 27, 6))
  {
    var n := "0600011B0600";
    assert '.' !in n && forall i :: 4 <= i < 10 ==> IsHexDigit(n[i]);
    assert ByteAt(n, 4) == 1 && ByteAt(n, 6) == 27 && ByteAt(n, 8) == 6;
    ConvertPlainName(n, 1, 27, 6);
  }

  lemma ExampleShort()
    ensures ConvertToObis("010010").Failure?
  {
    var n := "010010";
    assert '.' !in n;
    BeforeFirstNoSep(n, '.');
    WrongLengthRejected(n);
  }

  lemma ExampleBadPairName()
    ensures HexPart("0100ZZZZ00FF") == "0100ZZZZ00FF"
  {
    var n := "0100ZZZZ00FF";
    assert '.' !in n;
    BeforeFirstNoSep(n, '.');
  }

  lemma ExampleBadPairSlice()
    ensures "0100ZZZZ00FF"[4..6] == "ZZ" && ParseHexPair("ZZ").None?
  {
  }

  lemma ExampleBadPair()
    ensures ConvertToObis("0100ZZZZ00FF").Failure?
  {
    ExampleBadPairName();
    ExampleBadPairSlice();
    BadPairRejected("0100ZZZZ00FF", 4);
  }

  lemma ExampleSuffix()
    ensures ConvertToObis("0100100700FF.1") == ConvertToObis("0100100700FF")
  {
    assert "0100100700FF" + "." + "1" == "0100100700FF.1";
    assert '.' !in "0100100700FF";
    SuffixIgnored("0100100700FF", "1");
  }

  /** The converter's table of test cases, including a rejected length, a rejected pair and a suffix. */
  lemma TestVectors()
    ensures ConvertToObis("0100100700FF") == Success("16.7.0")
    ensures ConvertToObis("0100010800FF") == Success("1.8.0")
    ensures ConvertToObis("01001F0700FF") == Success("31.7.0")
    ensures ConvertToObis("0100200700FF") == Success("32.7.0")
    ensures ConvertToObis("0100020800FF") == Success("2.8.0")
    ensures ConvertToObis("010010").Failure?
    ensures ConvertToObis("0100ZZZZ00FF").Failure?
    ensures ConvertToObis("0100100700FF.1") == Success("16.7.0")
  {
    ExampleTexts();
    Example16();
    Example1();
    Example31();
    Example32();
    Example2();
    ExampleShort();
    ExampleBadPair();
    ExampleSuffix();
  }

  /** The code's reading of the name in the doc comment: "0600011B0600" is "1.27.6". */
  lemma DocCommentExample()
    ensures ConvertToObis("0600011B0600") == Success("1.27.6")
  {
    ExampleTexts();
    ExampleDoc();
  }

  lemma ExampleMinusName()
    ensures HexPart("0100-10700FF") == "0100-10700FF"
  {
    var n := "0100-10700FF";
    assert '.' !in n;
    BeforeFirstNoSep(n, '.');
  }

  lemma ExamplePlusName()
    ensures HexPart("0100+F0700FF") == "0100+F0700FF"
  {
    var n := "0100+F0700FF";
    assert '.' !in n;
    BeforeFirstNoSep(n, '.');
  }

  lemma ExampleSignedSlices()
    ensures "0100-10700FF"[4..6] == "-1" && "0100-10700FF"[6..8] == "07" && "0100-10700FF"[8..10] == "00"
    ensures "0100+F0700FF"[4..6] == "+F" && "0100+F0700FF"[6..8] == "07" && "0100+F0700FF"[8..10] == "00"
  {
  }

  lemma ExampleSignedPairs()
    ensures ParseHexPair("-1") == Some(-1) && ParseHexPair("+F") == Some(15)
    ensures ParseHexPair("07") == Some(7) && ParseHexPair("00") == Some(0)
  {
  }

  /**
   * strconv.ParseInt accepts a sign, so a pair such as "-1" is read as -1 and
   * the result is not a valid OBIS code.
   */
  lemma SignedPairAccepted()
    ensures ConvertToObis("0100-10700FF") == Success("-1.7.0")
    ensures ConvertToObis("0100+F0700FF") == Success("15.7.0")
    ensures !IsValidObis("-1.7.0")
  {
    ExampleTexts();
    ExampleMinusName();
    ExamplePlusName();
    ExampleSignedSlices();
    ExampleSignedPairs();
    assert !IsDigit("-1.7.0"[0]);
  }
}
