# Smart-meter gateway readers, modelled in Dafny

`emh-casa-go` reads German smart-meter gateways (SMGW) of three vendors and
reports the values as readings keyed by OBIS code (IEC 62056-6-1). Units follow
the DLMS/COSEM unit enumeration. The clients are:

- the EMH CASA 1.1 client (`emhcasa/`), a JSON API;
- the Theben Conexa client (`theben/`), a JSON-RPC API with a fixed table of hex OBIS codes;
- the PPC client (`ppc/`), which scrapes an HTML page;
- the older top-level EMH client (`client.go`).

This project models how each client turns what the gateway returned into
readings. That covers:

- the reading vocabulary;
- the OBIS registry;
- the conversion of EMH logical names;
- the per-vendor unit and scale rules;
- the folds that build the readings map, with their skip and last-write-wins rules;
- the HTML tree searches of the PPC client;
- meter-ID discovery, and the cached meter id each client keeps.

Every network fetch is an input: a `Result` value, or a function of the meter
id when the request depends on it. The library parsers (`strconv.ParseFloat`,
`fmt.Sscanf`, `time.Parse`, `url.Parse`) are function parameters.

Modules:

| module | models |
|---|---|
| `Wrappers` | `Option` and `Result` |
| `Text` | the parts of Go's `strings`/`strconv` the clients use (`Split`, `TrimSpace`, `ToLower`, `ParseInt` base 16, decimal printing) |
| `Smgw` | reading.go: `Unit`, `Quality`, `Reading`, `Information`, errors, and the invariant that every map key is its reading's OBIS code |
| `Obis` | obis/registry.go |
| `EmhObis` | emhcasa/obis.go (client.go's `convertToOBIS` is a verbatim duplicate) |
| `EmhCasa` | emhcasa/client.go |
| `Theben` | theben/client.go |
| `Ppc` | ppc/client.go |
| `Legacy` | client.go |

The clients whose methods update the cached `meterID` are classes:

- `EmhCasa.Client`
- `Theben.Client`
- `Ppc.Client`
- `Legacy.Client`

Each map-building loop of the source is a method. Its `ensures` ties the result
to a specification function, and the lemmas about that function state the
properties.

The model follows the code where code and comments disagree:

- The doc comment at emhcasa/obis.go:12 gives "1.27.0" for `0600011B0600`. The code yields "1.27.6" (`EmhObis.DocCommentExample`).
- Go's `ParseInt` accepts a sign, so `0100-10700FF` converts to "-1.7.0", which is not a valid OBIS text (`EmhObis.SignedPairAccepted`).
- PPC's `determineUnit` splits on "." only. So on a prefixed code such as "1-0:31.7.0" it gives W, where Theben gives A (`Ppc.PrefixedCurrentIsWatt`, `Ppc.PrefixedCurrentIsAmpereForTheben`). On the bare codes the PPC page shows, the two agree with each other and with the registry's descriptions (`Ppc.BareCodeAgreesWithTheben`, `Ppc.RegistryUnitsAgree`).
- The vendors key their maps differently:
  - EMH uses "16.7.0";
  - Theben uses "1-0:16.7.0";
  - PPC uses the scraped cell text.
- Theben returns an empty map without error.
- EMH's `convertReading` keeps an unparsable value as 0 and an unknown unit tag as unit 0.
- PPC stores values unscaled.

## Model

| member | source | states |
|---|---|---|
| Smgw.UnitStringTable | reading.go:53-86 | the unit codes map to "W", "kWh", "A", "V", "Hz"; the mapping is injective on the defined units; exactly the undefined units (zero included) give "?" |
| Smgw.QualityStringTable | reading.go:92-115 | 0, 1, 2 give "good", "stale", "invalid"; injective on the defined qualities; exactly the others give "unknown" |
| Smgw.InsertKeepsWellFormed | reading.go:30-46 | storing a good-quality reading under its own OBIS code keeps every key equal to its reading's OBIS field and every reading good |
| Smgw.ObisTextValid | emhcasa/obis.go:36 | three non-empty digit strings joined by dots form a valid OBIS text that splits back into the three parts |
| Smgw.StoreAllKeys | emhcasa/client.go:121-129 | a loop that stores some items under keys and skips the others ends with a key present iff it was present at the start or some step stored under it |
| Smgw.StoreAllLast | emhcasa/client.go:121-129 | the value under a key is the one stored by the last step that stored under that key |
| Smgw.StoreAllNothing | client.go:139-164 | a loop in which every item is skipped leaves the map as it was |
| Smgw.StoreAllSize | client.go:139-164 | a loop that stores or skips one item per step adds at most one key per item |
| Smgw.StoreAllWellFormed | emhcasa/client.go:121-129 | storing good readings only under their own OBIS codes keeps a well-formed map well formed |
| Text.SplitJoin | theben/client.go:354-360 | splitting a dot/colon join of separator-free parts gives back the parts (the model of `strings.Split`) |
| Text.JoinSplit | theben/client.go:354-360 | joining the parts of a split gives back the string |
| Text.TrimSpace | ppc/client.go:319-329 | the result is empty or starts and ends with a character outside Go's `unicode.IsSpace` set |
| Text.TrimSpaceIsSlice | ppc/client.go:319-329 | the result is a slice of the input with only white space before and after it; with `TrimSpace`'s own ensures this fixes the result |
| Text.NonSpaceTrim | ppc/client.go:319-329 | trimming removes white space only: the non-space characters are kept in order |
| Text.TrimSpaceIdempotent | ppc/client.go:319-329 | trimming twice is trimming once |
| Text.ToLower | theben/client.go:305 | same length, each character lowered (ASCII) |
| Text.ParseHexPairDigits | emhcasa/obis.go:23-34 | a pair of hex digits parses to 16·high + low, in either case |
| Text.HexByteRoundTrip | emhcasa/obis.go:23-34 | parsing the two-digit hex text of a byte gives the byte back |
| Text.DecimalRoundTrip | emhcasa/obis.go:36 | the decimal text of n reads back as n |
| Text.NatToDecimal | emhcasa/obis.go:36 | non-empty digits, no leading zero except for 0, at most three digits below 1000 |
| Obis.Description | obis/registry.go:65-95 | never empty |
| Obis.DescriptionsCoverCodes | obis/registry.go:8-89 | the description table has exactly the 13 constants as keys |
| Obis.CodesAreValid | obis/registry.go:8-62 | each constant has exactly two dots and is a valid OBIS text |
| Obis.CodesDistinct | obis/registry.go:8-62 | the 13 constants are pairwise distinct |
| Obis.DescriptionOfUnknown | obis/registry.go:91-94 | any other code c gets "Unknown OBIS code: " + c |
| Obis.UnknownExample | obis/registry_test.go:71 | "99.99.99" is unknown, and its description differs from every table entry |
| EmhObis.ConvertToObis | emhcasa/obis.go:13-37 | success only when the hex part has twelve characters |
| EmhObis.WrongLengthRejected | emhcasa/obis.go:17-19 | a hex part whose length is not 12 gives "unexpected logical name: " + name |
| EmhObis.BadPairRejected | emhcasa/obis.go:23-35 | a pair at 4, 6 or 8 that does not parse makes the conversion fail |
| EmhObis.ConvertSucceedsIff | emhcasa/obis.go:13-37 | success iff length 12 and all three pairs parse |
| EmhObis.OnlyMiddleBytesMatter | emhcasa/obis.go:23-36 | characters 0–3 and 10–11 never affect the result |
| EmhObis.SuffixIgnored | emhcasa/obis.go:15 | for a dot-free s, `s + "." + t` converts like s |
| EmhObis.CaseInsensitive | emhcasa/obis.go:23-35 | lower-casing the name does not change the converted code |
| EmhObis.HexDigitsGiveValidObis | emhcasa/obis.go:23-36 | when the three pairs are hex digits, the result is the decimal bytes "C.D.E", a valid OBIS text |
| EmhObis.RoundTrip | emhcasa/obis.go:13-37 | the logical name built from six bytes converts to "C.D.E" of its middle three bytes, and each segment reads back as its byte |
| EmhObis.ConvertPlainName | emhcasa/obis.go:13-37 | a twelve-character dot-free name converts to the text of its bytes 4–9 |
| EmhObis.TestVectors | emhcasa/obis_test.go:15-62 | the eight test vectors, including the short name, the non-hex name and the ".1" suffix |
| EmhObis.DocCommentExample | emhcasa/obis.go:12-36 | "0600011B0600" converts to "1.27.6" |
| EmhObis.SignedPairAccepted | emhcasa/obis.go:23-34 | signed pairs are accepted: "0100-10700FF" gives "-1.7.0", not a valid OBIS text |
| EmhCasa.DefaultScheme | emhcasa/client.go:289-294 | a URI with a scheme is kept; otherwise `scheme + "://"` is prefixed |
| EmhCasa.DefaultSchemeIdempotent | emhcasa/client.go:289-294 | the result has a scheme, and applying it twice equals applying it once |
| EmhCasa.DefaultSchemeExamples | emhcasa/client_test.go:16-39 | the four test cases |
| EmhCasa.ResolveUri | emhcasa/client.go:44-60 | the discovery error is wrapped "failed to discover gateway"; missing credentials give "credentials are required"; otherwise success with `DefaultScheme` of the given (or, when empty, the discovered) address and "https" |
| EmhCasa.Pow10 | emhcasa/client.go:203 | 10^n is positive, and at least 1 for n ≥ 0 |
| EmhCasa.UnitOfTag | emhcasa/client.go:205-218 | a defined tag maps to the same unit; any other tag to unit 0 |
| EmhCasa.ConvertReading | emhcasa/client.go:201-227 | value raw·10^scaler, divided by 1000 for tag 30; unparsable raw counts as 0; unit by tag; good quality; OBIS field is the code |
| EmhCasa.ScalingExamples | emhcasa/client_integration_test.go:19-89 | the scaling test cases (2500 W, 5·10² W, 123450 Wh → 123.45, negative scalers) |
| EmhCasa.ReadingsOf | emhcasa/client.go:121-129 | the readings map is well formed (keys equal OBIS fields, quality good) |
| EmhCasa.ReadingsOfKeys | emhcasa/client.go:121-129 | a code is in the map iff some value's logical name converts to it |
| EmhCasa.LastWriteWins | emhcasa/client.go:121-129 | the reading under a code comes from the last value converting to it |
| EmhCasa.SkipsUnconvertible | emhcasa/client.go:122-125 | a value whose name does not convert leaves the map unchanged |
| EmhCasa.ReadingsOfSnoc | emhcasa/client.go:121-129 | one more value stores its converted reading under its code, or nothing when the name does not convert |
| EmhCasa.Client.CollectReadings | emhcasa/client.go:121-129 | the loop over the values, with its `continue` on a failed conversion, computes `ReadingsOf` |
| EmhCasa.ReadingsFor | emhcasa/client.go:104-135 | fetch error wrapped "failed to get meter values"; empty map gives "no valid meter values found"; a non-empty map succeeds, named after the meter, model "EMH CASA 1.1", manufacturer "EMH", with the well-formed readings |
| EmhCasa.FirstSensorDomain | emhcasa/client.go:157-169 | none iff no contract's detail fetch succeeds with sensor domains; otherwise a qualifying contract's first domain |
| EmhCasa.Discovery | emhcasa/client.go:149-172 | listing error wrapped "failed to get contracts"; success iff some listed contract qualifies, and then its value is the first domain of the first qualifying contract in listing order (`FirstSensorDomain`); otherwise "no contract with sensor domains found" |
| EmhCasa.ValuesOf | emhcasa/client.go:279-285 | same codes, each with its reading's value |
| EmhCasa.Client.constructor | emhcasa/client.go:81-86 | uri and meter id as given, no Host override |
| EmhCasa.Client.DiscoverMeterIdContext | emhcasa/client.go:149-172 | on success the meter id becomes the discovered one; on failure it is unchanged and the error is returned |
| EmhCasa.Client.DiscoverMeterID | emhcasa/client.go:140-145 | returns the discovery outcome and caches it on success |
| EmhCasa.Client.GetReadings | emhcasa/client.go:95-136 | discovers only when the id is empty, aborting with "failed to discover meter ID"; its loop (`CollectReadings`) computes `ReadingsOf`, and the result is `ReadingsFor` the cached id |
| EmhCasa.Client.GetMeterValues | emhcasa/client.go:270-286 | discovers and caches the id only when it is empty, keeping it on failure; GetReadings' error, or its readings projected to plain values |
| EmhCasa.Client.MeterID | emhcasa/client.go:178-185 | the cached id, discovered when empty, "" when discovery fails |
| EmhCasa.Client.SetMeterID | emhcasa/client.go:189-191 | the meter id becomes the argument |
| EmhCasa.Client.SetHostHeader | emhcasa/client.go:196-198 | the Host override becomes the argument |
| EmhCasa.NewClient | emhcasa/client.go:44-89 | `ResolveUri`'s error; otherwise a fresh client with the resolved URI |
| Theben.ValidateConfig | theben/client.go:83-94 | credentials are checked before the base URL; otherwise success with the URL, "https://" added when it has no scheme |
| Theben.FirstRunningTaf7 | theben/client.go:200-205 | none iff no usage point is running TAF 7; otherwise such a point's id |
| Theben.UsagePointChoice | theben/client.go:192-213 | fetch error passed on; no points gives "no usage points found"; success iff there is a point; the first running TAF 7 point when there is one, else the first point |
| Theben.GetUsagePointID | theben/client.go:192-213 | the loop returns `UsagePointChoice` |
| Theben.Lookup | theben/client.go:324-328 | none iff no table key matches; otherwise a matching entry's value |
| Theben.ConvertObisFound | theben/client.go:303-329 | "" iff the trimmed, lower-cased code is not a table key; otherwise the table's value |
| Theben.ConvertObis | theben/client.go:303-329 | a non-empty answer is the table value of the trimmed, lower-cased name |
| Theben.TableAgreesWithEmh | theben/client.go:308-322 | every table entry k maps to "1-0:" + the EMH conversion of k |
| Theben.KeysCanonical | theben/client.go:305-322 | every table key is already trimmed and lower case |
| Theben.ConvertObisAgreesWithEmh | theben/client.go:303-329 | any non-empty conversion is "1-0:" + the EMH conversion of the normalised code; every key converts |
| Theben.ParseValue | theben/client.go:332-349 | fails iff the scan fails; divides by 1000 when the code contains ".8.", else by 10000 |
| Theben.CodeUnit | theben/client.go:365-382 | Wh iff D="8"; A iff D="7" and C is 31, 51 or 71; V iff D="7" and C is 32, 52 or 72; Hz iff D="7" and C="14"; W for power codes and any other D |
| Theben.DetermineUnit | theben/client.go:352-383 | always a defined unit; no ":" or no "." after it gives W |
| Theben.DetermineUnitOfCode | theben/client.go:352-383 | on "1-0:C.D.E" the unit is `CodeUnit(C, D)` |
| Theben.CaptureTime | theben/client.go:242-247 | the parsed capture time, or now when it is empty or does not parse (the PPC row walk uses the same rule for its time stamp, ppc/client.go:281-288) |
| Theben.Entry | theben/client.go:229-258 | a produced reading is of good quality |
| Theben.EntryUsable | theben/client.go:229-258 | an entry yields a reading iff its code is in the table and its value scans; the reading carries the code, scaled value and inferred unit |
| Theben.AddEntries | theben/client.go:227-260 | adding entries keeps a map well formed |
| Theben.ReadingsOf | theben/client.go:224-262 | the readings map is well formed |
| Theben.AddEntriesAppend | theben/client.go:227-260 | folding a + b is folding a, then b |
| Theben.SkipsUnusable | theben/client.go:231-239 | an unknown code or unscannable value leaves the map unchanged |
| Theben.NoUsableEntries | theben/client.go:224-262 | with no usable entry the map is empty, returned without error |
| Theben.LaterEntryOverwrites | theben/client.go:252-258 | a later usable entry overwrites its code's reading |
| Theben.AddEntriesKeepsKey | theben/client.go:227-260 | entries none of which is usable for a code leave that code's reading as it was |
| Theben.AddEntriesKeys | theben/client.go:227-260 | after the loop a code is present iff it was before or some entry is usable for it (known name, scannable value, converting to that code) |
| Theben.ReadingsOfKeys | theben/client.go:224-262 | a code is in the readings map iff some entry of the channels is usable for it |
| Theben.LastUsableWins | theben/client.go:224-262 | the reading under a code is that of the last entry usable for it, whatever entries for other codes follow |
| Theben.ReadingsOfSnoc | theben/client.go:227-260 | one more entry adds its reading or leaves the map unchanged |
| Theben.ConvertEntry | theben/client.go:229-258 | the loop body computes `Entry` |
| Theben.CollectChannel | theben/client.go:228-259 | the inner loop computes the fold over one channel |
| Theben.CollectReadings | theben/client.go:224-262 | the nested loop computes `ReadingsOf` over all channels in order |
| Theben.GetReadingsFor | theben/client.go:216-263 | fetch error passed on; otherwise the well-formed fold |
| Theben.Client.constructor | theben/client.go:108-113 | base URL and credentials as given, no meter id |
| Theben.Client.GetReadings | theben/client.go:117-150 | smgw-info first ("failed to get SMGW info"); usage point discovered and cached only when empty ("failed to get usage point"); readings error wrapped "failed to get readings"; success copies model, manufacturer and firmware |
| Theben.Client.DiscoverMeterID | theben/client.go:153-160 | returns `UsagePointChoice` and caches it on success |
| Theben.Client.MeterID | theben/client.go:164-171 | the cached id, discovered when empty, "" on failure |
| Theben.Client.SetMeterID | theben/client.go:175-177 | the meter id becomes the argument |
| Theben.NewClient | theben/client.go:82-114 | `ValidateConfig`'s error; otherwise a fresh client with the normalised URL |
| Ppc.PreOrder | ppc/client.go:244-259 | the traversal starts with the node itself |
| Ppc.FindById | ppc/client.go:244-260 | a found node has the id |
| Ppc.FirstWithId | ppc/client.go:244-260 | none iff no node in the sequence has the id; otherwise a node with it |
| Ppc.FirstWithIdAppend | ppc/client.go:244-260 | the first match in a + b is a's first match, if any, else b's |
| Ppc.FindByIdIsFirstInPreOrder | ppc/client.go:244-260 | the search returns the first node in pre-order with the id |
| Ppc.MeterName | ppc/client.go:204-212 | "" iff no "name" attribute mentions "meter"; otherwise the value of the last one that does |
| Ppc.ValueAttr | ppc/client.go:204-212 | "" when there is no "value" attribute; otherwise the value of the last one |
| Ppc.ScanInput | ppc/client.go:204-212 | the attribute loop keeps the last matching name and value |
| Ppc.InputMeterValue | ppc/client.go:202-215 | an `input` element with a meter name and a non-empty value offers that value; anything a node offers comes from such an element |
| Ppc.FirstMeterValue | ppc/client.go:200-225 | "" iff no node has a meter value; otherwise some node's meter value |
| Ppc.FirstMeterValueAppend | ppc/client.go:200-225 | the first meter value in a + b is a's, if any, else b's |
| Ppc.ExtractMeterId | ppc/client.go:200-225 | the recursive search returns the first meter value in pre-order, "" when there is none |
| Ppc.GetMeterID | ppc/client.go:127-160 | fetch error passed on; no meter input gives "meter ID not found in response"; otherwise success with the first meter value in pre-order |
| Ppc.ExtractText | ppc/client.go:319-330 | the text is trimmed and stays the same when trimmed again |
| Ppc.ExtractTextKeepsText | ppc/client.go:319-330 | every non-space character of the text nodes beneath, in document order, and no other, is in the result |
| Ppc.ExtractTextEmpty | ppc/client.go:319-330 | the result is "" iff the text beneath is white space only |
| Ppc.SingleTextChild | ppc/client.go:319-330 | an element whose one child is text d gives `TrimSpace(d)` |
| Ppc.NoChildrenNoText | ppc/client.go:319-330 | an element without children gives "" |
| Ppc.ExtractCellById | ppc/client.go:309-316 | "" when no node has the id, else the trimmed text of the first such node |
| Ppc.DetermineUnit | ppc/client.go:333-359 | always a defined unit; no "." gives W |
| Ppc.BareCodeAgreesWithTheben | ppc/client.go:333-359 | on a bare "C.D.E" the unit equals Theben's on "1-0:C.D.E" |
| Ppc.PrefixedCodeUnit | ppc/client.go:337-358 | on "1-0:C.D.E" the unit is Wh when D is "8", else W |
| Ppc.PrefixedCurrentIsWatt | ppc/client.go:337-358 | "1-0:31.7.0" gives W |
| Ppc.PrefixedCurrentIsAmpereForTheben | theben/client.go:352-383 | Theben gives A for "1-0:31.7.0" |
| Ppc.RegistryUnitsAgree | obis/registry.go:66-89 | for every registry constant, the description ends in "(" + the unit text of PPC's unit for that code + ")" |
| Ppc.RowReading | ppc/client.go:290-296 | the reading carries the code, the unscaled value, the inferred unit, good quality |
| Ppc.StepAt | ppc/client.go:266-298 | a stored reading is good, with a non-empty trimmed code |
| Ppc.Rows | ppc/client.go:263-306 | the walk keeps a map well formed |
| Ppc.ExtractRow | ppc/client.go:263-306 | the recursive method with its children loop computes `Rows` |
| Ppc.ReadRow | ppc/client.go:266-298 | the row handling at one node (cells, parse, early return, unit, time stamp) computes `StepAt` |
| Ppc.ExtractChildren | ppc/client.go:300-302 | the loop over the children, left to right, computes `RowsAll` |
| Ppc.NoRowsNoChange | ppc/client.go:263-306 | a subtree in which no node stores (no `tr` with non-empty obis and value cells whose value parses) leaves the map unchanged |
| Ppc.RowsKeys | ppc/client.go:263-306 | no key is ever removed; new keys are non-empty and trimmed |
| Ppc.RowsOrigin | ppc/client.go:268-296 | a key absent before the walk is present after it only if some node of the subtree stores under it: a `tr` with non-empty obis and value cells whose value parses, its obis text being the key |
| Ppc.UnparsableRowAbandonsSubtree | ppc/client.go:274-277 | a row whose value does not parse is skipped together with its whole subtree |
| Ppc.RowStoresUnscaled | ppc/client.go:268-296 | a complete row stores its unscaled value under the raw code text |
| Ppc.RowsAllAppend | ppc/client.go:300-302 | the children are walked left to right |
| Ppc.LaterRowOverwrites | ppc/client.go:268-302 | after a later complete row for a code (with no row for that code nested in it), the code holds that row's whole reading |
| Ppc.RowsKeepsKey | ppc/client.go:263-306 | a subtree with no row for a code leaves that code's reading as it was |
| Ppc.PageReadings | ppc/client.go:228-241 | the map is well formed, and empty when no element has id "metervalue" |
| Ppc.ExtractReadings | ppc/client.go:228-241 | the method computes `PageReadings` |
| Ppc.GetMeterProfile | ppc/client.go:163-197 | fetch error passed on; an empty map gives "no readings found"; a non-empty map succeeds with the well-formed readings |
| Ppc.Client.constructor | ppc/client.go:62-67 | base URL and credentials as given, no meter id |
| Ppc.Client.GetReadings | ppc/client.go:71-97 | discovers and caches only when empty ("failed to get meter ID"); profile error wrapped "failed to get meter profile"; success named after the meter, "PPC SMGW", "PPC", empty firmware |
| Ppc.Client.DiscoverMeterID | ppc/client.go:100-107 | returns `GetMeterID` and caches it on success |
| Ppc.Client.MeterID | ppc/client.go:111-118 | the cached id, discovered when empty, "" on failure |
| Ppc.Client.SetMeterID | ppc/client.go:122-124 | the meter id becomes the argument |
| Ppc.NewClient | ppc/client.go:36-68 | credentials before base URL, "https://" added when there is no scheme; otherwise a fresh client |
| Legacy.PlainValue | client.go:140-163 | kept iff the value parses and the tag is 27/30/33/35/44; value raw·10^scaler, divided by 1000 for tag 30 |
| Legacy.ByUnit | client.go:152-163 | the tag switch keeps exactly the defined units and divides Wh by 1000 |
| Legacy.AgreesWithConvertReading | client.go:150-163 | a kept value equals what the EMH client's `convertReading` computes |
| Legacy.DropsWhatEmhCasaKeeps | client.go:145-163 | an unparsable value or unknown tag is dropped here, where the EMH client keeps 0 or unit 0 |
| Legacy.PlainValuesSnoc | client.go:139-164 | one more item adds its value or leaves the map unchanged |
| Legacy.PlainValues | client.go:139-164 | the loop stores at most one code per value |
| Legacy.PlainValuesKeys | client.go:139-164 | a code is in the map iff some item converts to it and is kept |
| Legacy.LastValueWins | client.go:139-164 | the value under a code comes from the last kept item with that code |
| Legacy.NothingKept | client.go:139-168 | with nothing kept the map is empty |
| Legacy.Client.CollectValues | client.go:139-164 | the loop over the items, skipping unconvertible names, unparsable values and other units, computes `PlainValues` |
| Legacy.MeterValuesFor | client.go:125-171 | "meter ID not set" without discovery; fetch error wrapped "failed to get meter values"; empty gives "no valid meter values found"; a non-empty map succeeds with it |
| Legacy.EscapePercent | client.go:241 | each "%" becomes "%25", adding two characters per percent sign |
| Legacy.EscapeRoundTrip | client.go:241 | unescaping the escaped text gives it back |
| Legacy.ParseUriHost | client.go:239-259 | parse error wrapped "invalid uri"; empty host gives "invalid uri: no host"; any other host succeeds, bracketed when it contains ":", as is otherwise |
| Legacy.BracketsOnlyForColons | client.go:253-256 | the result starts with "[" iff the host name contains ":" |
| Legacy.EmptyUriExample | client_test.go:34-39 | a URI without host is rejected |
| Legacy.Client.constructor | client.go:76-81 | uri and meter id as given, no Host override |
| Legacy.Client.DiscoverMeterID | client.go:89-112 | first qualifying contract's first sensor domain is cached; otherwise the error, with the id unchanged |
| Legacy.Client.GetMeterValues | client.go:125-171 | its loop (`CollectValues`) computes `PlainValues`, and the result is `MeterValuesFor` the cached id |
| Legacy.Client.KeepValue | client.go:140-163 | one loop step computes `AddValue` |
| Legacy.Client.MeterID | client.go:174-182 | the cached id, or discovery's result; discovery errors wrapped "failed to discover meter ID" |
| Legacy.Client.SetHostHeader | client.go:186-188 | the Host override becomes the argument |
| Legacy.NewClient | client.go:41-84 | `ResolveUri`'s error, or a fresh client with the resolved URI, the given meter id and no Host override |
| Legacy.NewClientDiscover | client.go:27-29 | NewClient with an empty URI and meter id: the resolution error, or a client for the discovered address with "https" added |

## Left out

- HTTP requests, JSON decoding and HTML parsing:
  - `getJSONContext`/`getJSON` in emhcasa/client.go and client.go, `doJSONRequest` and `getSMGWInfo` in theben/client.go, and the form POSTs in ppc/client.go;
  - each fetch is an input value, or a function of the meter id;
  - the HTML page is a small tree datatype rather than `html.Node`;
  - request URLs and request bodies are not modelled.
- Gateway discovery by mDNS (discover.go, `DiscoverGatewayURI`). It is an input `Result` to `NewClient`.
- emhcasa/transport.go (the Host-header round tripper and digest authentication). `SetHostHeader` is modelled as a field update.
- gateway.go and types.go declare interfaces and records only. The records are the datatypes here.
- Floating point: values are `real`, and `math.Pow(10, n)` is exact `Pow10`. Rounding and IEEE-754 special values are not modelled.
- `strconv.ParseFloat`, `fmt.Sscanf("%f")`, `time.Parse` and `url.Parse` are abstract partial functions passed as parameters. Their behaviour is whatever the parameter says.
- Clock and cancellation:
  - each call gets a single `now` instant, where Go calls `time.Now()` once per reading;
  - contexts and timeouts (for example in the `MeterID` methods) are not modelled.
- Text.ToLower: lowers ASCII letters only. All table keys are ASCII, and Go's full Unicode lowering cannot turn a non-ASCII character into one of them.
- Strings are sequences of characters. Go's byte lengths equal these lengths only for ASCII input, which covers the logical names and OBIS codes.
- Theben.ConvertObis: the Go map literal is a sequence of key/value pairs with distinct keys.
- Ppc.ExtractRow: the closure that mutates the caller's map is a method returning the updated map.
- Ppc.GetMeterID and Ppc.GetMeterProfile are given the fetched page tree. The form POST with the meter id is the function parameter `profile`.
- client_test.go:242 and the example at types.go:8-14 call a five-argument `NewClient` that client.go:41 no longer has. They are not used as contracts.
- The test helper `parseFloat` in emhcasa/client_integration_test.go:120-133 is not modelled. `EmhCasa.ScalingExamples` states its cases for any parser that reads those decimal texts.
- Concrete `ParseUriHost` examples with IPv4 and IPv6 addresses (client_test.go:16-62) are not stated. With `url.Parse` abstract they would only restate the bracket rule, which `Legacy.ParseUriHost` and `Legacy.BracketsOnlyForColons` state for all inputs.
- Ppc.ExtractTextKeepsText: stated for trees whose text nodes have no children, as the HTML parser builds them. Were a text node to have children, `extractText` would ignore them while the lemma's text-beneath would count them.
- Ppc.LaterRowOverwrites: stated for a row without a row for the same code nested in it. A nested row for that code is visited after the outer one and overwrites it, as the walk does.
- Legacy.PlainValues: its own contract gives only the size bound. Which codes it holds and which value each gets are stated by `Legacy.PlainValuesKeys` and `Legacy.LastValueWins`.
