/**
 * The vendor-agnostic reading vocabulary (reading.go): DLMS/COSEM unit codes,
 * quality levels, one reading, and the information record a gateway client
 * returns, whose readings are keyed by their OBIS code "C.D.E".
 */
module Smgw {

  import opened Wrappers
  import opened Text

  /** A DLMS/COSEM unit code; any int is a Unit, the zero Unit included. */
  type Unit = int

  const UnitWatt: Unit := 27
  const UnitWh: Unit := 30
  const UnitAmpere: Unit := 33
  const UnitVolt: Unit := 35
  const UnitHertz: Unit := 44

  /** The five units the clients produce. */
  const DefinedUnits: seq<Unit> := [UnitWatt, UnitWh, UnitAmpere, UnitVolt, UnitHertz]

  /** Unit.String: energy is reported in kWh, an unknown unit as "?". */
  function UnitString(u: Unit): string {
    if u == UnitWatt then "W"
    else if u == UnitWh then "kWh"
    else if u == UnitAmpere then "A"
    else if u == UnitVolt then "V"
    else if u == UnitHertz then "Hz"
    else "?"
  }

  type Quality = int

  const QualityGood: Quality := 0
  const QualityStale: Quality := 1
  const QualityInvalid: Quality := 2

  const DefinedQualities: seq<Quality> := [QualityGood, QualityStale, QualityInvalid]

  /** Quality.String */
  function QualityString(q: Quality): string {
    if q == QualityGood then "good"
    else if q == QualityStale then "stale"
    else if q == QualityInvalid then "invalid"
    else "unknown"
  }

  /**
   * Unit.String is total: the five units have five distinct names, none of
   * them the fallback "?", which every other code (the zero Unit among them)
   * gets.
   */
  lemma UnitStringTable()
    ensures UnitString(UnitWatt) == "W" && UnitString(UnitWh) == "kWh" && UnitString(UnitAmpere) == "A"
    ensures UnitString(UnitVolt) == "V" && UnitString(UnitHertz) == "Hz" && UnitString(0) == "?"
    ensures forall i, j :: 0 <= i < j < |DefinedUnits| ==> UnitString(DefinedUnits[i]) != UnitString(DefinedUnits[j])
    ensures forall u :: UnitString(u) == "?" <==> u !in DefinedUnits
  {
  }

  /** An instant of time.Time, kept opaque. */
  type Instant = int

  datatype Reading = Reading(value: real, unit: Unit, timestamp: Instant, obis: string, quality: Quality)

  datatype Information = Information(
    name: string,
    model: string,
    manufacturer: string,
    firmwareVersion: string,
    lastUpdate: Instant,
    readings: map<string, Reading>)

  /**
   * Quality.String is total: three distinct names for the three levels, and
   * "unknown" for every other value.
   */
  lemma QualityStringTable()
    ensures QualityString(QualityGood) == "good" && QualityString(QualityStale) == "stale"
    ensures QualityString(QualityInvalid) == "invalid"
    ensures forall i, j :: 0 <= i < j < |DefinedQualities| ==> QualityString(DefinedQualities[i]) != QualityString(DefinedQualities[j])
    ensures forall q :: QualityString(q) == "unknown" <==> q !in DefinedQualities
  {
  }

  /** Every key of a readings map is the OBIS code of the reading stored under it. */
  predicate KeysMatch(readings: map<string, Reading>) {
    forall k :: k in readings ==> readings[k].obis == k
  }

  /** Every reading of a live fetch is marked good. */
  predicate AllGood(readings: map<string, Reading>) {
    forall k :: k in readings ==> readings[k].quality == QualityGood
  }

  predicate WellFormed(readings: map<string, Reading>) {
    KeysMatch(readings) && AllGood(readings)
  }

  /** Storing a good reading under its own code keeps a readings map well formed. */
  lemma InsertKeepsWellFormed(readings: map<string, Reading>, r: Reading)
    requires r.quality == QualityGood
    ensures WellFormed(readings) ==> WellFormed(readings[r.obis := r])
  {
  }

  /** Errors: a message, possibly wrapping the cause ("context: cause"). */
  datatype Error = Fail(message: string) | Wrap(context: string, cause: Error) {
    function Text(): string {
      match this
      case Fail(m) => m
      case Wrap(c, e) => c + ": " + e.Text()
    }
  }

  /**
   * The shape of an OBIS code "C.D.E" as the client tests check it: at least
   * five characters, only digits and dots, exactly two dots, no dot first,
   * last or next to another dot.
   */
  predicate IsValidObis(s: string) {
    && |s| >= 5
    && (forall i :: 0 <= i < |s| ==> IsDigit(s[i]) || s[i] == '.')
    && s[0] != '.' && s[|s| - 1] != '.'
    && (forall i :: 0 <= i < |s| - 1 ==> s[i] != '.' || s[i + 1] != '.')
    && CountChar(s, '.') == 2
  }

  lemma DigitsHaveNoDot(s: string)
    requires AllDigits(s)
    ensures '.' !in s
  {
  }

  /** Three non-empty digit strings joined by dots split back into themselves. */
  lemma ObisTextSplit(c: string, d: string, e: string)
    requires AllDigits(c) && AllDigits(d) && AllDigits(e)
    ensures Split(c + "." + d + "." + e, '.') == [c, d, e]
    ensures CountChar(c + "." + d + "." + e, '.') == 2
  {
    DigitsHaveNoDot(c);
    DigitsHaveNoDot(d);
    DigitsHaveNoDot(e);
    assert Join([c, d, e], '.') == c + "." + d + "." + e by {
      assert [c, d, e][1..] == [d, e];
      assert [d, e][1..] == [e];
      assert Join([d, e], '.') == d + ['.'] + e;
      assert Join([c, d, e], '.') == c + ['.'] + (d + ['.'] + e);
    }
    SplitJoin([c, d, e], '.');
  }

  /** The characters of `a + "." + b`: those of `a`, a dot, those of `b`. */
  lemma DotJoinAt(a: string, b: string, i: nat)
    requires i < |a| + 1 + |b|
    ensures (a + "." + b)[i] == if i < |a| then a[i] else if i == |a| then '.' else b[i - |a| - 1]
  {
  }

  lemma DotJoinDigits(a: string, b: string)
    requires forall i :: 0 <= i < |a| ==> IsDigit(a[i]) || a[i] == '.'
    requires AllDigits(b)
    ensures forall i :: 0 <= i < |a + "." + b| ==> IsDigit((a + "." + b)[i]) || (a + "." + b)[i] == '.'
  {
    forall i | 0 <= i < |a + "." + b|
      ensures IsDigit((a + "." + b)[i]) || (a + "." + b)[i] == '.'
    {
      DotJoinAt(a, b, i);
    }
  }

  lemma DotJoinNoDoubleDot(a: string, b: string)
    requires |a| >= 1 && |b| >= 1 && a[|a| - 1] != '.' && '.' !in b
    requires forall i :: 0 <= i < |a| - 1 ==> a[i] != '.' || a[i + 1] != '.'
    ensures forall i :: 0 <= i < |a + "." + b| - 1 ==> (a + "." + b)[i] != '.' || (a + "." + b)[i + 1] != '.'
  {
    forall i | 0 <= i < |a + "." + b| - 1
      ensures (a + "." + b)[i] != '.' || (a + "." + b)[i + 1] != '.'
    {
      DotJoinAt(a, b, i);
      DotJoinAt(a, b, i + 1);
    }
  }

  /** Three non-empty digit strings joined by dots form a valid OBIS code. */
  lemma ObisTextValid(c: string, d: string, e: string)
    requires |c| >= 1 && |d| >= 1 && |e| >= 1
    requires AllDigits(c) && AllDigits(d) && AllDigits(e)
    ensures IsValidObis(c + "." + d + "." + e)
    ensures Split(c + "." + d + "." + e, '.') == [c, d, e]
  {
    ObisTextSplit(c, d, e);
    DigitsHaveNoDot(c);
    DigitsHaveNoDot(d);
    DigitsHaveNoDot(e);
    DotJoinDigits(c, d);
    DotJoinDigits(c + "." + d, e);
    DotJoinNoDoubleDot(c, d);
    DotJoinAt(c, d, |c| + |d|);
    DotJoinNoDoubleDot(c + "." + d, e);
    DotJoinAt(c + "." + d, e, 0);
    DotJoinAt(c, d, 0);
    DotJoinAt(c + "." + d, e, |c + "." + d| + |e|);
  }

  // ---------------------------------------------------------------------------
  // Building a map one value at a time
  // ---------------------------------------------------------------------------

  /** One step of a map-building loop: store the pair, or nothing. */
  function Store<V>(m: map<string, V>, s: Option<(string, V)>): map<string, V> {
    match s
    case None => m
    case Some(p) => m[p.0 := p.1]
  }

  /** All steps applied first to last, a later store overwriting an earlier one under the same key. */
  function StoreAll<V>(m: map<string, V>, stores: seq<Option<(string, V)>>): map<string, V> {
    if stores == [] then m else Store(StoreAll(m, stores[..|stores| - 1]), stores[|stores| - 1])
  }

  /** Step `i` stores something under `k`. */
  predicate StoresAt<V>(stores: seq<Option<(string, V)>>, i: int, k: string)
    requires 0 <= i < |stores|
  {
    stores[i].Some? && stores[i].value.0 == k
  }

  lemma StoreAllSnoc<V>(m: map<string, V>, stores: seq<Option<(string, V)>>, s: Option<(string, V)>)
    ensures StoreAll(m, stores + [s]) == Store(StoreAll(m, stores), s)
  {
    assert (stores + [s])[..|stores|] == stores;
  }

  /** A key is in the result exactly when it was in the start map or some step stores under it. */
  lemma {:induction false} StoreAllKeys<V>(m: map<string, V>, stores: seq<Option<(string, V)>>, k: string)
    ensures k in StoreAll(m, stores) <==> k in m || exists i :: 0 <= i < |stores| && StoresAt(stores, i, k)
  {
    if stores != [] {
      var init := stores[..|stores| - 1];
      StoreAllKeys(m, init, k);
      if StoresAt(stores, |stores| - 1, k) {
        assert k in StoreAll(m, stores);
      }
      if i :| 0 <= i < |init| && StoresAt(init, i, k) {
        assert StoresAt(stores, i, k);
      }
      if i :| 0 <= i < |stores| && StoresAt(stores, i, k) {
        if i < |init| {
          assert StoresAt(init, i, k);
        }
      }
    }
  }

  /** The value under a key is the one of the last step that stores under it. */
  lemma {:induction false} StoreAllLast<V>(m: map<string, V>, stores: seq<Option<(string, V)>>, i: int, k: string)
    requires 0 <= i < |stores| && StoresAt(stores, i, k)
    requires forall j :: i < j < |stores| ==> !StoresAt(stores, j, k)
    ensures k in StoreAll(m, stores) && StoreAll(m, stores)[k] == stores[i].value.1
  {
    var init := stores[..|stores| - 1];
    if i < |stores| - 1 {
      assert StoresAt(init, i, k);
      forall j | i < j < |init| ensures !StoresAt(init, j, k) {
        assert !StoresAt(stores, j, k);
      }
      StoreAllLast(m, init, i, k);
      assert !StoresAt(stores, |stores| - 1, k);
    }
  }

  /** Steps that store nothing leave the start map as it was. */
  lemma {:induction false} StoreAllNothing<V>(m: map<string, V>, stores: seq<Option<(string, V)>>)
    requires forall i :: 0 <= i < |stores| ==> stores[i].None?
    ensures StoreAll(m, stores) == m
  {
    if stores != [] {
      var init := stores[..|stores| - 1];
      assert forall i :: 0 <= i < |init| ==> init[i] == stores[i];
      StoreAllNothing(m, init);
    }
  }

  /** Each step adds at most one key. */
  lemma {:induction false} StoreAllSize<V>(m: map<string, V>, stores: seq<Option<(string, V)>>)
    ensures |StoreAll(m, stores)| <= |m| + |stores|
  {
    if stores != [] {
      var init := stores[..|stores| - 1];
      StoreAllSize(m, init);
      var before := StoreAll(m, init);
      match stores[|stores| - 1] {
        case None =>
        case Some(p) =>
          assert before[p.0 := p.1].Keys == before.Keys + {p.0};
      }
    }
  }

  /** Good readings each stored under their own code keep a readings map well formed. */
  lemma {:induction false} StoreAllWellFormed(m: map<string, Reading>, stores: seq<Option<(string, Reading)>>)
    requires WellFormed(m)
    requires forall i :: 0 <= i < |stores| && stores[i].Some? ==>
               stores[i].value.1.obis == stores[i].value.0 && stores[i].value.1.quality == QualityGood
    ensures WellFormed(StoreAll(m, stores))
  {
    if stores != [] {
      var init := stores[..|stores| - 1];
      assert forall i :: 0 <= i < |init| ==> init[i] == stores[i];
      StoreAllWellFormed(m, init);
      var last := stores[|stores| - 1];
      if last.Some? {
        InsertKeepsWellFormed(StoreAll(m, init), last.value.1);
      }
    }
  }
}
