/**
 * The PPC gateway client (ppc/client.go): the gateway answers with HTML
 * pages, from which the client scrapes the meter id (a form input) and the
 * readings (the rows of the table with id "metervalue").
 *
 * A parsed page is a `Node` tree as golang.org/x/net/html builds it; the
 * two form POSTs are inputs, each a Result holding the parsed page (the
 * profile request as a function of the meter id it posts);
 * strconv.ParseFloat and time.Parse with "2006-01-02 15:04:05" are partial
 * functions `parseFloat` and `parseTime`, and one instant `now` stands for
 * time.Now.
 */
module Ppc {

  import opened Wrappers
  import opened Text
  import opened Smgw
  import Obis
  import Theben

  // ---------------------------------------------------------------------------
  // The HTML tree
  // ---------------------------------------------------------------------------

  /** html.NodeType, reduced to the kinds the scraper tells apart. */
  datatype NodeKind = ElementNode | TextNode | OtherNode

  datatype Attribute = Attribute(key: string, val: string)

  /** An element's tag name or a text node's text is `data`. */
  datatype Node = Node(kind: NodeKind, data: string, attrs: seq<Attribute>, children: seq<Node>)

  /** The nodes of a tree in pre-order: a node before its children, children left to right. */
  function PreOrder(n: Node): (s: seq<Node>)
    ensures |s| >= 1 && s[0] == n
    decreases n, 1
  {
    [n] + PreOrderAll(n.children)
  }

  function PreOrderAll(cs: seq<Node>): seq<Node>
    decreases cs, 0
  {
    if cs == [] then [] else PreOrder(cs[0]) + PreOrderAll(cs[1..])
  }

  // ---------------------------------------------------------------------------
  // findElementByID
  // ---------------------------------------------------------------------------

  /** An element carrying the attribute id="<id>". */
  predicate HasId(n: Node, id: string) {
    n.kind == ElementNode && exists i :: 0 <= i < |n.attrs| && n.attrs[i].key == "id" && n.attrs[i].val == id
  }

  /** findElementByID: the node itself if it has the id, else the first hit among its children, in order. */
  function FindById(n: Node, id: string): (r: Option<Node>)
    ensures r.Some? ==> HasId(r.value, id)
    decreases n, 1
  {
    if HasId(n, id) then Some(n) else FindInChildren(n.children, id)
  }

  function FindInChildren(cs: seq<Node>, id: string): (r: Option<Node>)
    ensures r.Some? ==> HasId(r.value, id)
    decreases cs, 0
  {
    if cs == [] then None
    else
      var hit := FindById(cs[0], id);
      if hit.Some? then hit else FindInChildren(cs[1..], id)
  }

  /** The first node of a run that has the id. */
  function FirstWithId(s: seq<Node>, id: string): (r: Option<Node>)
    ensures r.None? <==> forall i :: 0 <= i < |s| ==> !HasId(s[i], id)
    ensures r.Some? ==> exists i :: 0 <= i < |s| && s[i] == r.value && HasId(s[i], id)
                          && forall j :: 0 <= j < i ==> !HasId(s[j], id)
  {
    if s == [] then None
    else if HasId(s[0], id) then Some(s[0])
    else
      var r := FirstWithId(s[1..], id);
      assert forall i :: 1 <= i < |s| ==> s[i] == s[1..][i - 1];
      r
  }

  /** The first hit of a concatenation is the first hit of its first part, if any. */
  lemma {:induction false} FirstWithIdAppend(a: seq<Node>, b: seq<Node>, id: string)
    ensures FirstWithId(a + b, id) == if FirstWithId(a, id).Some? then FirstWithId(a, id) else FirstWithId(b, id)
  {
    if a == [] {
      assert a + b == b;
    } else {
      assert (a + b)[0] == a[0];
      assert (a + b)[1..] == a[1..] + b;
      FirstWithIdAppend(a[1..], b, id);
    }
  }

  /** findElementByID returns the first node in pre-order that has the id, or nothing. */
  lemma {:induction false} FindByIdIsFirstInPreOrder(n: Node, id: string)
    ensures FindById(n, id) == FirstWithId(PreOrder(n), id)
    decreases n, 1
  {
    FirstWithIdAppend([n], PreOrderAll(n.children), id);
    assert ([n] + PreOrderAll(n.children))[1..] == PreOrderAll(n.children);
    FindInChildrenIsFirst(n.children, id);
  }

  lemma {:induction false} FindInChildrenIsFirst(cs: seq<Node>, id: string)
    ensures FindInChildren(cs, id) == FirstWithId(PreOrderAll(cs), id)
    decreases cs, 0
  {
    if cs != [] {
      FindByIdIsFirstInPreOrder(cs[0], id);
      FindInChildrenIsFirst(cs[1..], id);
      FirstWithIdAppend(PreOrder(cs[0]), PreOrderAll(cs[1..]), id);
    }
  }

  // ---------------------------------------------------------------------------
  // extractMeterID
  // ---------------------------------------------------------------------------

  /** A "name" attribute that mentions "meter". */
  predicate IsMeterName(a: Attribute) {
    a.key == "name" && Contains(a.val, "meter")
  }

  /** The value of the last "name" attribute that mentions "meter", or "" (the attribute loop overwrites). */
  function MeterName(attrs: seq<Attribute>): (r: string)
    ensures r == "" <==> forall i :: 0 <= i < |attrs| ==> !IsMeterName(attrs[i])
    ensures r != "" ==> exists i :: 0 <= i < |attrs| && IsMeterName(attrs[i]) && attrs[i].val == r
                          && forall j :: i < j < |attrs| ==> !IsMeterName(attrs[j])
  {
    if attrs == [] then ""
    else
      var a := attrs[|attrs| - 1];
      if IsMeterName(a) then
        MeterNameNotEmpty(a);
        a.val
      else
        var r := MeterName(attrs[..|attrs| - 1]);
        MeterNameSkip(attrs, r);
        r
  }

  lemma MeterNameNotEmpty(a: Attribute)
    requires IsMeterName(a)
    ensures a.val != ""
  {
    assert !HasPrefix("", "meter");
  }

  /** What the last meter name of all but the last attribute means for all of them, when the last is none. */
  lemma MeterNameSkip(attrs: seq<Attribute>, r: string)
    requires attrs != [] && !IsMeterName(attrs[|attrs| - 1])
    requires var init := attrs[..|attrs| - 1];
      && (r == "" <==> forall i :: 0 <= i < |init| ==> !IsMeterName(init[i]))
      && (r != "" ==> exists i :: 0 <= i < |init| && IsMeterName(init[i]) && init[i].val == r
                                 && forall j :: i < j < |init| ==> !IsMeterName(init[j]))
    ensures r == "" <==> forall i :: 0 <= i < |attrs| ==> !IsMeterName(attrs[i])
    ensures r != "" ==> exists i :: 0 <= i < |attrs| && IsMeterName(attrs[i]) && attrs[i].val == r
                          && forall j :: i < j < |attrs| ==> !IsMeterName(attrs[j])
  {
    var init := attrs[..|attrs| - 1];
    assert forall i :: 0 <= i < |init| ==> init[i] == attrs[i];
    if r != "" {
      var i :| 0 <= i < |init| && IsMeterName(init[i]) && init[i].val == r
               && forall j :: i < j < |init| ==> !IsMeterName(init[j]);
      assert IsMeterName(attrs[i]) && attrs[i].val == r;
    }
  }

  /** The value of the last "value" attribute, or "" when there is none. */
  function ValueAttr(attrs: seq<Attribute>): (r: string)
    ensures r != "" ==> exists i :: 0 <= i < |attrs| && attrs[i].key == "value" && attrs[i].val == r
    ensures (forall i :: 0 <= i < |attrs| ==> attrs[i].key != "value") ==> r == ""
    ensures (exists i :: 0 <= i < |attrs| && attrs[i].key == "value") ==>
              exists i :: 0 <= i < |attrs| && attrs[i].key == "value" && attrs[i].val == r
                          && forall j :: i < j < |attrs| ==> attrs[j].key != "value"
  {
    if attrs == [] then ""
    else
      var a := attrs[|attrs| - 1];
      var init := attrs[..|attrs| - 1];
      assert forall i :: 0 <= i < |init| ==> init[i] == attrs[i];
      if a.key == "value" then a.val else ValueAttr(init)
  }

  /** The attribute loop of extractMeterID, over an <input> element's attributes in order. */
  method ScanInput(attrs: seq<Attribute>) returns (name: string, value: string)
    ensures name == MeterName(attrs) && value == ValueAttr(attrs)
  {
    name, value := "", "";
    var i := 0;
    while i < |attrs|
      invariant 0 <= i <= |attrs|
      invariant name == MeterName(attrs[..i]) && value == ValueAttr(attrs[..i])
    {
      ScanStep(attrs, i);
      var attr := attrs[i];
      if attr.key == "name" && Contains(attr.val, "meter") {
        name := attr.val;
      }
      if attr.key == "value" {
        value := attr.val;
      }
      i := i + 1;
    }
    assert attrs[..i] == attrs;
  }

  /** One more attribute: it replaces the meter name when it is one, the value when it is one. */
  lemma ScanStep(attrs: seq<Attribute>, i: int)
    requires 0 <= i < |attrs|
    ensures MeterName(attrs[..i + 1]) == if IsMeterName(attrs[i]) then attrs[i].val else MeterName(attrs[..i])
    ensures ValueAttr(attrs[..i + 1]) == if attrs[i].key == "value" then attrs[i].val else ValueAttr(attrs[..i])
  {
    var t := attrs[..i + 1];
    assert t[..i] == attrs[..i];
    assert t[|t| - 1] == attrs[i];
  }

  /** What one node offers as meter id: the value of an <input> with a meter name and a non-empty value, else "". */
  function InputMeterValue(n: Node): (v: string)
    ensures v != "" ==> n.kind == ElementNode && n.data == "input" && MeterName(n.attrs) != "" && v == ValueAttr(n.attrs)
    ensures n.kind == ElementNode && n.data == "input" && MeterName(n.attrs) != "" && ValueAttr(n.attrs) != "" ==>
              v == ValueAttr(n.attrs)
  {
    if n.kind == ElementNode && n.data == "input" && MeterName(n.attrs) != "" && ValueAttr(n.attrs) != "" then ValueAttr(n.attrs)
    else ""
  }

  /**
   * extractMeterID: the node's own offer, else the first non-empty answer
   * among its children; that is, the value of the first <input> in
   * pre-order whose name mentions "meter" and whose value is non-empty, or
   * "" when there is none.
   */
  function ExtractMeterId(n: Node): (r: string)
    ensures r == FirstMeterValue(PreOrder(n))
    decreases n, 1
  {
    var v := InputMeterValue(n);
    FirstMeterValueAppend([n], PreOrderAll(n.children));
    assert ([n] + PreOrderAll(n.children))[1..] == PreOrderAll(n.children);
    if v != "" then v else ExtractMeterIdAll(n.children)
  }

  function ExtractMeterIdAll(cs: seq<Node>): (r: string)
    ensures r == FirstMeterValue(PreOrderAll(cs))
    decreases cs, 0
  {
    if cs == [] then ""
    else
      var r := ExtractMeterId(cs[0]);
      FirstMeterValueAppend(PreOrder(cs[0]), PreOrderAll(cs[1..]));
      if r != "" then r else ExtractMeterIdAll(cs[1..])
  }

  /** The first non-empty offer of a run of nodes. */
  function FirstMeterValue(s: seq<Node>): (r: string)
    ensures r == "" <==> forall i :: 0 <= i < |s| ==> InputMeterValue(s[i]) == ""
    ensures r != "" ==> exists i :: 0 <= i < |s| && InputMeterValue(s[i]) == r
                          && forall j :: 0 <= j < i ==> InputMeterValue(s[j]) == ""
  {
    if s == [] then ""
    else if InputMeterValue(s[0]) != "" then InputMeterValue(s[0])
    else
      var r := FirstMeterValue(s[1..]);
      FirstMeterValueSkip(s, r);
      r
  }

  /** What the tail's first offer means for the whole run when its head offers nothing. */
  lemma FirstMeterValueSkip(s: seq<Node>, r: string)
    requires s != [] && InputMeterValue(s[0]) == ""
    requires r == "" <==> forall i :: 0 <= i < |s[1..]| ==> InputMeterValue(s[1..][i]) == ""
    requires r != "" ==> exists i :: 0 <= i < |s[1..]| && InputMeterValue(s[1..][i]) == r
                           && forall j :: 0 <= j < i ==> InputMeterValue(s[1..][j]) == ""
    ensures r == "" <==> forall i :: 0 <= i < |s| ==> InputMeterValue(s[i]) == ""
    ensures r != "" ==> exists i :: 0 <= i < |s| && InputMeterValue(s[i]) == r
                          && forall j :: 0 <= j < i ==> InputMeterValue(s[j]) == ""
  {
    assert forall i :: 1 <= i < |s| ==> s[i] == s[1..][i - 1];
    if r != "" {
      var k :| 0 <= k < |s[1..]| && InputMeterValue(s[1..][k]) == r
               && forall j :: 0 <= j < k ==> InputMeterValue(s[1..][j]) == "";
      assert InputMeterValue(s[k + 1]) == r;
      assert forall j :: 0 <= j < k + 1 ==> InputMeterValue(s[j]) == "" by {
        forall j | 0 <= j < k + 1 ensures InputMeterValue(s[j]) == "" {
          if j > 0 {
            assert s[j] == s[1..][j - 1];
          }
        }
      }
    }
  }

  lemma {:induction false} FirstMeterValueAppend(a: seq<Node>, b: seq<Node>)
    ensures FirstMeterValue(a + b) == if FirstMeterValue(a) != "" then FirstMeterValue(a) else FirstMeterValue(b)
  {
    if a == [] {
      assert a + b == b;
    } else {
      assert (a + b)[0] == a[0];
      assert (a + b)[1..] == a[1..] + b;
      FirstMeterValueAppend(a[1..], b);
    }
  }

  /** getMeterID: a failed request passes its error through; a page without a meter id is an error. */
  function GetMeterID(page: Result<Node, Error>): (r: Result<string, Error>)
    ensures page.Failure? ==> r == Failure(page.error)
    ensures page.Success? && FirstMeterValue(PreOrder(page.value)) == "" ==> r == Failure(Fail("meter ID not found in response"))
    ensures r.Success? ==> page.Success? && r.value != "" && r.value == FirstMeterValue(PreOrder(page.value))
    ensures page.Success? && FirstMeterValue(PreOrder(page.value)) != "" ==> r == Success(FirstMeterValue(PreOrder(page.value)))
  {
    if page.Failure? then Failure(page.error)
    else
      var id := ExtractMeterId(page.value);
      if id == "" then Failure(Fail("meter ID not found in response")) else Success(id)
  }

  // ---------------------------------------------------------------------------
  // extractText and extractCellByID
  // ---------------------------------------------------------------------------

  /** extractText: a text node's trimmed text; otherwise its children's texts, concatenated, then trimmed. */
  function ExtractText(n: Node): (t: string)
    ensures TrimSpace(t) == t
    ensures t == [] || (!IsSpace(t[0]) && !IsSpace(t[|t| - 1]))
    decreases n, 1
  {
    var t := if n.kind == TextNode then TrimSpace(n.data) else TrimSpace(ConcatText(n.children));
    TrimSpaceIdempotent(if n.kind == TextNode then n.data else ConcatText(n.children));
    t
  }

  function ConcatText(cs: seq<Node>): string
    decreases cs, 0
  {
    if cs == [] then "" else ExtractText(cs[0]) + ConcatText(cs[1..])
  }

  lemma ConcatTextSingle(c: Node)
    ensures ConcatText([c]) == ExtractText(c)
  {
    assert [c][1..] == [];
    assert ExtractText(c) + "" == ExtractText(c);
  }

  /** An element whose only child is a text node yields that text, trimmed once. */
  lemma SingleTextChild(n: Node, d: string)
    requires n.kind != TextNode && n.children == [Node(TextNode, d, [], [])]
    ensures ExtractText(n) == TrimSpace(d)
  {
    ConcatTextSingle(n.children[0]);
    assert ConcatText(n.children) == TrimSpace(d);
    TrimSpaceIdempotent(d);
  }

  /** An element without children yields the empty text. */
  lemma NoChildrenNoText(n: Node)
    requires n.kind != TextNode && n.children == []
    ensures ExtractText(n) == ""
  {
  }

  /** The text of the text nodes of `s`, concatenated in order. */
  function TextOf(s: seq<Node>): string {
    if s == [] then "" else (if s[0].kind == TextNode then s[0].data else "") + TextOf(s[1..])
  }

  lemma {:induction false} TextOfAppend(a: seq<Node>, b: seq<Node>)
    ensures TextOf(a + b) == TextOf(a) + TextOf(b)
  {
    if a == [] {
      assert a + b == b;
    } else {
      assert (a + b)[0] == a[0];
      assert (a + b)[1..] == a[1..] + b;
      TextOfAppend(a[1..], b);
    }
  }

  /** The text nodes of `s` are leaves, as the HTML parser builds them. */
  predicate TextLeaves(s: seq<Node>) {
    forall i :: 0 <= i < |s| && s[i].kind == TextNode ==> s[i].children == []
  }

  /**
   * extractText keeps every character of the text beneath a node that is not
   * white space, in document order, and drops only white space.
   */
  lemma {:induction false} ExtractTextKeepsText(n: Node)
    requires TextLeaves(PreOrder(n))
    ensures NonSpace(ExtractText(n)) == NonSpace(TextOf(PreOrder(n)))
    decreases n, 1
  {
    var rest := PreOrderAll(n.children);
    TextOfAppend([n], rest);
    assert TextOf([n]) == (if n.kind == TextNode then n.data else "") + TextOf([]) by {
      assert [n][1..] == [];
    }
    if n.kind == TextNode {
      TextNodeKeepsText(n);
    } else {
      assert TextLeaves(rest) by {
        assert forall i :: 0 <= i < |rest| ==> rest[i] == PreOrder(n)[i + 1];
      }
      assert TextOf(PreOrder(n)) == TextOf(rest);
      NonSpaceTrim(ConcatText(n.children));
      ConcatTextKeepsText(n.children);
    }
  }

  /** A text node, which has no children, gives its own text trimmed. */
  lemma TextNodeKeepsText(n: Node)
    requires n.kind == TextNode && TextLeaves(PreOrder(n))
    requires TextOf(PreOrder(n)) == TextOf([n]) + TextOf(PreOrderAll(n.children))
    requires TextOf([n]) == n.data + TextOf([])
    ensures NonSpace(ExtractText(n)) == NonSpace(TextOf(PreOrder(n)))
  {
    assert PreOrder(n)[0] == n;
    assert n.children == [];
    assert TextOf(PreOrder(n)) == n.data;
    NonSpaceTrim(n.data);
  }

  lemma {:induction false} ConcatTextKeepsText(cs: seq<Node>)
    requires TextLeaves(PreOrderAll(cs))
    ensures NonSpace(ConcatText(cs)) == NonSpace(TextOf(PreOrderAll(cs)))
    decreases cs, 0
  {
    if cs != [] {
      var a, b := PreOrder(cs[0]), PreOrderAll(cs[1..]);
      assert forall i :: 0 <= i < |a| ==> a[i] == (a + b)[i];
      assert forall i :: 0 <= i < |b| ==> b[i] == (a + b)[|a| + i];
      ExtractTextKeepsText(cs[0]);
      ConcatTextKeepsText(cs[1..]);
      NonSpaceAppend(ExtractText(cs[0]), ConcatText(cs[1..]));
      TextOfAppend(a, b);
      NonSpaceAppend(TextOf(a), TextOf(b));
    }
  }

  /** extractText gives "" exactly when every text node beneath is white space only. */
  lemma ExtractTextEmpty(n: Node)
    requires TextLeaves(PreOrder(n))
    ensures ExtractText(n) == "" <==> NonSpace(TextOf(PreOrder(n))) == ""
  {
    ExtractTextKeepsText(n);
    NonSpaceEmpty(ExtractText(n));
  }

  /** extractCellByID: the text of the first descendant (or the node itself) with the id, or "". */
  function ExtractCellById(row: Node, id: string): (t: string)
    ensures TrimSpace(t) == t
    ensures FindById(row, id).None? ==> t == ""
    ensures FindById(row, id).Some? ==> t == ExtractText(FindById(row, id).value)
  {
    match FindById(row, id)
    case None => ""
    case Some(cell) => ExtractText(cell)
  }

  // ---------------------------------------------------------------------------
  // determineUnit
  // ---------------------------------------------------------------------------

  /**
   * determineUnit: the text is split on "." only, and its first two fields
   * go through the same C/D table as Theben's; fewer than two fields give W.
   */
  function DetermineUnit(obis: string): (u: Unit)
    ensures u in DefinedUnits
    ensures '.' !in obis ==> u == UnitWatt
  {
    CountCharZero(obis, '.');
    var parts := Split(obis, '.');
    if |parts| >= 2 then Theben.CodeUnit(parts[0], parts[1]) else UnitWatt
  }

  /** Splitting `p.d.e` on dots gives its three fields when none of them holds a dot. */
  lemma SplitThree(p: string, d: string, e: string)
    requires '.' !in p && '.' !in d && '.' !in e
    ensures Split(p + "." + d + "." + e, '.') == [p, d, e]
  {
    assert Join([p, d, e], '.') == p + "." + d + "." + e by {
      assert [p, d, e][1..] == [d, e];
      assert [d, e][1..] == [e];
      assert Join([d, e], '.') == d + ['.'] + e;
      assert Join([p, d, e], '.') == p + ['.'] + (d + ['.'] + e);
    }
    SplitJoin([p, d, e], '.');
  }

  /**
   * On a bare code "C.D.E" PPC infers the unit Theben infers for the same
   * code behind the "1-0:" prefix.
   */
  lemma BareCodeAgreesWithTheben(c: string, d: string, e: string)
    requires AllDigits(c) && AllDigits(d) && AllDigits(e)
    ensures DetermineUnit(c + "." + d + "." + e) == Theben.CodeUnit(c, d)
    ensures DetermineUnit(c + "." + d + "." + e) == Theben.DetermineUnit("1-0:" + c + "." + d + "." + e)
  {
    DigitsHaveNoDot(c);
    DigitsHaveNoDot(d);
    DigitsHaveNoDot(e);
    SplitThree(c, d, e);
    Theben.DetermineUnitOfCode(c, d, e);
  }

  /**
   * On a prefixed code "1-0:C.D.E" the first field is "1-0:C", which matches
   * no entry of the table: energy codes still give Wh, every other code W.
   */
  lemma PrefixedCodeUnit(c: string, d: string, e: string)
    requires AllDigits(c) && AllDigits(d) && AllDigits(e)
    ensures DetermineUnit("1-0:" + c + "." + d + "." + e) == if d == "8" then UnitWh else UnitWatt
  {
    DigitsHaveNoDot(c);
    DigitsHaveNoDot(d);
    DigitsHaveNoDot(e);
    var p := "1-0:" + c;
    assert '.' !in p by {
      assert forall i :: 0 <= i < |p| ==> p[i] == if i < 4 then "1-0:"[i] else c[i - 4];
    }
    SplitThree(p, d, e);
    assert "1-0:" + c + "." + d + "." + e == p + "." + d + "." + e;
  }

  lemma CurrentL1Text()
    ensures "1-0:31.7.0" == "1-0:" + "31" + "." + "7" + "." + "0"
    ensures AllDigits("31") && AllDigits("7") && AllDigits("0")
  {
  }

  /** "1-0:31.7.0", a phase current, is reported in W by PPC. */
  lemma PrefixedCurrentIsWatt()
    ensures DetermineUnit("1-0:31.7.0") == UnitWatt
  {
    CurrentL1Text();
    PrefixedCodeUnit("31", "7", "0");
  }

  /** Theben reports the same code in A. */
  lemma PrefixedCurrentIsAmpereForTheben()
    ensures Theben.DetermineUnit("1-0:31.7.0") == UnitAmpere
  {
    CurrentL1Text();
    Theben.DetermineUnitOfCode("31", "7", "0");
    assert Theben.CodeUnit("31", "7") == UnitAmpere;
  }

  /** A registry code whose description ends in the unit PPC infers for it. */
  lemma DescribedUnit(k: string, c: string, d: string, e: string)
    requires AllDigits(c) && AllDigits(d) && AllDigits(e)
    requires k == c + "." + d + "." + e
    requires HasSuffix(Obis.Description(k), "(" + UnitString(Theben.CodeUnit(c, d)) + ")")
    ensures HasSuffix(Obis.Description(k), "(" + UnitString(DetermineUnit(k)) + ")")
  {
    BareCodeAgreesWithTheben(c, d, e);
  }

  lemma DescribedEnergyImport()
    ensures HasSuffix(Obis.Description(Obis.EnergyImport), "(" + UnitString(DetermineUnit(Obis.EnergyImport)) + ")")
  {
    assert Obis.EnergyImport == "1" + "." + "8" + "." + "0";
    assert UnitString(Theben.CodeUnit("1", "8")) == "kWh";
    DescribedUnit(Obis.EnergyImport, "1", "8", "0");
  }

  lemma DescribedEnergyExport()
    ensures HasSuffix(Obis.Description(Obis.EnergyExport), "(" + UnitString(DetermineUnit(Obis.EnergyExport)) + ")")
  {
    assert Obis.EnergyExport == "2" + "." + "8" + "." + "0";
    assert UnitString(Theben.CodeUnit("2", "8")) == "kWh";
    DescribedUnit(Obis.EnergyExport, "2", "8", "0");
  }

  lemma DescribedPowerActive()
    ensures HasSuffix(Obis.Description(Obis.PowerActive), "(" + UnitString(DetermineUnit(Obis.PowerActive)) + ")")
  {
    assert Obis.PowerActive == "16" + "." + "7" + "." + "0";
    assert UnitString(Theben.CodeUnit("16", "7")) == "W";
    DescribedUnit(Obis.PowerActive, "16", "7", "0");
  }

  lemma DescribedPowerL1()
    ensures HasSuffix(Obis.Description(Obis.PowerL1), "(" + UnitString(DetermineUnit(Obis.PowerL1)) + ")")
  {
    assert Obis.PowerL1 == "36" + "." + "7" + "." + "0";
    assert UnitString(Theben.CodeUnit("36", "7")) == "W";
    DescribedUnit(Obis.PowerL1, "36", "7", "0");
  }

  lemma DescribedPowerL2()
    ensures HasSuffix(Obis.Description(Obis.PowerL2), "(" + UnitString(DetermineUnit(Obis.PowerL2)) + ")")
  {
    assert Obis.PowerL2 == "56" + "." + "7" + "." + "0";
    assert UnitString(Theben.CodeUnit("56", "7")) == "W";
    DescribedUnit(Obis.PowerL2, "56", "7", "0");
  }

  lemma DescribedPowerL3()
    ensures HasSuffix(Obis.Description(Obis.PowerL3), "(" + UnitString(DetermineUnit(Obis.PowerL3)) + ")")
  {
    assert Obis.PowerL3 == "76" + "." + "7" + "." + "0";
    assert UnitString(Theben.CodeUnit("76", "7")) == "W";
    DescribedUnit(Obis.PowerL3, "76", "7", "0");
  }

  lemma DescribedCurrentL1()
    ensures HasSuffix(Obis.Description(Obis.CurrentL1), "(" + UnitString(DetermineUnit(Obis.CurrentL1)) + ")")
  {
    assert Obis.CurrentL1 == "31" + "." + "7" + "." + "0";
    assert UnitString(Theben.CodeUnit("31", "7")) == "A";
    DescribedUnit(Obis.CurrentL1, "31", "7", "0");
  }

  lemma DescribedCurrentL2()
    ensures HasSuffix(Obis.Description(Obis.CurrentL2), "(" + UnitString(DetermineUnit(Obis.CurrentL2)) + ")")
  {
    assert Obis.CurrentL2 == "51" + "." + "7" + "." + "0";
    assert UnitString(Theben.CodeUnit("51", "7")) == "A";
    DescribedUnit(Obis.CurrentL2, "51", "7", "0");
  }

  lemma DescribedCurrentL3()
    ensures HasSuffix(Obis.Description(Obis.CurrentL3), "(" + UnitString(DetermineUnit(Obis.CurrentL3)) + ")")
  {
    assert Obis.CurrentL3 == "71" + "." + "7" + "." + "0";
    assert UnitString(Theben.CodeUnit("71", "7")) == "A";
    DescribedUnit(Obis.CurrentL3, "71", "7", "0");
  }

  lemma DescribedVoltageL1()
    ensures HasSuffix(Obis.Description(Obis.VoltageL1), "(" + UnitString(DetermineUnit(Obis.VoltageL1)) + ")")
  {
    assert Obis.VoltageL1 == "32" + "." + "7" + "." + "0";
    assert UnitString(Theben.CodeUnit("32", "7")) == "V";
    DescribedUnit(Obis.VoltageL1, "32", "7", "0");
  }

  lemma DescribedVoltageL2()
    ensures HasSuffix(Obis.Description(Obis.VoltageL2), "(" + UnitString(DetermineUnit(Obis.VoltageL2)) + ")")
  {
    assert Obis.VoltageL2 == "52" + "." + "7" + "." + "0";
    assert UnitString(Theben.CodeUnit("52", "7")) == "V";
    DescribedUnit(Obis.VoltageL2, "52", "7", "0");
  }

  lemma DescribedVoltageL3()
    ensures HasSuffix(Obis.Description(Obis.VoltageL3), "(" + UnitString(DetermineUnit(Obis.VoltageL3)) + ")")
  {
    assert Obis.VoltageL3 == "72" + "." + "7" + "." + "0";
    assert UnitString(Theben.CodeUnit("72", "7")) == "V";
    DescribedUnit(Obis.VoltageL3, "72", "7", "0");
  }

  lemma DescribedFrequency()
    ensures HasSuffix(Obis.Description(Obis.Frequency), "(" + UnitString(DetermineUnit(Obis.Frequency)) + ")")
  {
    assert Obis.Frequency == "14" + "." + "7" + "." + "0";
    assert UnitString(Theben.CodeUnit("14", "7")) == "Hz";
    DescribedUnit(Obis.Frequency, "14", "7", "0");
  }

  /**
   * For every registry code, the unit named in parentheses at the end of its
   * description is the one PPC's determineUnit gives the code.
   */
  lemma RegistryUnitsAgree()
    ensures forall i :: 0 <= i < |Obis.AllCodes| ==>
      HasSuffix(Obis.Description(Obis.AllCodes[i]), "(" + UnitString(DetermineUnit(Obis.AllCodes[i])) + ")")
  {
    forall i | 0 <= i < |Obis.AllCodes|
      ensures HasSuffix(Obis.Description(Obis.AllCodes[i]), "(" + UnitString(DetermineUnit(Obis.AllCodes[i])) + ")")
    {
      RegistryUnitAgrees(i);
    }
  }

  lemma RegistryUnitAgrees(i: nat)
    requires i < |Obis.AllCodes|
    ensures HasSuffix(Obis.Description(Obis.AllCodes[i]), "(" + UnitString(DetermineUnit(Obis.AllCodes[i])) + ")")
  {
    if i == 0 {
      assert Obis.AllCodes[i] == Obis.EnergyImport;
      DescribedEnergyImport();
    } else if i == 1 {
      assert Obis.AllCodes[i] == Obis.EnergyExport;
      DescribedEnergyExport();
    } else if i == 2 {
      assert Obis.AllCodes[i] == Obis.PowerActive;
      DescribedPowerActive();
    } else if i == 3 {
      assert Obis.AllCodes[i] == Obis.PowerL1;
      DescribedPowerL1();
    } else if i == 4 {
      assert Obis.AllCodes[i] == Obis.PowerL2;
      DescribedPowerL2();
    } else if i == 5 {
      assert Obis.AllCodes[i] == Obis.PowerL3;
      DescribedPowerL3();
    } else if i == 6 {
      assert Obis.AllCodes[i] == Obis.CurrentL1;
      DescribedCurrentL1();
    } else if i == 7 {
      assert Obis.AllCodes[i] == Obis.CurrentL2;
      DescribedCurrentL2();
    } else if i == 8 {
      assert Obis.AllCodes[i] == Obis.CurrentL3;
      DescribedCurrentL3();
    } else if i == 9 {
      assert Obis.AllCodes[i] == Obis.VoltageL1;
      DescribedVoltageL1();
    } else if i == 10 {
      assert Obis.AllCodes[i] == Obis.VoltageL2;
      DescribedVoltageL2();
    } else if i == 11 {
      assert Obis.AllCodes[i] == Obis.VoltageL3;
      DescribedVoltageL3();
    } else {
      assert Obis.AllCodes[i] == Obis.Frequency;
      DescribedFrequency();
    }
  }

  // ---------------------------------------------------------------------------
  // extractTableRows and extractReadings
  // ---------------------------------------------------------------------------

  const TableId := "metervalue"
  const ObisCellId := "table_metervalues_col_obis"
  const ValueCellId := "table_metervalues_col_wert"
  const TimeCellId := "table_metervalues_col_timestamp"

  predicate IsRow(n: Node) {
    n.kind == ElementNode && n.data == "tr"
  }

  /** The reading a row yields: the parsed value as it stands (no scaling), the inferred unit, good quality. */
  function RowReading(obis: string, v: real, timestamp: string, now: Instant, parseTime: string -> Option<Instant>): (rd: Reading)
    ensures rd.obis == obis && rd.value == v && rd.quality == QualityGood
    ensures rd.unit == DetermineUnit(obis) && rd.timestamp == Theben.CaptureTime(timestamp, now, parseTime)
  {
    Reading(v, DetermineUnit(obis), Theben.CaptureTime(timestamp, now, parseTime), obis, QualityGood)
  }

  /** What the closure does at one node before it visits the children. */
  datatype RowStep = PassOn | Abandon | Store(reading: Reading)

  /**
   * A <tr> with non-empty obis and value cells stores its reading under the
   * obis text, unless the value does not parse, which abandons the node and
   * its whole subtree; any other node only passes the map on.
   */
  function StepAt(n: Node, now: Instant, parseFloat: string -> Option<real>, parseTime: string -> Option<Instant>): (s: RowStep)
    ensures s.Store? ==> s.reading.quality == QualityGood && s.reading.obis != "" && TrimSpace(s.reading.obis) == s.reading.obis
  {
    var obis := ExtractCellById(n, ObisCellId);
    var value := ExtractCellById(n, ValueCellId);
    if !IsRow(n) || obis == "" || value == "" then PassOn
    else if parseFloat(value).None? then Abandon
    else Store(RowReading(obis, parseFloat(value).value, ExtractCellById(n, TimeCellId), now, parseTime))
  }

  /** The recursive row walk: the step at `n`, then, unless abandoned, the children left to right. */
  function Rows(m: map<string, Reading>, n: Node, now: Instant, parseFloat: string -> Option<real>,
                parseTime: string -> Option<Instant>): (m': map<string, Reading>)
    ensures WellFormed(m) ==> WellFormed(m')
    decreases n, 1
  {
    match StepAt(n, now, parseFloat, parseTime)
    case Abandon => m
    case PassOn => RowsAll(m, n.children, now, parseFloat, parseTime)
    case Store(rd) =>
      InsertKeepsWellFormed(m, rd);
      RowsAll(m[rd.obis := rd], n.children, now, parseFloat, parseTime)
  }

  function RowsAll(m: map<string, Reading>, cs: seq<Node>, now: Instant, parseFloat: string -> Option<real>,
                   parseTime: string -> Option<Instant>): (m': map<string, Reading>)
    ensures WellFormed(m) ==> WellFormed(m')
    decreases cs, 0
  {
    if cs == [] then m else RowsAll(Rows(m, cs[0], now, parseFloat, parseTime), cs[1..], now, parseFloat, parseTime)
  }

  /** The part of extractTableRows' closure that looks at `n` itself. */
  method ReadRow(n: Node, now: Instant, parseFloat: string -> Option<real>, parseTime: string -> Option<Instant>)
    returns (s: RowStep)
    ensures s == StepAt(n, now, parseFloat, parseTime)
  {
    s := PassOn;
    if IsRow(n) {
      var obis := ExtractCellById(n, ObisCellId);
      var value := ExtractCellById(n, ValueCellId);
      var timestamp := ExtractCellById(n, TimeCellId);
      if obis != "" && value != "" {
        var val := parseFloat(value);
        if val.None? {
          return Abandon;
        }
        var unit := DetermineUnit(obis);
        var ts := now;
        if timestamp != "" {
          var parsed := parseTime(timestamp);
          if parsed.Some? {
            ts := parsed.value;
          }
        }
        s := Store(Reading(val.value, unit, ts, obis, QualityGood));
      }
    }
  }

  /** extractTableRows' closure: the row step on `n`, then the walk of its children in order. */
  method ExtractRow(n: Node, m0: map<string, Reading>, now: Instant, parseFloat: string -> Option<real>,
                    parseTime: string -> Option<Instant>)
    returns (m: map<string, Reading>)
    ensures m == Rows(m0, n, now, parseFloat, parseTime)
    decreases n, 1
  {
    var step := ReadRow(n, now, parseFloat, parseTime);
    match step {
      case Abandon =>
        RowsWhenAbandoned(m0, n, now, parseFloat, parseTime);
        return m0;
      case PassOn =>
        RowsWhenPassedOn(m0, n, now, parseFloat, parseTime);
        m := m0;
      case Store(rd) =>
        RowsWhenStored(m0, n, rd, now, parseFloat, parseTime);
        m := m0[rd.obis := rd];
    }
    m := ExtractChildren(n.children, m, now, parseFloat, parseTime);
  }

  /** The closure's walk over one run of siblings, first to last. */
  method ExtractChildren(cs: seq<Node>, m0: map<string, Reading>, now: Instant, parseFloat: string -> Option<real>,
                         parseTime: string -> Option<Instant>)
    returns (m: map<string, Reading>)
    ensures m == RowsAll(m0, cs, now, parseFloat, parseTime)
    decreases cs, 0
  {
    m := m0;
    var i := 0;
    while i < |cs|
      invariant 0 <= i <= |cs|
      invariant RowsAll(m, cs[i..], now, parseFloat, parseTime) == RowsAll(m0, cs, now, parseFloat, parseTime)
    {
      RowsAllAt(m, cs, i, now, parseFloat, parseTime);
      m := ExtractRow(cs[i], m, now, parseFloat, parseTime);
      i := i + 1;
    }
    assert cs[i..] == [];
  }

  /** Rows at a node whose step abandons it. */
  lemma {:induction false} RowsWhenAbandoned(m: map<string, Reading>, n: Node, now: Instant,
                                             parseFloat: string -> Option<real>, parseTime: string -> Option<Instant>)
    requires StepAt(n, now, parseFloat, parseTime) == Abandon
    ensures Rows(m, n, now, parseFloat, parseTime) == m
  {
  }

  /** Rows at a node whose step passes on to the children. */
  lemma {:induction false} RowsWhenPassedOn(m: map<string, Reading>, n: Node, now: Instant,
                                            parseFloat: string -> Option<real>, parseTime: string -> Option<Instant>)
    requires StepAt(n, now, parseFloat, parseTime) == PassOn
    ensures Rows(m, n, now, parseFloat, parseTime) == RowsAll(m, n.children, now, parseFloat, parseTime)
  {
  }

  /** Rows at a node whose step stores a reading. */
  lemma {:induction false} RowsWhenStored(m: map<string, Reading>, n: Node, rd: Reading, now: Instant,
                                          parseFloat: string -> Option<real>, parseTime: string -> Option<Instant>)
    requires StepAt(n, now, parseFloat, parseTime) == Store(rd)
    ensures Rows(m, n, now, parseFloat, parseTime) == RowsAll(m[rd.obis := rd], n.children, now, parseFloat, parseTime)
  {
    var s := StepAt(n, now, parseFloat, parseTime);
    assert s.Store? && s.reading == rd;
  }

  /** The walk of `cs` from position `i`: the node there, then the rest. */
  lemma {:induction false} RowsAllAt(m: map<string, Reading>, cs: seq<Node>, i: nat, now: Instant,
                                     parseFloat: string -> Option<real>, parseTime: string -> Option<Instant>)
    requires i < |cs|
    ensures RowsAll(m, cs[i..], now, parseFloat, parseTime)
            == RowsAll(Rows(m, cs[i], now, parseFloat, parseTime), cs[i + 1..], now, parseFloat, parseTime)
  {
    assert cs[i..][0] == cs[i] && cs[i..][1..] == cs[i + 1..];
  }

  /** No node of `s` is a <tr>. */
  predicate NoRows(s: seq<Node>) {
    forall i :: 0 <= i < |s| ==> !IsRow(s[i])
  }

  /** No node of `s` stores a reading: each one passes on or abandons. */
  predicate NoStores(s: seq<Node>, now: Instant, parseFloat: string -> Option<real>, parseTime: string -> Option<Instant>) {
    forall i :: 0 <= i < |s| ==> !StepAt(s[i], now, parseFloat, parseTime).Store?
  }

  /** A node that is not a <tr> only passes the map on. */
  lemma NotRowPassesOn(n: Node, now: Instant, parseFloat: string -> Option<real>, parseTime: string -> Option<Instant>)
    requires !IsRow(n)
    ensures StepAt(n, now, parseFloat, parseTime) == PassOn
  {
  }

  /** Nodes without a <tr> among them store nothing. */
  lemma NoRowsNoStores(s: seq<Node>, now: Instant, parseFloat: string -> Option<real>, parseTime: string -> Option<Instant>)
    requires NoRows(s)
    ensures NoStores(s, now, parseFloat, parseTime)
  {
    forall i | 0 <= i < |s| ensures !StepAt(s[i], now, parseFloat, parseTime).Store? {
      NotRowPassesOn(s[i], now, parseFloat, parseTime);
    }
  }

  /**
   * A walk in which no node stores leaves the map as it was: <tr>s with an
   * empty obis or value cell pass it on, and an unparsable value abandons.
   */
  lemma {:induction false} NoRowsNoChange(m: map<string, Reading>, n: Node, now: Instant,
                                          parseFloat: string -> Option<real>, parseTime: string -> Option<Instant>)
    requires NoStores(PreOrder(n), now, parseFloat, parseTime)
    ensures Rows(m, n, now, parseFloat, parseTime) == m
    decreases n, 1
  {
    assert PreOrder(n)[0] == n;
    var s := StepAt(n, now, parseFloat, parseTime);
    if s.Abandon? {
      RowsWhenAbandoned(m, n, now, parseFloat, parseTime);
    } else {
      assert s.PassOn?;
      assert NoStores(PreOrderAll(n.children), now, parseFloat, parseTime) by {
        assert forall i :: 0 <= i < |PreOrderAll(n.children)| ==> PreOrderAll(n.children)[i] == PreOrder(n)[i + 1];
      }
      RowsWhenPassedOn(m, n, now, parseFloat, parseTime);
      NoRowsNoChangeAll(m, n.children, now, parseFloat, parseTime);
    }
  }

  lemma {:induction false} NoRowsNoChangeAll(m: map<string, Reading>, cs: seq<Node>, now: Instant,
                                             parseFloat: string -> Option<real>, parseTime: string -> Option<Instant>)
    requires NoStores(PreOrderAll(cs), now, parseFloat, parseTime)
    ensures RowsAll(m, cs, now, parseFloat, parseTime) == m
    decreases cs, 0
  {
    if cs != [] {
      var a, b := PreOrder(cs[0]), PreOrderAll(cs[1..]);
      assert forall i :: 0 <= i < |a| ==> a[i] == (a + b)[i];
      assert forall i :: 0 <= i < |b| ==> b[i] == (a + b)[|a| + i];
      NoRowsNoChange(m, cs[0], now, parseFloat, parseTime);
      NoRowsNoChangeAll(m, cs[1..], now, parseFloat, parseTime);
    }
  }

  /** The walk never drops a key, and every key it adds is a non-empty, trimmed obis text. */
  lemma {:induction false} RowsKeys(m: map<string, Reading>, n: Node, now: Instant,
                                    parseFloat: string -> Option<real>, parseTime: string -> Option<Instant>)
    ensures m.Keys <= Rows(m, n, now, parseFloat, parseTime).Keys
    ensures forall k :: k in Rows(m, n, now, parseFloat, parseTime) && k !in m ==> k != "" && TrimSpace(k) == k
    decreases n, 1
  {
    var s := StepAt(n, now, parseFloat, parseTime);
    if s.PassOn? {
      RowsAllKeys(m, n.children, now, parseFloat, parseTime);
    } else if s.Store? {
      RowsAllKeys(m[s.reading.obis := s.reading], n.children, now, parseFloat, parseTime);
    }
  }

  lemma {:induction false} RowsAllKeys(m: map<string, Reading>, cs: seq<Node>, now: Instant,
                                       parseFloat: string -> Option<real>, parseTime: string -> Option<Instant>)
    ensures m.Keys <= RowsAll(m, cs, now, parseFloat, parseTime).Keys
    ensures forall k :: k in RowsAll(m, cs, now, parseFloat, parseTime) && k !in m ==> k != "" && TrimSpace(k) == k
    decreases cs, 0
  {
    if cs != [] {
      RowsKeys(m, cs[0], now, parseFloat, parseTime);
      RowsAllKeys(Rows(m, cs[0], now, parseFloat, parseTime), cs[1..], now, parseFloat, parseTime);
    }
  }

  /** The step at `n` stores a reading under `k`. */
  predicate StoresUnder(n: Node, k: string, now: Instant, parseFloat: string -> Option<real>, parseTime: string -> Option<Instant>) {
    StepAt(n, now, parseFloat, parseTime).Store? && StepAt(n, now, parseFloat, parseTime).reading.obis == k
  }

  /** Some node of `s` stores a reading under `k`. */
  predicate StoredIn(s: seq<Node>, k: string, now: Instant, parseFloat: string -> Option<real>, parseTime: string -> Option<Instant>) {
    exists i :: 0 <= i < |s| && StoresUnder(s[i], k, now, parseFloat, parseTime)
  }

  lemma StoredInAppend(a: seq<Node>, b: seq<Node>, k: string, now: Instant,
                       parseFloat: string -> Option<real>, parseTime: string -> Option<Instant>)
    ensures StoredIn(a, k, now, parseFloat, parseTime) ==> StoredIn(a + b, k, now, parseFloat, parseTime)
    ensures StoredIn(b, k, now, parseFloat, parseTime) ==> StoredIn(a + b, k, now, parseFloat, parseTime)
  {
    if StoredIn(a, k, now, parseFloat, parseTime) {
      var i :| 0 <= i < |a| && StoresUnder(a[i], k, now, parseFloat, parseTime);
      assert (a + b)[i] == a[i];
    }
    if StoredIn(b, k, now, parseFloat, parseTime) {
      var i :| 0 <= i < |b| && StoresUnder(b[i], k, now, parseFloat, parseTime);
      assert (a + b)[|a| + i] == b[i];
    }
  }

  /**
   * Every key the walk adds comes from a node of the tree that stores under
   * it: a <tr> whose obis and value cells are non-empty and whose value
   * parses, its obis text being the key.
   */
  lemma {:induction false} RowsOrigin(m: map<string, Reading>, n: Node, k: string, now: Instant,
                                      parseFloat: string -> Option<real>, parseTime: string -> Option<Instant>)
    ensures k in Rows(m, n, now, parseFloat, parseTime) && k !in m ==> StoredIn(PreOrder(n), k, now, parseFloat, parseTime)
    decreases n, 1
  {
    if k in Rows(m, n, now, parseFloat, parseTime) && k !in m {
      StoredInAppend([n], PreOrderAll(n.children), k, now, parseFloat, parseTime);
      var s := StepAt(n, now, parseFloat, parseTime);
      match s {
        case Abandon =>
          RowsWhenAbandoned(m, n, now, parseFloat, parseTime);
        case PassOn =>
          RowsWhenPassedOn(m, n, now, parseFloat, parseTime);
          RowsAllOrigin(m, n.children, k, now, parseFloat, parseTime);
        case Store(rd) =>
          RowsWhenStored(m, n, rd, now, parseFloat, parseTime);
          if k == rd.obis {
            assert StoresUnder([n][0], k, now, parseFloat, parseTime);
          } else {
            RowsAllOrigin(m[rd.obis := rd], n.children, k, now, parseFloat, parseTime);
          }
      }
    }
  }

  lemma {:induction false} RowsAllOrigin(m: map<string, Reading>, cs: seq<Node>, k: string, now: Instant,
                                         parseFloat: string -> Option<real>, parseTime: string -> Option<Instant>)
    ensures k in RowsAll(m, cs, now, parseFloat, parseTime) && k !in m ==> StoredIn(PreOrderAll(cs), k, now, parseFloat, parseTime)
    decreases cs, 0
  {
    if cs != [] && k in RowsAll(m, cs, now, parseFloat, parseTime) && k !in m {
      var m1 := Rows(m, cs[0], now, parseFloat, parseTime);
      assert RowsAll(m, cs, now, parseFloat, parseTime) == RowsAll(m1, cs[1..], now, parseFloat, parseTime);
      StoredInAppend(PreOrder(cs[0]), PreOrderAll(cs[1..]), k, now, parseFloat, parseTime);
      if k in m1 {
        RowsOrigin(m, cs[0], k, now, parseFloat, parseTime);
      } else {
        RowsAllOrigin(m1, cs[1..], k, now, parseFloat, parseTime);
      }
    }
  }

  /**
   * A row whose value does not parse ends the walk there: the rows nested
   * below it are not visited, whatever they hold.
   */
  lemma {:induction false} UnparsableRowAbandonsSubtree(m: map<string, Reading>, n: Node, now: Instant,
                                                       parseFloat: string -> Option<real>, parseTime: string -> Option<Instant>)
    requires IsRow(n) && ExtractCellById(n, ObisCellId) != "" && ExtractCellById(n, ValueCellId) != ""
    requires parseFloat(ExtractCellById(n, ValueCellId)).None?
    ensures Rows(m, n, now, parseFloat, parseTime) == m
  {
    assert StepAt(n, now, parseFloat, parseTime) == Abandon;
    RowsWhenAbandoned(m, n, now, parseFloat, parseTime);
  }

  /**
   * A row with no row nested in it stores the parsed value unscaled under
   * its obis text, with the inferred unit and its time stamp (now when the
   * cell is empty or does not parse).
   */
  lemma {:induction false} RowStoresUnscaled(m: map<string, Reading>, n: Node, now: Instant,
                          parseFloat: string -> Option<real>, parseTime: string -> Option<Instant>)
    requires IsRow(n) && ExtractCellById(n, ObisCellId) != "" && ExtractCellById(n, ValueCellId) != ""
    requires parseFloat(ExtractCellById(n, ValueCellId)).Some?
    requires NoRows(PreOrderAll(n.children))
    ensures var obis := ExtractCellById(n, ObisCellId);
      Rows(m, n, now, parseFloat, parseTime)
      == m[obis := Reading(parseFloat(ExtractCellById(n, ValueCellId)).value, DetermineUnit(obis),
                           Theben.CaptureTime(ExtractCellById(n, TimeCellId), now, parseTime), obis, QualityGood)]
  {
    var obis := ExtractCellById(n, ObisCellId);
    var rd := RowReading(obis, parseFloat(ExtractCellById(n, ValueCellId)).value, ExtractCellById(n, TimeCellId), now, parseTime);
    StoringRowStep(m, n, now, parseFloat, parseTime);
    NoRowsNoStores(PreOrderAll(n.children), now, parseFloat, parseTime);
    NoRowsNoChangeAll(m[obis := rd], n.children, now, parseFloat, parseTime);
  }

  /** A complete row whose value parses stores its reading, then walks its children. */
  lemma {:induction false} StoringRowStep(m: map<string, Reading>, n: Node, now: Instant,
                                         parseFloat: string -> Option<real>, parseTime: string -> Option<Instant>)
    requires IsRow(n) && ExtractCellById(n, ObisCellId) != "" && ExtractCellById(n, ValueCellId) != ""
    requires parseFloat(ExtractCellById(n, ValueCellId)).Some?
    ensures var obis := ExtractCellById(n, ObisCellId);
      var rd := RowReading(obis, parseFloat(ExtractCellById(n, ValueCellId)).value, ExtractCellById(n, TimeCellId), now, parseTime);
      Rows(m, n, now, parseFloat, parseTime) == RowsAll(m[obis := rd], n.children, now, parseFloat, parseTime)
  {
    var obis := ExtractCellById(n, ObisCellId);
    var rd := RowReading(obis, parseFloat(ExtractCellById(n, ValueCellId)).value, ExtractCellById(n, TimeCellId), now, parseTime);
    assert StepAt(n, now, parseFloat, parseTime) == Store(rd);
    RowsWhenStored(m, n, rd, now, parseFloat, parseTime);
  }

  /** Walking two runs of siblings is walking the first, then the second. */
  lemma {:induction false} RowsAllAppend(m: map<string, Reading>, a: seq<Node>, b: seq<Node>, now: Instant,
                                         parseFloat: string -> Option<real>, parseTime: string -> Option<Instant>)
    ensures RowsAll(m, a + b, now, parseFloat, parseTime)
            == RowsAll(RowsAll(m, a, now, parseFloat, parseTime), b, now, parseFloat, parseTime)
    decreases |a|
  {
    if a == [] {
      assert a + b == b;
    } else {
      assert (a + b)[0] == a[0];
      assert (a + b)[1..] == a[1..] + b;
      RowsAllAppend(Rows(m, a[0], now, parseFloat, parseTime), a[1..], b, now, parseFloat, parseTime);
    }
  }

  /** Of sibling rows with the same obis text, the later one wins. */
  lemma {:induction false} LaterRowOverwrites(m: map<string, Reading>, cs: seq<Node>, row: Node, now: Instant,
                                             parseFloat: string -> Option<real>, parseTime: string -> Option<Instant>)
    requires IsRow(row) && ExtractCellById(row, ObisCellId) != "" && ExtractCellById(row, ValueCellId) != ""
    requires parseFloat(ExtractCellById(row, ValueCellId)).Some?
    requires NoRowFor(PreOrderAll(row.children), ExtractCellById(row, ObisCellId))
    ensures var obis := ExtractCellById(row, ObisCellId);
      && obis in RowsAll(m, cs + [row], now, parseFloat, parseTime)
      && RowsAll(m, cs + [row], now, parseFloat, parseTime)[obis]
         == RowReading(obis, parseFloat(ExtractCellById(row, ValueCellId)).value, ExtractCellById(row, TimeCellId), now, parseTime)
  {
    var obis := ExtractCellById(row, ObisCellId);
    var rd := RowReading(obis, parseFloat(ExtractCellById(row, ValueCellId)).value, ExtractCellById(row, TimeCellId), now, parseTime);
    var before := RowsAll(m, cs, now, parseFloat, parseTime);
    RowsAllAppend(m, cs, [row], now, parseFloat, parseTime);
    assert [row][1..] == [];
    assert RowsAll(before, [row], now, parseFloat, parseTime) == Rows(before, row, now, parseFloat, parseTime);
    StoringRowStep(before, row, now, parseFloat, parseTime);
    RowsAllKeepsKey(before[obis := rd], row.children, obis, now, parseFloat, parseTime);
  }

  /** No row in `s` has `k` as its obis text. */
  predicate NoRowFor(s: seq<Node>, k: string) {
    forall i :: 0 <= i < |s| ==> !(IsRow(s[i]) && ExtractCellById(s[i], ObisCellId) == k)
  }

  /** A walk over a tree without a row for `k` leaves the reading under `k` as it was. */
  lemma {:induction false} RowsKeepsKey(m: map<string, Reading>, n: Node, k: string, now: Instant,
                                        parseFloat: string -> Option<real>, parseTime: string -> Option<Instant>)
    requires k in m && NoRowFor(PreOrder(n), k)
    ensures k in Rows(m, n, now, parseFloat, parseTime) && Rows(m, n, now, parseFloat, parseTime)[k] == m[k]
    decreases n, 1
  {
    assert PreOrder(n)[0] == n;
    assert NoRowFor(PreOrderAll(n.children), k) by {
      assert forall i :: 0 <= i < |PreOrderAll(n.children)| ==> PreOrderAll(n.children)[i] == PreOrder(n)[i + 1];
    }
    var s := StepAt(n, now, parseFloat, parseTime);
    match s {
      case Abandon =>
        RowsWhenAbandoned(m, n, now, parseFloat, parseTime);
      case PassOn =>
        RowsWhenPassedOn(m, n, now, parseFloat, parseTime);
        RowsAllKeepsKey(m, n.children, k, now, parseFloat, parseTime);
      case Store(rd) =>
        StoredUnderObisCell(n, rd, now, parseFloat, parseTime);
        RowsWhenStored(m, n, rd, now, parseFloat, parseTime);
        RowsAllKeepsKey(m[rd.obis := rd], n.children, k, now, parseFloat, parseTime);
    }
  }

  /** A stored reading is keyed by the row's obis cell. */
  lemma StoredUnderObisCell(n: Node, rd: Reading, now: Instant,
                            parseFloat: string -> Option<real>, parseTime: string -> Option<Instant>)
    requires StepAt(n, now, parseFloat, parseTime) == Store(rd)
    ensures IsRow(n) && rd.obis == ExtractCellById(n, ObisCellId)
  {
    var obis := ExtractCellById(n, ObisCellId);
    var value := ExtractCellById(n, ValueCellId);
    assert IsRow(n) && obis != "" && value != "" && parseFloat(value).Some?;
    assert rd == RowReading(obis, parseFloat(value).value, ExtractCellById(n, TimeCellId), now, parseTime);
  }

  lemma {:induction false} RowsAllKeepsKey(m: map<string, Reading>, cs: seq<Node>, k: string, now: Instant,
                                           parseFloat: string -> Option<real>, parseTime: string -> Option<Instant>)
    requires k in m && NoRowFor(PreOrderAll(cs), k)
    ensures k in RowsAll(m, cs, now, parseFloat, parseTime) && RowsAll(m, cs, now, parseFloat, parseTime)[k] == m[k]
    decreases cs, 0
  {
    if cs != [] {
      var a, b := PreOrder(cs[0]), PreOrderAll(cs[1..]);
      assert forall i :: 0 <= i < |a| ==> a[i] == (a + b)[i];
      assert forall i :: 0 <= i < |b| ==> b[i] == (a + b)[|a| + i];
      RowsKeepsKey(m, cs[0], k, now, parseFloat, parseTime);
      RowsAllKeepsKey(Rows(m, cs[0], now, parseFloat, parseTime), cs[1..], k, now, parseFloat, parseTime);
    }
  }

  /** extractReadings: the rows of the first element with id "metervalue", or no readings when there is none. */
  function PageReadings(doc: Node, now: Instant, parseFloat: string -> Option<real>,
                        parseTime: string -> Option<Instant>): (m: map<string, Reading>)
    ensures WellFormed(m)
    ensures FindById(doc, TableId).None? ==> m == map[]
  {
    match FindById(doc, TableId)
    case None => map[]
    case Some(table) => Rows(map[], table, now, parseFloat, parseTime)
  }

  /** extractReadings and extractTableRows: an empty map filled by the row walk of the table. */
  method ExtractReadings(doc: Node, now: Instant, parseFloat: string -> Option<real>,
                         parseTime: string -> Option<Instant>)
    returns (readings: map<string, Reading>)
    ensures readings == PageReadings(doc, now, parseFloat, parseTime)
  {
    readings := map[];
    var table := FindById(doc, TableId);
    if table.None? {
      return;
    }
    readings := ExtractRow(table.value, readings, now, parseFloat, parseTime);
  }

  /** getMeterProfile: a failed request passes its error through; a page without readings is an error. */
  function GetMeterProfile(page: Result<Node, Error>, now: Instant, parseFloat: string -> Option<real>,
                           parseTime: string -> Option<Instant>): (r: Result<map<string, Reading>, Error>)
    ensures page.Failure? ==> r == Failure(page.error)
    ensures page.Success? && PageReadings(page.value, now, parseFloat, parseTime) == map[] ==> r == Failure(Fail("no readings found"))
    ensures r.Success? ==> page.Success? && |r.value| > 0 && WellFormed(r.value)
                           && r.value == PageReadings(page.value, now, parseFloat, parseTime)
    ensures page.Success? && PageReadings(page.value, now, parseFloat, parseTime) != map[] ==>
              r == Success(PageReadings(page.value, now, parseFloat, parseTime))
  {
    if page.Failure? then Failure(page.error)
    else
      var readings := PageReadings(page.value, now, parseFloat, parseTime);
      if |readings| == 0 then Failure(Fail("no readings found")) else Success(readings)
  }

  // ---------------------------------------------------------------------------
  // The client and its cached meter id
  // ---------------------------------------------------------------------------

  class Client {
    var baseURL: string
    var username: string
    var password: string
    /** The meter id; empty until discovered or set. */
    var meterID: string

    constructor(baseURL: string, username: string, password: string)
      ensures this.baseURL == baseURL && this.username == username && this.password == password
      ensures meterID == ""
    {
      this.baseURL := baseURL;
      this.username := username;
      this.password := password;
      meterID := "";
    }

    /**
     * GetReadings: the meter id is looked up only when none is cached, and
     * cached; the profile is requested for the cached id and must hold at
     * least one reading.
     */
    method GetReadings(meterPage: Result<Node, Error>, profile: string -> Result<Node, Error>, now: Instant,
                       parseFloat: string -> Option<real>, parseTime: string -> Option<Instant>)
      returns (r: Result<Information, Error>)
      modifies this`meterID
      ensures old(meterID) != "" ==> meterID == old(meterID)
      ensures old(meterID) == "" && GetMeterID(meterPage).Failure? ==>
                r == Failure(Wrap("failed to get meter ID", GetMeterID(meterPage).error)) && meterID == old(meterID)
      ensures old(meterID) == "" && GetMeterID(meterPage).Success? ==> meterID == GetMeterID(meterPage).value
      ensures ((old(meterID) != "" || GetMeterID(meterPage).Success?)
               && GetMeterProfile(profile(meterID), now, parseFloat, parseTime).Failure?) ==>
                r == Failure(Wrap("failed to get meter profile", GetMeterProfile(profile(meterID), now, parseFloat, parseTime).error))
      ensures r.Success? ==> && GetMeterProfile(profile(meterID), now, parseFloat, parseTime).Success?
                             && r.value == Information(meterID, "PPC SMGW", "PPC", "", now,
                                                       GetMeterProfile(profile(meterID), now, parseFloat, parseTime).value)
                             && |r.value.readings| > 0
      ensures ((old(meterID) != "" || GetMeterID(meterPage).Success?)
               && GetMeterProfile(profile(meterID), now, parseFloat, parseTime).Success?) ==> r.Success?
    {
      if meterID == "" {
        var id := GetMeterID(meterPage);
        if id.Failure? {
          return Failure(Wrap("failed to get meter ID", id.error));
        }
        meterID := id.value;
      }
      var readings := GetMeterProfile(profile(meterID), now, parseFloat, parseTime);
      if readings.Failure? {
        return Failure(Wrap("failed to get meter profile", readings.error));
      }
      return Success(Information(meterID, "PPC SMGW", "PPC", "", now, readings.value));
    }

    /** DiscoverMeterID: always asks the gateway, and caches the id it found. */
    method DiscoverMeterID(meterPage: Result<Node, Error>) returns (r: Result<string, Error>)
      modifies this`meterID
      ensures r == GetMeterID(meterPage)
      ensures r.Success? ==> meterID == r.value
      ensures r.Failure? ==> meterID == old(meterID)
    {
      r := GetMeterID(meterPage);
      if r.Success? {
        meterID := r.value;
      }
    }

    /** MeterID: the cached id, discovering it when empty and ignoring discovery's error. */
    method MeterID(meterPage: Result<Node, Error>) returns (id: string)
      modifies this`meterID
      ensures id == meterID
      ensures old(meterID) != "" ==> id == old(meterID)
      ensures old(meterID) == "" && GetMeterID(meterPage).Success? ==> id == GetMeterID(meterPage).value
      ensures old(meterID) == "" && GetMeterID(meterPage).Failure? ==> id == ""
    {
      if meterID == "" {
        var _ := DiscoverMeterID(meterPage);
      }
      return meterID;
    }

    method SetMeterID(id: string)
      modifies this`meterID
      ensures meterID == id
    {
      meterID := id;
    }
  }

  /** NewClient: the same checks and scheme default as Theben's constructor. */
  method NewClient(baseURL: string, username: string, password: string) returns (r: Result<Client, Error>)
    ensures Theben.ValidateConfig(baseURL, username, password).Failure? ==>
              r == Failure(Theben.ValidateConfig(baseURL, username, password).error)
    ensures r.Success? ==> fresh(r.value) && r.value.baseURL == Theben.ValidateConfig(baseURL, username, password).value
                           && r.value.meterID == ""
    ensures Theben.ValidateConfig(baseURL, username, password).Success? ==> r.Success?
  {
    var url := Theben.ValidateConfig(baseURL, username, password);
    if url.Failure? {
      return Failure(url.error);
    }
    var c := new Client(url.value, username, password);
    return Success(c);
  }
}
