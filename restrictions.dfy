/**
  Property restrictions: `add_restriction`, which builds an anonymous
  owl:Restriction node and hangs it under a class, `get_restrictions`, which
  reads them back, and `delete_restriction`, which detaches one.
*/
module Restrictions {
  import opened Wrappers
  import opened Rdf
  import opened Vocab
  import opened Naming
  import opened Bags
  import opened Entities
  import opened Views

  /** The value argument: a name or text, or a number. */
  datatype RestrictionValue = Name(text: string) | Count(n: nat)

  // ---------------------------------------------------------------------------
  // int() of a text

  predicate IsDigit(ch: char) {
    '0' <= ch <= '9'
  }

  function DigitsValue(s: string): nat
    requires forall i | 0 <= i < |s| :: IsDigit(s[i])
    decreases |s|
  {
    if s == [] then 0 else
      assert IsDigit(s[|s| - 1]);
      DigitsValue(s[..|s| - 1]) * 10 + (s[|s| - 1] as int - '0' as int)
  }

  /** `int(s)` for a text made of decimal digits only; any other text raises. */
  function ParseNat(s: string): (r: Option<nat>)
    ensures r.Some? <==> s != [] && forall i | 0 <= i < |s| :: IsDigit(s[i])
  {
    if s != [] && forall i | 0 <= i < |s| :: IsDigit(s[i]) then Some(DigitsValue(s)) else None
  }

  lemma DigitCharValue(d: nat)
    requires d < 10
    ensures IsDigit(DigitChar(d)) && DigitChar(d) as int - '0' as int == d
  {
    assert d == 0 || d == 1 || d == 2 || d == 3 || d == 4 || d == 5 || d == 6 || d == 7 || d == 8 || d == 9;
  }

  /** `int(str(n)) == n`: the numeral of a count parses back to it. */
  lemma {:induction false} ParseNumeral(n: nat)
    ensures ParseNat(NatToString(n)) == Some(n)
    decreases n
  {
    var s := NatToString(n);
    if n < 10 {
      DigitCharValue(n);
      assert s == [DigitChar(n)] && s[..0] == [];
      assert IsDigit(s[0]);
      assert DigitsValue(s) == DigitsValue(s[..0]) * 10 + (s[0] as int - '0' as int);
    } else {
      ParseNumeral(n / 10);
      DigitCharValue(n % 10);
      var init := NatToString(n / 10);
      assert s == init + [DigitChar(n % 10)];
      assert s[..|s| - 1] == init;
      assert forall i | 0 <= i < |s| :: IsDigit(s[i]) by {
        forall i | 0 <= i < |s| ensures IsDigit(s[i]) {
          if i < |init| { assert s[i] == init[i]; }
        }
      }
    }
  }

  // ---------------------------------------------------------------------------
  // add_restriction

  predicate ClassValued(kind: string) {
    kind == "someValuesFrom" || kind == "allValuesFrom"
  }

  predicate Unqualified(kind: string) {
    kind == "minCardinality" || kind == "maxCardinality" || kind == "exactCardinality"
  }

  predicate Qualified(kind: string) {
    kind == "minQualifiedCardinality" || kind == "maxQualifiedCardinality" || kind == "qualifiedCardinality"
  }

  /** `Literal(n, datatype=XSD.nonNegativeInteger)`. */
  function CountLiteral(n: nat): Node {
    Lit(NatToString(n), None, Some(XsdNonNegativeInteger))
  }

  /**
    The object of the kind's triple. A class-valued kind resolves its value
    as a name; `hasValue` keeps a text that does not start with "http" as a
    literal and resolves any other; the cardinalities take `int(value)`. A
    number where a name is resolved raises AttributeError (a number has no
    `startswith`), a non-numeral under a cardinality raises ValueError.
  */
  function Filler(base: string, kind: string, v: RestrictionValue): (r: Result<Node, Raised>)
    requires ClassValued(kind) || kind == "hasValue" || Unqualified(kind) || Qualified(kind)
    ensures ClassValued(kind) && v.Name? ==> r == Ok(Uri(base, v.text))
    ensures kind == "hasValue" && v.Name? ==> r == Ok(if "http" <= v.text then Uri(base, v.text) else Text(v.text))
    ensures (ClassValued(kind) || kind == "hasValue") && v.Count? ==> r == Err(AttributeError)
    ensures (Unqualified(kind) || Qualified(kind)) && v.Count? ==> r == Ok(CountLiteral(v.n))
    ensures (Unqualified(kind) || Qualified(kind)) && v.Name? ==>
      r == if ParseNat(v.text).Some? then Ok(CountLiteral(ParseNat(v.text).value))
           else Err(ValueError("invalid literal for int() with base 10: '" + v.text + "'"))
  {
    if ClassValued(kind) then
      if v.Name? then Ok(Uri(base, v.text)) else Err(AttributeError)
    else if kind == "hasValue" then
      if v.Count? then Err(AttributeError)
      else if "http" <= v.text then Ok(Uri(base, v.text))
      else Ok(Text(v.text))
    else
      match v
      case Count(n) => Ok(CountLiteral(n))
      case Name(s) =>
        var n := ParseNat(s);
        if n.Some? then Ok(CountLiteral(n.value))
        else Err(ValueError("invalid literal for int() with base 10: '" + s + "'"))
  }

  /** Every table key is one of the kinds Filler knows how to fill. */
  lemma KindsCovered(kind: string)
    requires Lookup(RestrictionKinds, kind).Some?
    ensures ClassValued(kind) || kind == "hasValue" || Unqualified(kind) || Qualified(kind)
  {
  }

  /** The two triples `add_restriction` adds before it looks at the kind. */
  function Head(b: Node, p: Node): set<Triple> {
    {Triple(b, Type, Restriction), Triple(b, OnProperty, p)}
  }

  /** The triples of a well-formed restriction `b` on property `p`, hung under class `c`. */
  function Body(b: Node, c: Node, pred: Node, filler: Node, onClass: Option<Node>): set<Triple> {
    {Triple(b, pred, filler)}
      + (if onClass.Some? then {Triple(b, OnClass, onClass.value)} else {})
      + {Triple(c, SubClassOf, b)}
  }

  /** The qualifying class, for a qualified kind when one is given. */
  function QualifyingClass(base: string, kind: string, onClass: Option<string>): Option<Node> {
    if Qualified(kind) && Given(onClass) then Some(Uri(base, onClass.value)) else None
  }

  /**
    `add_restriction(class_name, property_name, restriction_type, value,
    on_class)` with `b` the new anonymous node. The type and onProperty
    triples are added first and stay in the graph when the kind is unknown or
    the value cannot be used.
  */
  function AddRestriction(g: set<Triple>, base: string, b: Node, className: string, propertyName: string,
                          kind: string, value: RestrictionValue, onClass: Option<string>): (o: Outcome<Node>)
    ensures g + Head(b, Uri(base, propertyName)) <= o.graph
    ensures o.result.Err? ==> o.graph == g + Head(b, Uri(base, propertyName))
    ensures Lookup(RestrictionKinds, kind).None? ==>
      o.result == Err(ValueError("Unknown restriction type: " + kind))
    ensures o.result.Ok? <==>
      && Lookup(RestrictionKinds, kind).Some?
      && !((ClassValued(kind) || kind == "hasValue") && value.Count?)
      && !((Unqualified(kind) || Qualified(kind)) && value.Name? && ParseNat(value.text).None?)
    ensures o.result.Ok? ==>
      && o.result.value == b
      && Triple(Uri(base, className), SubClassOf, b) in o.graph
      && Triple(b, Lookup(RestrictionKinds, kind).value, Filler(base, kind, value).value) in o.graph
      && (QualifyingClass(base, kind, onClass).Some? ==>
            Triple(b, OnClass, QualifyingClass(base, kind, onClass).value) in o.graph)
  {
    var g1 := g + Head(b, Uri(base, propertyName));
    var pred := Lookup(RestrictionKinds, kind);
    if pred.None? then Outcome(g1, Err(ValueError("Unknown restriction type: " + kind)))
    else
      KindsCovered(kind);
      var filler := Filler(base, kind, value);
      if filler.Err? then Outcome(g1, Err(filler.error))
      else
        var d := Body(b, Uri(base, className), pred.value, filler.value, QualifyingClass(base, kind, onClass));
        Outcome(g1 + d, Ok(b))
  }

  // ---------------------------------------------------------------------------
  // get_restrictions

  datatype RestrictionInfo = RestrictionInfo(property: string, kind: Option<string>, value: Option<string>,
                                             onClass: Option<string>, appliedTo: multiset<string>)

  /** The first entry of the kind table whose predicate `r` has a value for. */
  function FirstKind(g: set<Triple>, r: Node, table: Table): (k: Option<(string, Node)>)
    ensures k.Some? ==> Objects(g, r, k.value.1) != {}
    decreases |table|
  {
    if table == [] then None
    else if Objects(g, r, table[0].1) != {} then Some(table[0])
    else FirstKind(g, r, table[1..])
  }

  /** How a restriction's value is shown: the local name of an IRI, the text of anything else. */
  function Display(n: Node): string {
    if n.Iri? then LocalName(n.iri) else Str(n)
  }

  /** The local names of the named classes the restriction is hung under. */
  ghost function AppliedTo(g: set<Triple>, r: Node): multiset<string> {
    Bag((set x | x in Subjects(g, SubClassOf, r) && x.Iri?), NameOf)
  }

  ghost function RestrictionInfoOf(g: set<Triple>, r: Node): RestrictionInfo {
    var p := Value(g, r, OnProperty);
    var k := FirstKind(g, r, RestrictionKinds);
    var oc := Value(g, r, OnClass);
    RestrictionInfo(
      if p.Some? then NameOf(p.value) else "",
      if k.Some? then Some(k.value.0) else None,
      if k.Some? then Some(Display(Value(g, r, k.value.1).value)) else None,
      if oc.Some? && Truthy(oc.value) then Some(NameOf(oc.value)) else None,
      AppliedTo(g, r))
  }

  /** The restrictions get_restrictions lists: typed owl:Restriction, with a truthy onProperty, passing the filter. */
  ghost function Listed(g: set<Triple>, classFilter: Option<string>): set<Node> {
    set r | r in Subjects(g, Type, Restriction)
      && Value(g, r, OnProperty).Some? && Truthy(Value(g, r, OnProperty).value)
      && (classFilter.None? || classFilter.value in AppliedTo(g, r))
  }

  /** `get_restrictions(class_name)`. */
  ghost function GetRestrictions(g: set<Triple>, classFilter: Option<string>): multiset<RestrictionInfo> {
    Bag(Listed(g, classFilter), r => RestrictionInfoOf(g, r))
  }

  // ---------------------------------------------------------------------------
  // delete_restriction

  /**
    The restrictions delete_restriction may pick: typed owl:Restriction, on
    the property, hung under the class, and with a value for a known kind.
  */
  function Candidates(g: set<Triple>, c: Node, p: Node, kind: string): set<Node> {
    var pred := Lookup(RestrictionKinds, kind);
    set r | r in Subjects(g, Type, Restriction)
      && Triple(r, OnProperty, p) in g
      && Triple(c, SubClassOf, r) in g
      && pred.Some? && Objects(g, r, pred.value) != {}
  }

  /** Detaching restriction `r` from class `c`: the subClassOf link and every triple about `r` go. */
  function Detach(g: set<Triple>, c: Node, r: Node): (h: set<Triple>)
    ensures h <= g
    ensures forall t | t in g :: t in h <==> t != Triple(c, SubClassOf, r) && t.s != r
  {
    Remove(g - {Triple(c, SubClassOf, r)}, Pattern(Some(r), None, None))
  }

  // ---------------------------------------------------------------------------
  // Round trips

  /** No two kinds share a predicate, and none of them is a predicate the restriction node also carries. */
  lemma KindTableShape()
    ensures forall i, j | 0 <= i < j < |RestrictionKinds| :: RestrictionKinds[i].1 != RestrictionKinds[j].1
    ensures forall i | 0 <= i < |RestrictionKinds| ::
      && RestrictionKinds[i].1 != Type && RestrictionKinds[i].1 != OnProperty
      && RestrictionKinds[i].1 != OnClass && RestrictionKinds[i].1 != SubClassOf
  {
  }

  /** The predicate of a known kind is none of the other predicates a restriction node carries. */
  lemma KindPredicate(kind: string, pred: Node)
    requires Lookup(RestrictionKinds, kind) == Some(pred)
    ensures pred != Type && pred != OnProperty && pred != OnClass && pred != SubClassOf
  {
    KindTableShape();
  }

  lemma {:induction false} FirstKindAt(g: set<Triple>, r: Node, table: Table, i: nat)
    requires i < |table|
    requires Objects(g, r, table[i].1) != {}
    requires forall j | 0 <= j < i :: Objects(g, r, table[j].1) == {}
    ensures FirstKind(g, r, table) == Some(table[i])
    decreases i
  {
    if i > 0 {
      assert Objects(g, r, table[0].1) == {};
      var rest := table[1..];
      assert rest[i - 1] == table[i];
      assert forall j | 0 <= j < i - 1 :: rest[j] == table[j + 1];
      FirstKindAt(g, r, rest, i - 1);
    }
  }

  /** A successful `add_restriction` adds exactly the head and the body of the new restriction. */
  lemma AddedRestriction(g: set<Triple>, base: string, b: Node, className: string, propertyName: string,
                         kind: string, value: RestrictionValue, onClass: Option<string>)
    requires AddRestriction(g, base, b, className, propertyName, kind, value, onClass).result.Ok?
    ensures AddRestriction(g, base, b, className, propertyName, kind, value, onClass).graph
        == g + Head(b, Uri(base, propertyName))
             + Body(b, Uri(base, className), Lookup(RestrictionKinds, kind).value,
                    Filler(base, kind, value).value, QualifyingClass(base, kind, onClass))
  {
    KindsCovered(kind);
  }

  /** The slices of a restriction node no earlier triple mentions. */
  lemma RestrictionSlices(g: set<Triple>, b: Node, c: Node, p: Node, pred: Node, filler: Node, qc: Option<Node>)
    requires b.BNode? && c != b && Fresh(g, b)
    requires pred != Type && pred != OnProperty && pred != OnClass && pred != SubClassOf
    ensures var h := g + Head(b, p) + Body(b, c, pred, filler, qc);
      && b in Subjects(h, Type, Restriction)
      && Objects(h, b, OnProperty) == {p}
      && Objects(h, b, OnClass) == (if qc.Some? then {qc.value} else {})
      && Subjects(h, SubClassOf, b) == {c}
      && Objects(h, b, pred) == {filler}
      && forall q | q != pred && q != Type && q != OnProperty && q != OnClass :: Objects(h, b, q) == {}
  {
    var d := Head(b, p) + Body(b, c, pred, filler, qc);
    assert g + Head(b, p) + Body(b, c, pred, filler, qc) == g + d;
    FreshSlices(g, d, b, OnProperty);
    FreshSlices(g, d, b, OnClass);
    FreshSlices(g, d, b, SubClassOf);
    FreshSlices(g, d, b, pred);
    forall q | q != pred && q != Type && q != OnProperty && q != OnClass
      ensures Objects(g + d, b, q) == {}
    {
      FreshSlices(g, d, b, q);
    }
  }

  /** The kind get_restrictions reports for a restriction carrying one kind predicate only. */
  lemma ReportedKind(h: set<Triple>, b: Node, kind: string, pred: Node)
    requires Lookup(RestrictionKinds, kind) == Some(pred)
    requires Objects(h, b, pred) != {}
    requires forall q | q != pred && q != Type && q != OnProperty && q != OnClass :: Objects(h, b, q) == {}
    ensures FirstKind(h, b, RestrictionKinds) == Some((kind, pred))
  {
    KindTableShape();
    var i :| 0 <= i < |RestrictionKinds| && RestrictionKinds[i] == (kind, pred);
    forall j | 0 <= j < i ensures Objects(h, b, RestrictionKinds[j].1) == {} {
      assert RestrictionKinds[j].1 != pred;
    }
    FirstKindAt(h, b, RestrictionKinds, i);
  }

  /** The record get_restrictions builds for a restriction node no earlier triple mentions. */
  lemma RestrictionRecord(g: set<Triple>, b: Node, c: Node, p: Node, kind: string, pred: Node, filler: Node,
                          qc: Option<Node>)
    requires b.BNode? && c.Iri? && Fresh(g, b) && Truthy(p)
    requires Lookup(RestrictionKinds, kind) == Some(pred)
    requires qc.Some? ==> Truthy(qc.value)
    ensures var h := g + Head(b, p) + Body(b, c, pred, filler, qc);
      && b in Listed(h, Some(NameOf(c)))
      && RestrictionInfoOf(h, b)
         == RestrictionInfo(NameOf(p), Some(kind), Some(Display(filler)),
                            if qc.Some? then Some(NameOf(qc.value)) else None, multiset{NameOf(c)})
  {
    var h := g + Head(b, p) + Body(b, c, pred, filler, qc);
    KindPredicate(kind, pred);
    RestrictionSlices(g, b, c, p, pred, filler, qc);
    ReportedKind(h, b, kind, pred);
    ValueOfSingle(h, b, pred, filler);
    ValueOfSingle(h, b, OnProperty, p);
    if qc.Some? {
      ValueOfSingle(h, b, OnClass, qc.value);
    }
    assert (set x | x in Subjects(h, SubClassOf, b) && x.Iri?) == {c};
    BagSingle(c, NameOf);
    assert AppliedTo(h, b) == multiset{NameOf(c)};
  }

  /** Detaching a restriction drops exactly what was added for it. */
  lemma DetachAdded(g: set<Triple>, d: set<Triple>, c: Node, b: Node)
    requires Fresh(g, b)
    requires forall t | t in d :: t.s == b || t == Triple(c, SubClassOf, b)
    ensures Detach(g + d, c, b) == g
  {
    assert Triple(c, SubClassOf, b) !in g;
  }

  /**
    `add_restriction` then `get_restrictions(class_name)`: a new restriction
    is listed with the property's local name, the kind asked for, its value
    as shown, the qualifying class when one applies, and the class as the one
    it is applied to.
  */
  lemma AddThenGetRestrictions(g: set<Triple>, base: string, b: Node, className: string, propertyName: string,
                               kind: string, value: RestrictionValue, onClass: Option<string>)
    requires b.BNode? && Fresh(g, b)
    requires Truthy(Uri(base, propertyName))
    requires AddRestriction(g, base, b, className, propertyName, kind, value, onClass).result.Ok?
    ensures var h := AddRestriction(g, base, b, className, propertyName, kind, value, onClass).graph;
      var qc := QualifyingClass(base, kind, onClass);
      RestrictionInfo(NameOf(Uri(base, propertyName)), Some(kind), Some(Display(Filler(base, kind, value).value)),
                      if qc.Some? then Some(NameOf(qc.value)) else None,
                      multiset{NameOf(Uri(base, className))})
        in GetRestrictions(h, Some(NameOf(Uri(base, className))))
  {
    KindsCovered(kind);
    var h := AddRestriction(g, base, b, className, propertyName, kind, value, onClass).graph;
    var pred := Lookup(RestrictionKinds, kind).value;
    var filler := Filler(base, kind, value).value;
    var qc := QualifyingClass(base, kind, onClass);
    var c := Uri(base, className);
    AddedRestriction(g, base, b, className, propertyName, kind, value, onClass);
    RestrictionRecord(g, b, c, Uri(base, propertyName), kind, pred, filler, qc);
    BagHas(Listed(h, Some(NameOf(c))), r => RestrictionInfoOf(h, r), RestrictionInfoOf(h, b));
  }

  /** A restriction built by `add_restriction` is one delete_restriction may pick for the same arguments. */
  lemma AddedIsCandidate(g: set<Triple>, b: Node, c: Node, p: Node, kind: string, pred: Node, filler: Node,
                         qc: Option<Node>)
    requires Lookup(RestrictionKinds, kind) == Some(pred)
    ensures b in Candidates(g + Head(b, p) + Body(b, c, pred, filler, qc), c, p, kind)
  {
    var h := g + Head(b, p) + Body(b, c, pred, filler, qc);
    assert Triple(b, pred, filler) in h;
    assert filler in Objects(h, b, pred);
  }

  /** Detaching the restriction `add_restriction` just built gives back the graph as it was. */
  lemma AddThenDetachRestriction(g: set<Triple>, base: string, b: Node, className: string, propertyName: string,
                                 kind: string, value: RestrictionValue, onClass: Option<string>)
    requires b.BNode? && Fresh(g, b)
    requires AddRestriction(g, base, b, className, propertyName, kind, value, onClass).result.Ok?
    ensures Detach(AddRestriction(g, base, b, className, propertyName, kind, value, onClass).graph,
                   Uri(base, className), b) == g
  {
    KindsCovered(kind);
    var pred := Lookup(RestrictionKinds, kind).value;
    var filler := Filler(base, kind, value).value;
    var qc := QualifyingClass(base, kind, onClass);
    var c := Uri(base, className);
    var p := Uri(base, propertyName);
    var added := Head(b, p) + Body(b, c, pred, filler, qc);
    AddedRestriction(g, base, b, className, propertyName, kind, value, onClass);
    assert g + Head(b, p) + Body(b, c, pred, filler, qc) == g + added;
    DetachAdded(g, added, c, b);
  }

  /**
    `add_restriction` then `delete_restriction` with the same class,
    property and kind: the new restriction is one delete may pick, and
    detaching it gives back the graph as it was before the add.
  */
  lemma AddThenDeleteRestriction(g: set<Triple>, base: string, b: Node, className: string, propertyName: string,
                                 kind: string, value: RestrictionValue, onClass: Option<string>)
    requires b.BNode? && Fresh(g, b)
    requires AddRestriction(g, base, b, className, propertyName, kind, value, onClass).result.Ok?
    ensures var h := AddRestriction(g, base, b, className, propertyName, kind, value, onClass).graph;
      && b in Candidates(h, Uri(base, className), Uri(base, propertyName), kind)
      && Detach(h, Uri(base, className), b) == g
  {
    KindsCovered(kind);
    var pred := Lookup(RestrictionKinds, kind).value;
    var filler := Filler(base, kind, value).value;
    var qc := QualifyingClass(base, kind, onClass);
    AddedRestriction(g, base, b, className, propertyName, kind, value, onClass);
    AddedIsCandidate(g, b, Uri(base, className), Uri(base, propertyName), kind, pred, filler, qc);
    AddThenDetachRestriction(g, base, b, className, propertyName, kind, value, onClass);
  }
}
