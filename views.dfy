/**
  The read-only views of the manager (`get_classes`, `get_class_hierarchy`,
  `get_object_properties`, `get_data_properties`, `get_individuals`,
  `get_ontology_metadata`, `get_imports`) as functions of the graph, and
  what they report right after the corresponding `add_*`.
*/
module Views {
  import opened Wrappers
  import opened Rdf
  import opened Vocab
  import opened Naming
  import opened Bags
  import opened Entities

  /** `_local_name(n)` of any node: the local name of its string form. */
  function NameOf(n: Node): string {
    LocalName(Str(n))
  }

  /** `str(graph.value(x, p) or "")`. */
  ghost function TextOf(g: set<Triple>, x: Node, p: Node): string {
    var v := Value(g, x, p);
    if v.Some? && Truthy(v.value) then Str(v.value) else ""
  }

  /** The non-anonymous subjects of (*, rdf:type, t). */
  function Declared(g: set<Triple>, t: Node): set<Node> {
    set x | x in Subjects(g, Type, t) && !x.BNode?
  }

  // ---------------------------------------------------------------------------
  // Classes

  datatype ClassInfo = ClassInfo(uri: string, name: string, labelText: string, commentText: string,
                                 parents: multiset<string>, children: multiset<string>)

  /** The local names of the named superclasses of `c`. */
  ghost function Parents(g: set<Triple>, c: Node): multiset<string> {
    Bag((set x | x in Objects(g, c, SubClassOf) && x.Iri?), NameOf)
  }

  /** The local names of the named subclasses of `c`. */
  ghost function Children(g: set<Triple>, c: Node): multiset<string> {
    Bag((set x | x in Subjects(g, SubClassOf, c) && x.Iri?), NameOf)
  }

  ghost function ClassInfoOf(g: set<Triple>, c: Node): ClassInfo {
    ClassInfo(Str(c), NameOf(c), TextOf(g, c, Label), TextOf(g, c, Comment), Parents(g, c), Children(g, c))
  }

  /** `get_classes`, without the sort by name. */
  ghost function GetClasses(g: set<Triple>): multiset<ClassInfo> {
    Bag(Declared(g, OwlClass), c => ClassInfoOf(g, c))
  }

  function ClassNames(g: set<Triple>): set<string> {
    set c | c in Declared(g, OwlClass) :: NameOf(c)
  }

  /** The classes with local name `n`. */
  function Named(g: set<Triple>, n: string): set<Node> {
    set c | c in Declared(g, OwlClass) && NameOf(c) == n
  }

  /** The children a hierarchy entry lists: those of some class with that local name. */
  ghost function HierarchyEntry(g: set<Triple>, n: string): multiset<string>
    requires n in ClassNames(g)
  {
    var c :| c in Declared(g, OwlClass) && NameOf(c) == n;
    assert c in Named(g, n);
    Children(g, Any(Named(g, n)))
  }

  /**
    `get_class_hierarchy`: one key per class local name; when several
    classes share a local name, the entry of some one of them (the source
    keeps the last one its iteration reaches).
  */
  ghost function GetClassHierarchy(g: set<Triple>): (h: map<string, multiset<string>>)
    ensures h.Keys == ClassNames(g)
  {
    map n | n in ClassNames(g) :: HierarchyEntry(g, n)
  }

  /** A class whose local name no other class shares has its own children as its entry. */
  lemma HierarchyOfUniqueName(g: set<Triple>, c: Node)
    requires c in Declared(g, OwlClass)
    requires forall d | d in Declared(g, OwlClass) && NameOf(d) == NameOf(c) :: d == c
    ensures NameOf(c) in GetClassHierarchy(g)
    ensures GetClassHierarchy(g)[NameOf(c)] == Children(g, c)
  {
    assert Named(g, NameOf(c)) == {c};
  }

  // ---------------------------------------------------------------------------
  // Properties

  datatype ObjectPropertyInfo = ObjectPropertyInfo(
    uri: string, name: string, labelText: string, commentText: string, domain: string, range: string,
    characteristics: seq<string>, inverseOf: Option<string>)

  /** The local name of the value of (p, q, *) when it is a non-empty IRI, else "". */
  ghost function IriName(g: set<Triple>, p: Node, q: Node): string {
    var v := Value(g, p, q);
    if v.Some? && Truthy(v.value) && v.value.Iri? then NameOf(v.value) else ""
  }

  function Flag(g: set<Triple>, p: Node, t: Node, name: string): seq<string> {
    if Triple(p, Type, t) in g then [name] else []
  }

  /** The characteristics of `p`, in the order the source checks them. */
  function CharacteristicsOf(g: set<Triple>, p: Node): seq<string> {
    Flag(g, p, FunctionalProperty, "Functional")
      + Flag(g, p, InverseFunctionalProperty, "InverseFunctional")
      + Flag(g, p, TransitiveProperty, "Transitive")
      + Flag(g, p, SymmetricProperty, "Symmetric")
      + Flag(g, p, AsymmetricProperty, "Asymmetric")
      + Flag(g, p, ReflexiveProperty, "Reflexive")
      + Flag(g, p, IrreflexiveProperty, "Irreflexive")
  }

  /** The names the traits of `add_object_property` are reported under, in the same order. */
  function TraitNames(k: Traits): seq<string> {
    (if k.functional then ["Functional"] else [])
      + (if k.inverseFunctional then ["InverseFunctional"] else [])
      + (if k.transitive then ["Transitive"] else [])
      + (if k.symmetric then ["Symmetric"] else [])
      + (if k.asymmetric then ["Asymmetric"] else [])
      + (if k.reflexive then ["Reflexive"] else [])
      + (if k.irreflexive then ["Irreflexive"] else [])
  }

  ghost function InverseName(g: set<Triple>, p: Node): Option<string> {
    var v := Value(g, p, InverseOf);
    if v.Some? && Truthy(v.value) then Some(NameOf(v.value)) else None
  }

  ghost function ObjectPropertyInfoOf(g: set<Triple>, p: Node): ObjectPropertyInfo {
    ObjectPropertyInfo(Str(p), NameOf(p), TextOf(g, p, Label), TextOf(g, p, Comment),
      IriName(g, p, Domain), IriName(g, p, Range), CharacteristicsOf(g, p), InverseName(g, p))
  }

  /** `get_object_properties`, without the sort by name. */
  ghost function GetObjectProperties(g: set<Triple>): multiset<ObjectPropertyInfo> {
    Bag(Declared(g, ObjectProperty), p => ObjectPropertyInfoOf(g, p))
  }

  datatype DataPropertyInfo = DataPropertyInfo(
    uri: string, name: string, labelText: string, commentText: string, domain: string, range: string,
    functional: bool)

  /** A data property's range is reported whatever kind of node it is. */
  ghost function AnyName(g: set<Triple>, p: Node, q: Node): string {
    var v := Value(g, p, q);
    if v.Some? && Truthy(v.value) then NameOf(v.value) else ""
  }

  ghost function DataPropertyInfoOf(g: set<Triple>, p: Node): DataPropertyInfo {
    DataPropertyInfo(Str(p), NameOf(p), TextOf(g, p, Label), TextOf(g, p, Comment),
      IriName(g, p, Domain), AnyName(g, p, Range), Triple(p, Type, FunctionalProperty) in g)
  }

  /** `get_data_properties`, without the sort by name. */
  ghost function GetDataProperties(g: set<Triple>): multiset<DataPropertyInfo> {
    Bag(Declared(g, DatatypeProperty), p => DataPropertyInfoOf(g, p))
  }

  // ---------------------------------------------------------------------------
  // Individuals

  datatype Assertion = Assertion(property: string, value: string)

  datatype IndividualInfo = IndividualInfo(uri: string, name: string, labelText: string, commentText: string,
                                           classes: multiset<string>, properties: multiset<Assertion>)

  /** The named types of `i` other than owl:NamedIndividual. */
  ghost function ClassesOf(g: set<Triple>, i: Node): multiset<string> {
    Bag((set x | x in Objects(g, i, Type) && x.Iri? && x != NamedIndividual), NameOf)
  }

  function AssertionOf(t: Triple): Assertion {
    Assertion(NameOf(t.p), if t.o.Iri? then NameOf(t.o) else Str(t.o))
  }

  /** Every triple about `i` except its type, label and comment. */
  ghost function AssertionsOf(g: set<Triple>, i: Node): multiset<Assertion> {
    Bag((set t | t in g && t.s == i && t.p != Type && t.p != Label && t.p != Comment), AssertionOf)
  }

  ghost function IndividualInfoOf(g: set<Triple>, i: Node): IndividualInfo {
    IndividualInfo(Str(i), NameOf(i), TextOf(g, i, Label), TextOf(g, i, Comment),
      ClassesOf(g, i), AssertionsOf(g, i))
  }

  /** `get_individuals`, without the sort by name. */
  ghost function GetIndividuals(g: set<Triple>): multiset<IndividualInfo> {
    Bag(Declared(g, NamedIndividual), i => IndividualInfoOf(g, i))
  }

  // ---------------------------------------------------------------------------
  // Ontology header

  /** What `get_ontology_metadata` reports for one predicate: the value's text, when there is a truthy one. */
  ghost function Reported(g: set<Triple>, ont: Node, p: Node): Option<string> {
    var v := Value(g, ont, p);
    if v.Some? && Truthy(v.value) then Some(Str(v.value)) else None
  }

  function Put(m: map<string, string>, key: string, v: Option<string>): map<string, string> {
    if v.Some? then m[key := v.value] else m
  }

  /** The entry of a dictionary under `key`, if any. */
  function Entry(m: map<string, string>, key: string): Option<string> {
    if key in m then Some(m[key]) else None
  }

  /** `get_ontology_metadata`. */
  ghost function GetOntologyMetadata(g: set<Triple>, ont: Node): (m: map<string, string>)
    ensures m.Keys <= {"label", "comment", "creator", "version_iri"}
    ensures Entry(m, "label") == Reported(g, ont, Label)
    ensures Entry(m, "comment") == Reported(g, ont, Comment)
    ensures Entry(m, "creator") == Reported(g, ont, Creator)
    ensures Entry(m, "version_iri") == Reported(g, ont, VersionIri)
  {
    var m1 := Put(map[], "label", Reported(g, ont, Label));
    var m2 := Put(m1, "comment", Reported(g, ont, Comment));
    var m3 := Put(m2, "creator", Reported(g, ont, Creator));
    Put(m3, "version_iri", Reported(g, ont, VersionIri))
  }

  /** `get_imports`. */
  ghost function GetImports(g: set<Triple>, ont: Node): multiset<string> {
    Bag(Objects(g, ont, Imports), Str)
  }

  // ---------------------------------------------------------------------------
  // What the views report after an add

  /** No triple mentions `x` as subject or object. */
  predicate Fresh(g: set<Triple>, x: Node) {
    forall t | t in g :: t.s != x && t.o != x
  }

  /** The text a view reports for an optional literal argument: the argument, or "" when not given. */
  lemma TextOfSingle(g: set<Triple>, x: Node, p: Node, v: Option<string>)
    requires Given(v) ==> Objects(g, x, p) == {Text(v.value)}
    requires !Given(v) ==> Objects(g, x, p) == {}
    ensures TextOf(g, x, p) == Arg(v)
  {
    if Given(v) {
      ValueOfSingle(g, x, p, Text(v.value));
    }
  }

  /** A node no triple mentions contributes nothing to its own slices. */
  lemma FreshSlices(g: set<Triple>, extra: set<Triple>, x: Node, p: Node)
    requires Fresh(g, x)
    ensures Objects(g + extra, x, p) == Objects(extra, x, p)
    ensures Subjects(g + extra, p, x) == Subjects(extra, p, x)
  {
  }

  /** Every object `add_class`'s triples give `c` under one predicate. */
  lemma ClassSlice(c: Node, base: string, parent: Option<string>,
                   labelText: Option<string>, commentText: Option<string>, q: Node)
    ensures Objects(ClassTriples(c, base, parent, labelText, commentText), c, q)
         == (if q == Type then {OwlClass} else {})
            + (if Given(parent) && q == SubClassOf then {Uri(base, parent.value)} else {})
            + (if Given(labelText) && q == Label then {Text(labelText.value)} else {})
            + (if Given(commentText) && q == Comment then {Text(commentText.value)} else {})
  {
    var a := {Triple(c, Type, OwlClass)};
    var b := Optional(parent, Triple(c, SubClassOf, Uri(base, Arg(parent))));
    var d := Optional(labelText, Triple(c, Label, Text(Arg(labelText))));
    var e := Optional(commentText, Triple(c, Comment, Text(Arg(commentText))));
    ObjectsSplit(a + b + d, e, c, q);
    ObjectsSplit(a + b, d, c, q);
    ObjectsSplit(a, b, c, q);
    ObjectsSingle(Triple(c, Type, OwlClass), c, q);
    ObjectsOptional(parent, Triple(c, SubClassOf, Uri(base, Arg(parent))), c, q);
    ObjectsOptional(labelText, Triple(c, Label, Text(Arg(labelText))), c, q);
    ObjectsOptional(commentText, Triple(c, Comment, Text(Arg(commentText))), c, q);
  }

  lemma ClassSlices(c: Node, base: string, parent: Option<string>,
                    labelText: Option<string>, commentText: Option<string>)
    requires Given(parent) ==> Uri(base, parent.value) != c
    ensures var d := ClassTriples(c, base, parent, labelText, commentText);
      && Objects(d, c, Label) == (if Given(labelText) then {Text(labelText.value)} else {})
      && Objects(d, c, Comment) == (if Given(commentText) then {Text(commentText.value)} else {})
      && Objects(d, c, SubClassOf) == (if Given(parent) then {Uri(base, parent.value)} else {})
      && Subjects(d, SubClassOf, c) == {}
  {
    assert Type != SubClassOf && Type != Label && Type != Comment;
    assert SubClassOf != Label && SubClassOf != Comment && Label != Comment;
    ClassSlice(c, base, parent, labelText, commentText, Label);
    ClassSlice(c, base, parent, labelText, commentText, Comment);
    ClassSlice(c, base, parent, labelText, commentText, SubClassOf);
    var d := ClassTriples(c, base, parent, labelText, commentText);
    forall t | t in d && t.p == SubClassOf ensures t.o != c {
      assert t.o in Objects(d, c, SubClassOf);
    }
  }

  /** The record `get_classes` builds for a class that was fresh before `add_class`. */
  lemma ClassInfoAfterAdd(g: set<Triple>, base: string, name: string, parent: Option<string>,
                          labelText: Option<string>, commentText: Option<string>)
    requires Fresh(g, Uri(base, name))
    requires Given(parent) ==> Uri(base, parent.value) != Uri(base, name)
    ensures ClassInfoOf(g + ClassTriples(Uri(base, name), base, parent, labelText, commentText), Uri(base, name)) ==
      ClassInfo(Str(Uri(base, name)), NameOf(Uri(base, name)), Arg(labelText), Arg(commentText),
                if Given(parent) then multiset{NameOf(Uri(base, parent.value))} else multiset{},
                multiset{})
  {
    var c := Uri(base, name);
    var d := ClassTriples(c, base, parent, labelText, commentText);
    var r := g + d;
    FreshSlices(g, d, c, Label);
    FreshSlices(g, d, c, Comment);
    FreshSlices(g, d, c, SubClassOf);
    ClassSlices(c, base, parent, labelText, commentText);
    TextOfSingle(r, c, Label, labelText);
    TextOfSingle(r, c, Comment, commentText);
    var ps := set x | x in Objects(r, c, SubClassOf) && x.Iri?;
    if Given(parent) {
      assert ps == {Uri(base, parent.value)};
      BagSingle(Uri(base, parent.value), NameOf);
    } else {
      assert ps == {};
    }
    var cs := set x | x in Subjects(r, SubClassOf, c) && x.Iri?;
    assert cs == {};
  }

  /**
    `add_class` of a name not yet in the graph, then `get_classes`: the new
    class is listed under its name with the label and comment given, the
    parent given as its only parent, and no children.
  */
  lemma AddClassThenGetClasses(g: set<Triple>, base: string, name: string, parent: Option<string>,
                               labelText: Option<string>, commentText: Option<string>)
    requires WellFormedBase(base) && PlainName(name)
    requires Fresh(g, Uri(base, name))
    requires Given(parent) ==> Uri(base, parent.value) != Uri(base, name)
    ensures ClassInfo(base + name, name, Arg(labelText), Arg(commentText),
                      if Given(parent) then multiset{NameOf(Uri(base, parent.value))} else multiset{},
                      multiset{})
            in GetClasses(AddClass(g, base, name, parent, labelText, commentText))
  {
    var c := Uri(base, name);
    var r := AddClass(g, base, name, parent, labelText, commentText);
    LocalNameOfUri(base, name);
    ClassInfoAfterAdd(g, base, name, parent, labelText, commentText);
    assert c in Declared(r, OwlClass);
    BagHas(Declared(r, OwlClass), c => ClassInfoOf(r, c), ClassInfoOf(r, c));
  }

  /** The characteristics reported for `p` are the traits whose type triples `g` holds. */
  lemma TraitsReported(g: set<Triple>, p: Node, traits: Traits)
    requires forall k | k in {FunctionalProperty, InverseFunctionalProperty, TransitiveProperty,
                              SymmetricProperty, AsymmetricProperty, ReflexiveProperty, IrreflexiveProperty} ::
      Triple(p, Type, k) in g <==> k in TraitTypes(traits)
    ensures CharacteristicsOf(g, p) == TraitNames(traits)
  {
    TraitTypesHas(traits);
    assert Flag(g, p, FunctionalProperty, "Functional") == (if traits.functional then ["Functional"] else []);
    assert Flag(g, p, InverseFunctionalProperty, "InverseFunctional")
        == (if traits.inverseFunctional then ["InverseFunctional"] else []);
    assert Flag(g, p, TransitiveProperty, "Transitive") == (if traits.transitive then ["Transitive"] else []);
    assert Flag(g, p, SymmetricProperty, "Symmetric") == (if traits.symmetric then ["Symmetric"] else []);
    assert Flag(g, p, AsymmetricProperty, "Asymmetric") == (if traits.asymmetric then ["Asymmetric"] else []);
    assert Flag(g, p, ReflexiveProperty, "Reflexive") == (if traits.reflexive then ["Reflexive"] else []);
    assert Flag(g, p, IrreflexiveProperty, "Irreflexive") == (if traits.irreflexive then ["Irreflexive"] else []);
  }

  /** Each characteristic type is among the trait types exactly when its flag is set. */
  lemma TraitTypesHas(traits: Traits)
    ensures (FunctionalProperty in TraitTypes(traits)) == traits.functional
    ensures (InverseFunctionalProperty in TraitTypes(traits)) == traits.inverseFunctional
    ensures (TransitiveProperty in TraitTypes(traits)) == traits.transitive
    ensures (SymmetricProperty in TraitTypes(traits)) == traits.symmetric
    ensures (AsymmetricProperty in TraitTypes(traits)) == traits.asymmetric
    ensures (ReflexiveProperty in TraitTypes(traits)) == traits.reflexive
    ensures (IrreflexiveProperty in TraitTypes(traits)) == traits.irreflexive
  {
  }

  /** What a view reads from an optional IRI argument: its local name, or "" when not given. */
  lemma IriNameOfSingle(g: set<Triple>, x: Node, p: Node, base: string, v: Option<string>)
    requires base != ""
    requires Given(v) ==> Objects(g, x, p) == {Uri(base, v.value)}
    requires !Given(v) ==> Objects(g, x, p) == {}
    ensures IriName(g, x, p) == if Given(v) then NameOf(Uri(base, v.value)) else ""
    ensures AnyName(g, x, p) == IriName(g, x, p)
  {
    if Given(v) {
      ValueOfSingle(g, x, p, Uri(base, v.value));
    }
  }

  /** The objects of (x, q, *) in a union are those in either part. */
  lemma ObjectsSplit(a: set<Triple>, b: set<Triple>, x: Node, q: Node)
    ensures Objects(a + b, x, q) == Objects(a, x, q) + Objects(b, x, q)
  {
  }

  /** Adding two sets of triples to a graph where `x` was fresh: the slices of `x` are those of the two sets. */
  lemma FreshUnionSlices(g: set<Triple>, a: set<Triple>, b: set<Triple>, x: Node, q: Node)
    requires Fresh(g, x)
    ensures Objects(g + a + b, x, q) == Objects(a, x, q) + Objects(b, x, q)
  {
  }

  /** The objects of (x, q, *) among an optional argument's triple. */
  lemma ObjectsOptional(v: Option<string>, t: Triple, x: Node, q: Node)
    ensures Objects(Optional(v, t), x, q) == if Given(v) && t.s == x && t.p == q then {t.o} else {}
  {
  }

  /** The objects of (x, q, *) in a singleton. */
  lemma ObjectsSingle(t: Triple, x: Node, q: Node)
    ensures Objects({t}, x, q) == if t.s == x && t.p == q then {t.o} else {}
  {
  }

  /** Every object `add_object_property`'s core triples give `p` under one predicate. */
  lemma ObjectPropertySlice(p: Node, base: string, domain: Option<string>, range: Option<string>,
                            labelText: Option<string>, commentText: Option<string>, inverseOf: Option<string>,
                            q: Node)
    ensures Objects(ObjectPropertyCore(p, base, domain, range, labelText, commentText, inverseOf), p, q)
         == (if q == Type then {ObjectProperty} else {})
            + (if Given(domain) && q == Domain then {Uri(base, domain.value)} else {})
            + (if Given(range) && q == Range then {Uri(base, range.value)} else {})
            + (if Given(labelText) && q == Label then {Text(labelText.value)} else {})
            + (if Given(commentText) && q == Comment then {Text(commentText.value)} else {})
            + (if Given(inverseOf) && q == InverseOf then {Uri(base, inverseOf.value)} else {})
  {
    var a := {Triple(p, Type, ObjectProperty)};
    var b := Optional(domain, Triple(p, Domain, Uri(base, Arg(domain))));
    var c := Optional(range, Triple(p, Range, Uri(base, Arg(range))));
    var d := Optional(labelText, Triple(p, Label, Text(Arg(labelText))));
    var e := Optional(commentText, Triple(p, Comment, Text(Arg(commentText))));
    var f := Optional(inverseOf, Triple(p, InverseOf, Uri(base, Arg(inverseOf))));
    ObjectsSplit(a + b + c + d + e, f, p, q);
    ObjectsSplit(a + b + c + d, e, p, q);
    ObjectsSplit(a + b + c, d, p, q);
    ObjectsSplit(a + b, c, p, q);
    ObjectsSplit(a, b, p, q);
    ObjectsSingle(Triple(p, Type, ObjectProperty), p, q);
    ObjectsOptional(domain, Triple(p, Domain, Uri(base, Arg(domain))), p, q);
    ObjectsOptional(range, Triple(p, Range, Uri(base, Arg(range))), p, q);
    ObjectsOptional(labelText, Triple(p, Label, Text(Arg(labelText))), p, q);
    ObjectsOptional(commentText, Triple(p, Comment, Text(Arg(commentText))), p, q);
    ObjectsOptional(inverseOf, Triple(p, InverseOf, Uri(base, Arg(inverseOf))), p, q);
  }

  /** The predicates the property and individual views read are distinct IRIs. */
  lemma SlotPredicatesDistinct()
    ensures Type != Domain && Type != Range && Type != Label && Type != Comment && Type != InverseOf
    ensures Domain != Range && Domain != Label && Domain != Comment && Domain != InverseOf
    ensures Range != Label && Range != Comment && Range != InverseOf
    ensures Label != Comment && Label != InverseOf && Comment != InverseOf
  {
  }

  /** The label, comment and type slices of `p` in `add_object_property`'s core triples. */
  lemma ObjectPropertyTextSlices(p: Node, base: string, domain: Option<string>, range: Option<string>,
                                 labelText: Option<string>, commentText: Option<string>, inverseOf: Option<string>)
    ensures var core := ObjectPropertyCore(p, base, domain, range, labelText, commentText, inverseOf);
      && Objects(core, p, Label) == (if Given(labelText) then {Text(labelText.value)} else {})
      && Objects(core, p, Comment) == (if Given(commentText) then {Text(commentText.value)} else {})
      && Objects(core, p, Type) == {ObjectProperty}
  {
    SlotPredicatesDistinct();
    ObjectPropertySlice(p, base, domain, range, labelText, commentText, inverseOf, Label);
    ObjectPropertySlice(p, base, domain, range, labelText, commentText, inverseOf, Comment);
    ObjectPropertySlice(p, base, domain, range, labelText, commentText, inverseOf, Type);
  }

  /** The domain, range and inverse slices of `p` in `add_object_property`'s core triples. */
  lemma ObjectPropertyLinkSlices(p: Node, base: string, domain: Option<string>, range: Option<string>,
                                 labelText: Option<string>, commentText: Option<string>, inverseOf: Option<string>)
    ensures var core := ObjectPropertyCore(p, base, domain, range, labelText, commentText, inverseOf);
      && Objects(core, p, Domain) == (if Given(domain) then {Uri(base, domain.value)} else {})
      && Objects(core, p, Range) == (if Given(range) then {Uri(base, range.value)} else {})
      && Objects(core, p, InverseOf) == (if Given(inverseOf) then {Uri(base, inverseOf.value)} else {})
  {
    SlotPredicatesDistinct();
    ObjectPropertySlice(p, base, domain, range, labelText, commentText, inverseOf, Domain);
    ObjectPropertySlice(p, base, domain, range, labelText, commentText, inverseOf, Range);
    ObjectPropertySlice(p, base, domain, range, labelText, commentText, inverseOf, InverseOf);
  }

  /** The characteristic type triples contribute nothing but types. */
  lemma TraitSlice(p: Node, traits: Traits, q: Node)
    ensures Objects(set k | k in TraitTypes(traits) :: Triple(p, Type, k), p, q)
         == if q == Type then TraitTypes(traits) else {}
  {
    var types := set k | k in TraitTypes(traits) :: Triple(p, Type, k);
    if q == Type {
      forall k | k in TraitTypes(traits) ensures k in Objects(types, p, q) {
        assert Triple(p, Type, k) in types;
      }
    }
  }

  /** The record `get_object_properties` builds for `p` from what the graph holds about it. */
  lemma ObjectPropertyRecord(h: set<Triple>, p: Node, base: string, domain: Option<string>,
                             range: Option<string>, labelText: Option<string>, commentText: Option<string>,
                             traits: Traits, inverseOf: Option<string>)
    requires base != ""
    requires Objects(h, p, Label) == (if Given(labelText) then {Text(labelText.value)} else {})
    requires Objects(h, p, Comment) == (if Given(commentText) then {Text(commentText.value)} else {})
    requires Objects(h, p, Domain) == (if Given(domain) then {Uri(base, domain.value)} else {})
    requires Objects(h, p, Range) == (if Given(range) then {Uri(base, range.value)} else {})
    requires Objects(h, p, InverseOf) == (if Given(inverseOf) then {Uri(base, inverseOf.value)} else {})
    requires Objects(h, p, Type) == {ObjectProperty} + TraitTypes(traits)
    ensures ObjectPropertyInfoOf(h, p)
         == ObjectPropertyInfo(Str(p), NameOf(p), Arg(labelText), Arg(commentText),
                               if Given(domain) then NameOf(Uri(base, domain.value)) else "",
                               if Given(range) then NameOf(Uri(base, range.value)) else "",
                               TraitNames(traits),
                               if Given(inverseOf) then Some(NameOf(Uri(base, inverseOf.value))) else None)
  {
    TextOfSingle(h, p, Label, labelText);
    TextOfSingle(h, p, Comment, commentText);
    IriNameOfSingle(h, p, Domain, base, domain);
    IriNameOfSingle(h, p, Range, base, range);
    if Given(inverseOf) {
      ValueOfSingle(h, p, InverseOf, Uri(base, inverseOf.value));
    }
    var inverse := if Given(inverseOf) then Some(NameOf(Uri(base, inverseOf.value))) else None;
    assert InverseName(h, p) == inverse;
    TraitsNotObjectProperty();
    forall k | k in {FunctionalProperty, InverseFunctionalProperty, TransitiveProperty, SymmetricProperty,
                     AsymmetricProperty, ReflexiveProperty, IrreflexiveProperty}
      ensures Triple(p, Type, k) in h <==> k in TraitTypes(traits)
    {
      assert Triple(p, Type, k) in h <==> k in Objects(h, p, Type);
    }
    TraitsReported(h, p, traits);
  }

  /** No characteristic type is owl:ObjectProperty itself. */
  lemma TraitsNotObjectProperty()
    ensures ObjectProperty !in {FunctionalProperty, InverseFunctionalProperty, TransitiveProperty,
                                SymmetricProperty, AsymmetricProperty, ReflexiveProperty, IrreflexiveProperty}
  {
  }

  /** Apart from its types, a property fresh before `add_object_property` has exactly the slices of the core triples. */
  lemma ObjectPropertySlotAfterAdd(g: set<Triple>, base: string, p: Node, domain: Option<string>,
                                   range: Option<string>, labelText: Option<string>, commentText: Option<string>,
                                   traits: Traits, inverseOf: Option<string>, q: Node)
    requires Fresh(g, p) && q != Type
    ensures var core := ObjectPropertyCore(p, base, domain, range, labelText, commentText, inverseOf);
      Objects(core + (set k | k in TraitTypes(traits) :: Triple(p, Type, k)), p, q) == Objects(core, p, q)
      && Objects(g + core + (set k | k in TraitTypes(traits) :: Triple(p, Type, k)), p, q) == Objects(core, p, q)
  {
    var core := ObjectPropertyCore(p, base, domain, range, labelText, commentText, inverseOf);
    var types := set k | k in TraitTypes(traits) :: Triple(p, Type, k);
    FreshUnionSlices(g, core, types, p, q);
    ObjectsSplit(core, types, p, q);
    TraitSlice(p, traits, q);
  }

  /** The label and comment of a property that was fresh before `add_object_property`. */
  lemma ObjectPropertyTextsAfterAdd(g: set<Triple>, base: string, p: Node, domain: Option<string>,
                                    range: Option<string>, labelText: Option<string>, commentText: Option<string>,
                                    traits: Traits, inverseOf: Option<string>)
    requires Fresh(g, p)
    ensures var h := g + ObjectPropertyCore(p, base, domain, range, labelText, commentText, inverseOf)
                       + (set k | k in TraitTypes(traits) :: Triple(p, Type, k));
      && Objects(h, p, Label) == (if Given(labelText) then {Text(labelText.value)} else {})
      && Objects(h, p, Comment) == (if Given(commentText) then {Text(commentText.value)} else {})
  {
    ObjectPropertyTextSlices(p, base, domain, range, labelText, commentText, inverseOf);
    SlotPredicatesDistinct();
    ObjectPropertySlotAfterAdd(g, base, p, domain, range, labelText, commentText, traits, inverseOf, Label);
    ObjectPropertySlotAfterAdd(g, base, p, domain, range, labelText, commentText, traits, inverseOf, Comment);
  }

  /** The types of a property that was fresh before `add_object_property`. */
  lemma ObjectPropertyTypesAfterAdd(g: set<Triple>, base: string, p: Node, domain: Option<string>,
                                    range: Option<string>, labelText: Option<string>, commentText: Option<string>,
                                    traits: Traits, inverseOf: Option<string>)
    requires Fresh(g, p)
    ensures var h := g + ObjectPropertyCore(p, base, domain, range, labelText, commentText, inverseOf)
                       + (set k | k in TraitTypes(traits) :: Triple(p, Type, k));
      Objects(h, p, Type) == {ObjectProperty} + TraitTypes(traits)
  {
    var core := ObjectPropertyCore(p, base, domain, range, labelText, commentText, inverseOf);
    var types := set k | k in TraitTypes(traits) :: Triple(p, Type, k);
    ObjectPropertyTextSlices(p, base, domain, range, labelText, commentText, inverseOf);
    FreshUnionSlices(g, core, types, p, Type);
    TraitSlice(p, traits, Type);
  }

  /** The domain, range and inverse of a property that was fresh before `add_object_property`. */
  lemma ObjectPropertyLinksAfterAdd(g: set<Triple>, base: string, p: Node, domain: Option<string>,
                                    range: Option<string>, labelText: Option<string>, commentText: Option<string>,
                                    traits: Traits, inverseOf: Option<string>)
    requires Fresh(g, p)
    ensures var h := g + ObjectPropertyCore(p, base, domain, range, labelText, commentText, inverseOf)
                       + (set k | k in TraitTypes(traits) :: Triple(p, Type, k));
      && Objects(h, p, Domain) == (if Given(domain) then {Uri(base, domain.value)} else {})
      && Objects(h, p, Range) == (if Given(range) then {Uri(base, range.value)} else {})
      && Objects(h, p, InverseOf) == (if Given(inverseOf) then {Uri(base, inverseOf.value)} else {})
  {
    ObjectPropertyLinkSlices(p, base, domain, range, labelText, commentText, inverseOf);
    SlotPredicatesDistinct();
    ObjectPropertySlotAfterAdd(g, base, p, domain, range, labelText, commentText, traits, inverseOf, Domain);
    ObjectPropertySlotAfterAdd(g, base, p, domain, range, labelText, commentText, traits, inverseOf, Range);
    ObjectPropertySlotAfterAdd(g, base, p, domain, range, labelText, commentText, traits, inverseOf, InverseOf);
  }

  /** A graph that holds these slices for an object property lists it with this record. */
  lemma ObjectPropertyShown(h: set<Triple>, base: string, name: string, domain: Option<string>,
                            range: Option<string>, labelText: Option<string>, commentText: Option<string>,
                            traits: Traits, inverseOf: Option<string>)
    requires WellFormedBase(base) && PlainName(name)
    requires var p := Uri(base, name);
      && Objects(h, p, Label) == (if Given(labelText) then {Text(labelText.value)} else {})
      && Objects(h, p, Comment) == (if Given(commentText) then {Text(commentText.value)} else {})
      && Objects(h, p, Domain) == (if Given(domain) then {Uri(base, domain.value)} else {})
      && Objects(h, p, Range) == (if Given(range) then {Uri(base, range.value)} else {})
      && Objects(h, p, InverseOf) == (if Given(inverseOf) then {Uri(base, inverseOf.value)} else {})
      && Objects(h, p, Type) == {ObjectProperty} + TraitTypes(traits)
    ensures ObjectPropertyInfo(base + name, name, Arg(labelText), Arg(commentText),
                               if Given(domain) then NameOf(Uri(base, domain.value)) else "",
                               if Given(range) then NameOf(Uri(base, range.value)) else "",
                               TraitNames(traits),
                               if Given(inverseOf) then Some(NameOf(Uri(base, inverseOf.value))) else None)
            in GetObjectProperties(h)
  {
    var p := Uri(base, name);
    LocalNameOfUri(base, name);
    ObjectPropertyRecord(h, p, base, domain, range, labelText, commentText, traits, inverseOf);
    assert ObjectProperty in Objects(h, p, Type);
    assert p in Declared(h, ObjectProperty);
    var f := q => ObjectPropertyInfoOf(h, q);
    BagHas(Declared(h, ObjectProperty), f, f(p));
  }

  /** A property that was fresh is listed by `get_object_properties` once its triples are added. */
  lemma ObjectPropertyListed(g: set<Triple>, base: string, name: string, domain: Option<string>,
                             range: Option<string>, labelText: Option<string>, commentText: Option<string>,
                             traits: Traits, inverseOf: Option<string>)
    requires WellFormedBase(base) && PlainName(name)
    requires Fresh(g, Uri(base, name))
    ensures var p := Uri(base, name);
      ObjectPropertyInfo(base + name, name, Arg(labelText), Arg(commentText),
                         if Given(domain) then NameOf(Uri(base, domain.value)) else "",
                         if Given(range) then NameOf(Uri(base, range.value)) else "",
                         TraitNames(traits),
                         if Given(inverseOf) then Some(NameOf(Uri(base, inverseOf.value))) else None)
        in GetObjectProperties(g + ObjectPropertyCore(p, base, domain, range, labelText, commentText, inverseOf)
                                 + (set k | k in TraitTypes(traits) :: Triple(p, Type, k)))
  {
    var p := Uri(base, name);
    var h := g + ObjectPropertyCore(p, base, domain, range, labelText, commentText, inverseOf)
               + (set k | k in TraitTypes(traits) :: Triple(p, Type, k));
    ObjectPropertyTextsAfterAdd(g, base, p, domain, range, labelText, commentText, traits, inverseOf);
    ObjectPropertyLinksAfterAdd(g, base, p, domain, range, labelText, commentText, traits, inverseOf);
    ObjectPropertyTypesAfterAdd(g, base, p, domain, range, labelText, commentText, traits, inverseOf);
    ObjectPropertyShown(h, base, name, domain, range, labelText, commentText, traits, inverseOf);
  }

  /**
    `add_object_property` of a name not yet in the graph, then
    `get_object_properties`: the property is listed with the label, comment,
    domain, range and inverse given and its characteristics in the order the
    source reports them.
  */
  lemma AddObjectPropertyThenGet(g: set<Triple>, base: string, name: string, domain: Option<string>,
                                 range: Option<string>, labelText: Option<string>, commentText: Option<string>,
                                 traits: Traits, inverseOf: Option<string>)
    requires WellFormedBase(base) && PlainName(name)
    requires Fresh(g, Uri(base, name))
    ensures ObjectPropertyInfo(base + name, name, Arg(labelText), Arg(commentText),
                               if Given(domain) then NameOf(Uri(base, domain.value)) else "",
                               if Given(range) then NameOf(Uri(base, range.value)) else "",
                               TraitNames(traits),
                               if Given(inverseOf) then Some(NameOf(Uri(base, inverseOf.value))) else None)
            in GetObjectProperties(AddObjectProperty(g, base, name, domain, range, labelText, commentText,
                                                     traits, inverseOf))
  {
    ObjectPropertyParts(g, base, name, domain, range, labelText, commentText, traits, inverseOf);
    ObjectPropertyListed(g, base, name, domain, range, labelText, commentText, traits, inverseOf);
  }

  /** Every object the functional-independent triples of `add_data_property` give `p` under one predicate. */
  lemma DataPropertyCoreSlice(p: Node, base: string, domain: Option<string>, range: Option<string>,
                              labelText: Option<string>, commentText: Option<string>, q: Node)
    ensures Objects(DataPropertyCore(p, base, domain, range, labelText, commentText), p, q)
         == (if q == Type then {DatatypeProperty} else {})
            + (if Given(domain) && q == Domain then {Uri(base, domain.value)} else {})
            + (if Given(range) && q == Range then {DataRange(range.value)} else {})
            + (if Given(labelText) && q == Label then {Text(labelText.value)} else {})
            + (if Given(commentText) && q == Comment then {Text(commentText.value)} else {})
  {
    var a := {Triple(p, Type, DatatypeProperty)};
    var b := Optional(domain, Triple(p, Domain, Uri(base, Arg(domain))));
    var c := Optional(range, Triple(p, Range, DataRange(Arg(range))));
    var d := Optional(labelText, Triple(p, Label, Text(Arg(labelText))));
    var e := Optional(commentText, Triple(p, Comment, Text(Arg(commentText))));
    ObjectsSplit(a + b + c + d, e, p, q);
    ObjectsSplit(a + b + c, d, p, q);
    ObjectsSplit(a + b, c, p, q);
    ObjectsSplit(a, b, p, q);
    ObjectsSingle(Triple(p, Type, DatatypeProperty), p, q);
    ObjectsOptional(domain, Triple(p, Domain, Uri(base, Arg(domain))), p, q);
    ObjectsOptional(range, Triple(p, Range, DataRange(Arg(range))), p, q);
    ObjectsOptional(labelText, Triple(p, Label, Text(Arg(labelText))), p, q);
    ObjectsOptional(commentText, Triple(p, Comment, Text(Arg(commentText))), p, q);
  }

  /** The functional flag's triple contributes only a type. */
  lemma FunctionalSlice(p: Node, functional: bool, q: Node)
    ensures Objects(if functional then {Triple(p, Type, FunctionalProperty)} else {}, p, q)
         == if functional && q == Type then {FunctionalProperty} else {}
  {
    ObjectsSingle(Triple(p, Type, FunctionalProperty), p, q);
  }

  /** The label, comment, domain and range slices of `p` in the triples `add_data_property` contributes. */
  lemma DataPropertySlices(p: Node, base: string, domain: Option<string>, range: Option<string>,
                           labelText: Option<string>, commentText: Option<string>, functional: bool)
    ensures var d := DataPropertyTriples(p, base, domain, range, labelText, commentText, functional);
      && Objects(d, p, Label) == (if Given(labelText) then {Text(labelText.value)} else {})
      && Objects(d, p, Comment) == (if Given(commentText) then {Text(commentText.value)} else {})
      && Objects(d, p, Domain) == (if Given(domain) then {Uri(base, domain.value)} else {})
      && Objects(d, p, Range) == (if Given(range) then {DataRange(range.value)} else {})
  {
    SlotPredicatesDistinct();
    DataPropertySlice(p, base, domain, range, labelText, commentText, functional, Label);
    DataPropertySlice(p, base, domain, range, labelText, commentText, functional, Comment);
    DataPropertySlice(p, base, domain, range, labelText, commentText, functional, Domain);
    DataPropertySlice(p, base, domain, range, labelText, commentText, functional, Range);
  }

  /** The types `add_data_property` gives `p`. */
  lemma DataPropertyTypeSlice(p: Node, base: string, domain: Option<string>, range: Option<string>,
                              labelText: Option<string>, commentText: Option<string>, functional: bool)
    ensures Objects(DataPropertyTriples(p, base, domain, range, labelText, commentText, functional), p, Type)
         == {DatatypeProperty} + (if functional then {FunctionalProperty} else {})
  {
    SlotPredicatesDistinct();
    DataPropertySlice(p, base, domain, range, labelText, commentText, functional, Type);
  }

  /** One slice of `p` in the triples `add_data_property` contributes. */
  lemma DataPropertySlice(p: Node, base: string, domain: Option<string>, range: Option<string>,
                          labelText: Option<string>, commentText: Option<string>, functional: bool, q: Node)
    ensures Objects(DataPropertyTriples(p, base, domain, range, labelText, commentText, functional), p, q)
         == (if q == Type then {DatatypeProperty} else {})
            + (if Given(domain) && q == Domain then {Uri(base, domain.value)} else {})
            + (if Given(range) && q == Range then {DataRange(range.value)} else {})
            + (if Given(labelText) && q == Label then {Text(labelText.value)} else {})
            + (if Given(commentText) && q == Comment then {Text(commentText.value)} else {})
            + (if functional && q == Type then {FunctionalProperty} else {})
  {
    var core := DataPropertyCore(p, base, domain, range, labelText, commentText);
    var f: set<Triple> := if functional then {Triple(p, Type, FunctionalProperty)} else {};
    ObjectsSplit(core, f, p, q);
    DataPropertyCoreSlice(p, base, domain, range, labelText, commentText, q);
    FunctionalSlice(p, functional, q);
  }

  /** The record `get_data_properties` builds for `p` from what the graph holds about it. */
  lemma DataPropertyRecord(h: set<Triple>, p: Node, base: string, domain: Option<string>,
                           range: Option<string>, labelText: Option<string>, commentText: Option<string>,
                           functional: bool)
    requires base != ""
    requires Objects(h, p, Label) == (if Given(labelText) then {Text(labelText.value)} else {})
    requires Objects(h, p, Comment) == (if Given(commentText) then {Text(commentText.value)} else {})
    requires Objects(h, p, Domain) == (if Given(domain) then {Uri(base, domain.value)} else {})
    requires Objects(h, p, Range) == (if Given(range) then {DataRange(range.value)} else {})
    requires Objects(h, p, Type) == {DatatypeProperty} + (if functional then {FunctionalProperty} else {})
    ensures DataPropertyInfoOf(h, p)
         == DataPropertyInfo(Str(p), NameOf(p), Arg(labelText), Arg(commentText),
                             if Given(domain) then NameOf(Uri(base, domain.value)) else "",
                             if Given(range) then NameOf(DataRange(range.value)) else "",
                             functional)
  {
    TextOfSingle(h, p, Label, labelText);
    TextOfSingle(h, p, Comment, commentText);
    IriNameOfSingle(h, p, Domain, base, domain);
    if Given(range) {
      ValueOfSingle(h, p, Range, DataRange(range.value));
    }
    FunctionalFlag(h, p, functional);
  }

  /** The functional flag reads whether owl:FunctionalProperty is among the property's types. */
  lemma FunctionalFlag(h: set<Triple>, p: Node, functional: bool)
    requires Objects(h, p, Type) == {DatatypeProperty} + (if functional then {FunctionalProperty} else {})
    ensures (Triple(p, Type, FunctionalProperty) in h) == functional
  {
    assert FunctionalProperty != DatatypeProperty;
    assert Triple(p, Type, FunctionalProperty) in h <==> FunctionalProperty in Objects(h, p, Type);
  }

  /** The slices of a property that was fresh before `add_data_property`. */
  lemma DataPropertySlicesAfterAdd(g: set<Triple>, base: string, p: Node, domain: Option<string>,
                                   range: Option<string>, labelText: Option<string>, commentText: Option<string>,
                                   functional: bool)
    requires Fresh(g, p)
    ensures var h := g + DataPropertyTriples(p, base, domain, range, labelText, commentText, functional);
      && Objects(h, p, Label) == (if Given(labelText) then {Text(labelText.value)} else {})
      && Objects(h, p, Comment) == (if Given(commentText) then {Text(commentText.value)} else {})
      && Objects(h, p, Domain) == (if Given(domain) then {Uri(base, domain.value)} else {})
      && Objects(h, p, Range) == (if Given(range) then {DataRange(range.value)} else {})
      && Objects(h, p, Type) == {DatatypeProperty} + (if functional then {FunctionalProperty} else {})
  {
    var d := DataPropertyTriples(p, base, domain, range, labelText, commentText, functional);
    DataPropertySlices(p, base, domain, range, labelText, commentText, functional);
    DataPropertyTypeSlice(p, base, domain, range, labelText, commentText, functional);
    FreshSlices(g, d, p, Label);
    FreshSlices(g, d, p, Comment);
    FreshSlices(g, d, p, Domain);
    FreshSlices(g, d, p, Range);
    FreshSlices(g, d, p, Type);
  }

  /** A graph that holds these slices for a datatype property lists it with this record. */
  lemma DataPropertyShown(h: set<Triple>, base: string, name: string, domain: Option<string>,
                          range: Option<string>, labelText: Option<string>, commentText: Option<string>,
                          functional: bool)
    requires WellFormedBase(base) && PlainName(name)
    requires var p := Uri(base, name);
      && Objects(h, p, Label) == (if Given(labelText) then {Text(labelText.value)} else {})
      && Objects(h, p, Comment) == (if Given(commentText) then {Text(commentText.value)} else {})
      && Objects(h, p, Domain) == (if Given(domain) then {Uri(base, domain.value)} else {})
      && Objects(h, p, Range) == (if Given(range) then {DataRange(range.value)} else {})
      && Objects(h, p, Type) == {DatatypeProperty} + (if functional then {FunctionalProperty} else {})
    ensures DataPropertyInfo(base + name, name, Arg(labelText), Arg(commentText),
                             if Given(domain) then NameOf(Uri(base, domain.value)) else "",
                             if Given(range) then NameOf(DataRange(range.value)) else "",
                             functional)
            in GetDataProperties(h)
  {
    var p := Uri(base, name);
    LocalNameOfUri(base, name);
    DataPropertyRecord(h, p, base, domain, range, labelText, commentText, functional);
    assert DatatypeProperty in Objects(h, p, Type);
    assert p in Declared(h, DatatypeProperty);
    var f := q => DataPropertyInfoOf(h, q);
    BagHas(Declared(h, DatatypeProperty), f, f(p));
  }

  /**
    `add_data_property` of a name not yet in the graph, then
    `get_data_properties`: the property is listed with the label, comment and
    domain given, the name of the datatype its range became, and its
    functional flag.
  */
  lemma AddDataPropertyThenGet(g: set<Triple>, base: string, name: string, domain: Option<string>,
                               range: Option<string>, labelText: Option<string>, commentText: Option<string>,
                               functional: bool)
    requires WellFormedBase(base) && PlainName(name)
    requires Fresh(g, Uri(base, name))
    ensures DataPropertyInfo(base + name, name, Arg(labelText), Arg(commentText),
                             if Given(domain) then NameOf(Uri(base, domain.value)) else "",
                             if Given(range) then NameOf(DataRange(range.value)) else "",
                             functional)
            in GetDataProperties(AddDataProperty(g, base, name, domain, range, labelText, commentText, functional))
  {
    var p := Uri(base, name);
    var h := g + DataPropertyTriples(p, base, domain, range, labelText, commentText, functional);
    assert AddDataProperty(g, base, name, domain, range, labelText, commentText, functional) == h;
    DataPropertySlicesAfterAdd(g, base, p, domain, range, labelText, commentText, functional);
    DataPropertyShown(h, base, name, domain, range, labelText, commentText, functional);
  }

  /** Every object `add_individual`'s triples give `i` under one predicate. */
  lemma IndividualSlice(i: Node, base: string, className: string,
                        labelText: Option<string>, commentText: Option<string>, q: Node)
    ensures Objects(IndividualTriples(i, base, className, labelText, commentText), i, q)
         == (if q == Type then {NamedIndividual, Uri(base, className)} else {})
            + (if Given(labelText) && q == Label then {Text(labelText.value)} else {})
            + (if Given(commentText) && q == Comment then {Text(commentText.value)} else {})
  {
    var a := {Triple(i, Type, NamedIndividual), Triple(i, Type, Uri(base, className))};
    var b := Optional(labelText, Triple(i, Label, Text(Arg(labelText))));
    var c := Optional(commentText, Triple(i, Comment, Text(Arg(commentText))));
    ObjectsSplit(a + b, c, i, q);
    ObjectsSplit(a, b, i, q);
    ObjectsOptional(labelText, Triple(i, Label, Text(Arg(labelText))), i, q);
    ObjectsOptional(commentText, Triple(i, Comment, Text(Arg(commentText))), i, q);
  }

  /** The slices of `i` in the triples `add_individual` contributes. */
  lemma IndividualSlices(i: Node, base: string, className: string,
                         labelText: Option<string>, commentText: Option<string>)
    ensures var d := IndividualTriples(i, base, className, labelText, commentText);
      && Objects(d, i, Label) == (if Given(labelText) then {Text(labelText.value)} else {})
      && Objects(d, i, Comment) == (if Given(commentText) then {Text(commentText.value)} else {})
      && Objects(d, i, Type) == {NamedIndividual, Uri(base, className)}
      && forall t | t in d :: t.s == i && (t.p == Type || t.p == Label || t.p == Comment)
  {
    SlotPredicatesDistinct();
    IndividualSlice(i, base, className, labelText, commentText, Label);
    IndividualSlice(i, base, className, labelText, commentText, Comment);
    IndividualSlice(i, base, className, labelText, commentText, Type);
  }

  /** The record `get_individuals` builds for `i` from what the graph holds about it. */
  lemma IndividualRecord(h: set<Triple>, i: Node, c: Node, labelText: Option<string>, commentText: Option<string>)
    requires c.Iri? && c != NamedIndividual
    requires Objects(h, i, Label) == (if Given(labelText) then {Text(labelText.value)} else {})
    requires Objects(h, i, Comment) == (if Given(commentText) then {Text(commentText.value)} else {})
    requires Objects(h, i, Type) == {NamedIndividual, c}
    requires forall t | t in h && t.s == i :: t.p == Type || t.p == Label || t.p == Comment
    ensures IndividualInfoOf(h, i)
         == IndividualInfo(Str(i), NameOf(i), Arg(labelText), Arg(commentText), multiset{NameOf(c)}, multiset{})
  {
    TextOfSingle(h, i, Label, labelText);
    TextOfSingle(h, i, Comment, commentText);
    var cs := set x | x in Objects(h, i, Type) && x.Iri? && x != NamedIndividual;
    assert cs == {c};
    BagSingle(c, NameOf);
    var others := set t | t in h && t.s == i && t.p != Type && t.p != Label && t.p != Comment;
    assert others == {};
  }

  /** The slices of an individual that was fresh before `add_individual`. */
  lemma IndividualSlicesAfterAdd(g: set<Triple>, base: string, i: Node, className: string,
                                 labelText: Option<string>, commentText: Option<string>)
    requires Fresh(g, i)
    ensures var h := g + IndividualTriples(i, base, className, labelText, commentText);
      && Objects(h, i, Label) == (if Given(labelText) then {Text(labelText.value)} else {})
      && Objects(h, i, Comment) == (if Given(commentText) then {Text(commentText.value)} else {})
      && Objects(h, i, Type) == {NamedIndividual, Uri(base, className)}
      && forall t | t in h && t.s == i :: t.p == Type || t.p == Label || t.p == Comment
  {
    var d := IndividualTriples(i, base, className, labelText, commentText);
    IndividualSlices(i, base, className, labelText, commentText);
    FreshSlices(g, d, i, Label);
    FreshSlices(g, d, i, Comment);
    FreshSlices(g, d, i, Type);
  }

  /** A graph that holds these slices for a named individual lists it with this record. */
  lemma IndividualShown(h: set<Triple>, base: string, name: string, className: string,
                        labelText: Option<string>, commentText: Option<string>)
    requires WellFormedBase(base) && PlainName(name)
    requires Uri(base, className) != NamedIndividual
    requires var i := Uri(base, name);
      && Objects(h, i, Label) == (if Given(labelText) then {Text(labelText.value)} else {})
      && Objects(h, i, Comment) == (if Given(commentText) then {Text(commentText.value)} else {})
      && Objects(h, i, Type) == {NamedIndividual, Uri(base, className)}
      && forall t | t in h && t.s == i :: t.p == Type || t.p == Label || t.p == Comment
    ensures IndividualInfo(base + name, name, Arg(labelText), Arg(commentText),
                           multiset{NameOf(Uri(base, className))}, multiset{})
            in GetIndividuals(h)
  {
    var i := Uri(base, name);
    LocalNameOfUri(base, name);
    IndividualRecord(h, i, Uri(base, className), labelText, commentText);
    assert NamedIndividual in Objects(h, i, Type);
    assert i in Declared(h, NamedIndividual);
    var f := x => IndividualInfoOf(h, x);
    BagHas(Declared(h, NamedIndividual), f, f(i));
  }

  /**
    `add_individual` of a name not yet in the graph, then `get_individuals`:
    the individual is listed with the label and comment given, its class as
    its only class and no property assertions.
  */
  lemma AddIndividualThenGet(g: set<Triple>, base: string, name: string, className: string,
                             labelText: Option<string>, commentText: Option<string>)
    requires WellFormedBase(base) && PlainName(name)
    requires Fresh(g, Uri(base, name))
    requires Uri(base, className) != NamedIndividual
    ensures IndividualInfo(base + name, name, Arg(labelText), Arg(commentText),
                           multiset{NameOf(Uri(base, className))}, multiset{})
            in GetIndividuals(AddIndividual(g, base, name, className, labelText, commentText))
  {
    var i := Uri(base, name);
    var h := g + IndividualTriples(i, base, className, labelText, commentText);
    assert AddIndividual(g, base, name, className, labelText, commentText) == h;
    IndividualSlicesAfterAdd(g, base, i, className, labelText, commentText);
    IndividualShown(h, base, name, className, labelText, commentText);
  }
}
