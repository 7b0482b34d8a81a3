/**
  `validate`, `apply_reasoning` and `get_statistics`: the checks the manager
  runs over the whole graph, the reasoning step, and the counts it reports.
*/
module Lint {
  import opened Wrappers
  import opened Rdf
  import opened Vocab
  import opened Naming
  import opened Bags
  import opened Entities
  import opened Views

  datatype Issue = Issue(severity: string, kind: string, subject: string, message: string)

  /** `graph.value(x, p)` is set and truthy. */
  ghost predicate Has(g: set<Triple>, x: Node, p: Node) {
    var v := Value(g, x, p);
    v.Some? && Truthy(v.value)
  }

  function MissingLabel(c: Node): Issue {
    Issue("warning", "missing_label", NameOf(c), "Class '" + NameOf(c) + "' has no label")
  }

  function MissingObjectDomain(p: Node): Issue {
    Issue("info", "missing_domain", NameOf(p), "Object property '" + NameOf(p) + "' has no domain")
  }

  function MissingObjectRange(p: Node): Issue {
    Issue("info", "missing_range", NameOf(p), "Object property '" + NameOf(p) + "' has no range")
  }

  function MissingDataDomain(p: Node): Issue {
    Issue("info", "missing_domain", NameOf(p), "Data property '" + NameOf(p) + "' has no domain")
  }

  function UntypedIndividual(i: Node): Issue {
    Issue("warning", "untyped_individual", NameOf(i), "Individual '" + NameOf(i) + "' has no class type")
  }

  /** Named classes without a truthy label. */
  ghost function Unlabelled(g: set<Triple>): set<Node> {
    set c | c in Declared(g, OwlClass) && !Has(g, c, Label)
  }

  /** Named resources declared with type `t` that lack a truthy value for `p`. */
  ghost function Lacking(g: set<Triple>, t: Node, p: Node): set<Node> {
    set x | x in Declared(g, t) && !Has(g, x, p)
  }

  /** Individuals, anonymous ones included, whose only type is owl:NamedIndividual. */
  function Untyped(g: set<Triple>): set<Node> {
    set i | i in Subjects(g, Type, NamedIndividual) && Objects(g, i, Type) - {NamedIndividual} == {}
  }

  /** `validate()`: the issues, as a multiset. */
  ghost function Validate(g: set<Triple>): multiset<Issue> {
    Bag(Unlabelled(g), MissingLabel)
      + Bag(Lacking(g, ObjectProperty, Domain), MissingObjectDomain)
      + Bag(Lacking(g, ObjectProperty, Range), MissingObjectRange)
      + Bag(Lacking(g, DatatypeProperty, Domain), MissingDataDomain)
      + Bag(Untyped(g), UntypedIndividual)
  }

  /** An issue is reported when one of the five checks reports it. */
  lemma ValidateHas(g: set<Triple>, i: Issue)
    ensures i in Validate(g)
        <==> || i in Bag(Unlabelled(g), MissingLabel)
             || i in Bag(Lacking(g, ObjectProperty, Domain), MissingObjectDomain)
             || i in Bag(Lacking(g, ObjectProperty, Range), MissingObjectRange)
             || i in Bag(Lacking(g, DatatypeProperty, Domain), MissingDataDomain)
             || i in Bag(Untyped(g), UntypedIndividual)
  {
  }

  /** A bag holds none of the issues of kind `kind` when its map never produces that kind. */
  lemma NoneOfKind(s: set<Node>, f: Node -> Issue, i: Issue)
    requires forall x :: f(x).kind != i.kind || f(x).severity != i.severity || f(x).message != i.message
    ensures i !in Bag(s, f)
  {
    BagHas(s, f, i);
  }

  /** The distinct opening words of the messages. */
  lemma MessagesDiffer(n: string, m: string)
    ensures "Class '" + n + "' has no label" != "Object property '" + m + "' has no domain"
    ensures "Object property '" + n + "' has no domain" != "Data property '" + m + "' has no domain"
  {
    assert ("Class '" + n + "' has no label")[0] == 'C';
    assert ("Object property '" + m + "' has no domain")[0] == 'O';
    assert ("Object property '" + n + "' has no domain")[0] == 'O';
    assert ("Data property '" + m + "' has no domain")[0] == 'D';
  }

  /** An issue names its subject by local name, so it is reported when some member of the set has that name. */
  lemma ByName(s: set<Node>, f: Node -> Issue, c: Node)
    requires forall d :: f(d).subject == NameOf(d)
    requires forall d | NameOf(d) == NameOf(c) :: f(d) == f(c)
    ensures f(c) in Bag(s, f) <==> exists d | d in s :: NameOf(d) == NameOf(c)
  {
    BagHas(s, f, f(c));
    if exists d | d in s :: f(d) == f(c) {
      var d :| d in s && f(d) == f(c);
      assert f(d).subject == f(c).subject;
    }
  }

  /**
    The missing-label warning for a local name is reported exactly when some
    named class with that local name has no truthy label.
  */
  lemma MissingLabelReported(g: set<Triple>, c: Node)
    ensures MissingLabel(c) in Validate(g)
        <==> exists d | d in Declared(g, OwlClass) :: NameOf(d) == NameOf(c) && !Has(g, d, Label)
  {
    var i := MissingLabel(c);
    ValidateHas(g, i);
    NoneOfKind(Lacking(g, ObjectProperty, Domain), MissingObjectDomain, i);
    NoneOfKind(Lacking(g, ObjectProperty, Range), MissingObjectRange, i);
    NoneOfKind(Lacking(g, DatatypeProperty, Domain), MissingDataDomain, i);
    NoneOfKind(Untyped(g), UntypedIndividual, i);
    ByName(Unlabelled(g), MissingLabel, c);
    if exists d | d in Declared(g, OwlClass) :: NameOf(d) == NameOf(c) && !Has(g, d, Label) {
      var d :| d in Declared(g, OwlClass) && NameOf(d) == NameOf(c) && !Has(g, d, Label);
      assert d in Unlabelled(g);
    }
  }

  /**
    The untyped-individual warning for a local name is reported exactly when
    some individual with that local name has no type besides
    owl:NamedIndividual.
  */
  lemma UntypedReported(g: set<Triple>, x: Node)
    ensures UntypedIndividual(x) in Validate(g)
        <==> exists i | i in Subjects(g, Type, NamedIndividual) ::
               NameOf(i) == NameOf(x) && Objects(g, i, Type) <= {NamedIndividual}
  {
    var w := UntypedIndividual(x);
    ValidateHas(g, w);
    NoneOfKind(Unlabelled(g), MissingLabel, w);
    NoneOfKind(Lacking(g, ObjectProperty, Domain), MissingObjectDomain, w);
    NoneOfKind(Lacking(g, ObjectProperty, Range), MissingObjectRange, w);
    NoneOfKind(Lacking(g, DatatypeProperty, Domain), MissingDataDomain, w);
    ByName(Untyped(g), UntypedIndividual, x);
    if exists i | i in Subjects(g, Type, NamedIndividual) ::
         NameOf(i) == NameOf(x) && Objects(g, i, Type) <= {NamedIndividual} {
      var i :| i in Subjects(g, Type, NamedIndividual) && NameOf(i) == NameOf(x) && Objects(g, i, Type) <= {NamedIndividual};
      assert Objects(g, i, Type) - {NamedIndividual} == {};
      assert i in Untyped(g);
    }
    if exists i | i in Untyped(g) :: NameOf(i) == NameOf(x) {
      var i :| i in Untyped(g) && NameOf(i) == NameOf(x);
      assert Objects(g, i, Type) <= {NamedIndividual};
    }
  }

  /**
    The object-property missing-domain notice for a local name is reported
    exactly when some named object property with that local name has no
    truthy domain; the data-property notice is told apart by its message.
  */
  lemma MissingObjectDomainReported(g: set<Triple>, p: Node)
    ensures MissingObjectDomain(p) in Validate(g)
        <==> exists q | q in Declared(g, ObjectProperty) :: NameOf(q) == NameOf(p) && !Has(g, q, Domain)
  {
    var i := MissingObjectDomain(p);
    ValidateHas(g, i);
    forall n ensures MissingLabel(n).message != i.message && MissingDataDomain(n).message != i.message {
      MessagesDiffer(NameOf(n), NameOf(p));
      MessagesDiffer(NameOf(p), NameOf(n));
    }
    NoneOfKind(Unlabelled(g), MissingLabel, i);
    NoneOfKind(Lacking(g, ObjectProperty, Range), MissingObjectRange, i);
    NoneOfKind(Lacking(g, DatatypeProperty, Domain), MissingDataDomain, i);
    NoneOfKind(Untyped(g), UntypedIndividual, i);
    ByName(Lacking(g, ObjectProperty, Domain), MissingObjectDomain, p);
    if exists q | q in Declared(g, ObjectProperty) :: NameOf(q) == NameOf(p) && !Has(g, q, Domain) {
      var q :| q in Declared(g, ObjectProperty) && NameOf(q) == NameOf(p) && !Has(g, q, Domain);
      assert q in Lacking(g, ObjectProperty, Domain);
    }
  }

  // ---------------------------------------------------------------------------
  // Reasoning

  /**
    `apply_reasoning(profile)`: the deductive closure is not modelled; the
    triples it infers are a parameter. A known profile adds them, any other
    adds nothing, and the result is how many triples are new.
  */
  function ApplyReasoning(g: set<Triple>, profile: string, inferred: set<Triple>): (r: (set<Triple>, int))
    ensures g <= r.0
    ensures r.1 == |r.0| - |g| && r.1 >= 0
    ensures profile in {"rdfs", "owl-rl", "owl-rl-ext"} ==> r.0 == g + inferred && r.1 == |inferred - g|
    ensures profile !in {"rdfs", "owl-rl", "owl-rl-ext"} ==> r == (g, 0)
  {
    if profile in {"rdfs", "owl-rl", "owl-rl-ext"} then
      var h := g + inferred;
      assert h == g + (inferred - g) && g * (inferred - g) == {};
      (h, |h| - |g|)
    else (g, 0)
  }

  // ---------------------------------------------------------------------------
  // Statistics

  datatype Statistics = Statistics(classes: int, objectProperties: int, dataProperties: int, individuals: int,
                                   restrictions: int, totalTriples: int, contentTriples: int)

  /** The triples about the ontology node: its declaration and its metadata. */
  function About(g: set<Triple>, ont: Node): set<Triple> {
    set t | t in g && t.s == ont
  }

  /** `get_statistics()`: anonymous subjects are counted too. */
  function GetStatistics(g: set<Triple>, ont: Node): (r: Statistics)
    ensures r.classes == |Subjects(g, Type, OwlClass)| && r.objectProperties == |Subjects(g, Type, ObjectProperty)|
    ensures r.dataProperties == |Subjects(g, Type, DatatypeProperty)|
    ensures r.individuals == |Subjects(g, Type, NamedIndividual)| && r.restrictions == |Subjects(g, Type, Restriction)|
    ensures r.totalTriples == |g|
    ensures r.contentTriples == |set t | t in g && t.s != ont|
  {
    var rest := set t | t in g && t.s != ont;
    assert g == About(g, ont) + rest && About(g, ont) * rest == {};
    Statistics(|Subjects(g, Type, OwlClass)|, |Subjects(g, Type, ObjectProperty)|,
               |Subjects(g, Type, DatatypeProperty)|, |Subjects(g, Type, NamedIndividual)|,
               |Subjects(g, Type, Restriction)|, |g|, |g| - |About(g, ont)|)
  }

  /** Adding a class counts it once: one more class unless it was declared already. */
  lemma AddClassCounted(g: set<Triple>, ont: Node, base: string, name: string, parent: Option<string>,
                        labelText: Option<string>, commentText: Option<string>)
    ensures var c := Uri(base, name);
      GetStatistics(AddClass(g, base, name, parent, labelText, commentText), ont).classes
        == GetStatistics(g, ont).classes + (if c in Subjects(g, Type, OwlClass) then 0 else 1)
  {
    var c := Uri(base, name);
    var d := ClassTriples(c, base, parent, labelText, commentText);
    var before := Subjects(g, Type, OwlClass);
    assert AddClass(g, base, name, parent, labelText, commentText) == g + d;
    ClassDeclaredOnce(c, base, parent, labelText, commentText);
    assert Subjects(g + d, Type, OwlClass) == before + Subjects(d, Type, OwlClass);
    if c in before {
      assert before + {c} == before;
    }
  }

  /** The triples `add_class` contributes declare exactly the one class. */
  lemma ClassDeclaredOnce(c: Node, base: string, parent: Option<string>,
                          labelText: Option<string>, commentText: Option<string>)
    ensures Subjects(ClassTriples(c, base, parent, labelText, commentText), Type, OwlClass) == {c}
  {
    var d := ClassTriples(c, base, parent, labelText, commentText);
    assert Triple(c, Type, OwlClass) in d;
    assert SubClassOf != Type && Label != Type && Comment != Type;
  }

  /** A class added with a label is not reported as missing one. */
  lemma LabelledClassNotReported(g: set<Triple>, base: string, name: string, parent: Option<string>,
                                 labelText: string, commentText: Option<string>)
    requires labelText != "" && Fresh(g, Uri(base, name))
    ensures Uri(base, name) !in Unlabelled(AddClass(g, base, name, parent, Some(labelText), commentText))
  {
    var c := Uri(base, name);
    var r := AddClass(g, base, name, parent, Some(labelText), commentText);
    assert Objects(r, c, Label) == {Text(labelText)};
    ValueOfSingle(r, c, Label, Text(labelText));
  }
}
