/**
  Adding, updating and deleting classes, properties and individuals: each
  operation as the graph it leaves behind, given the graph before, the base
  namespace and the arguments. Optional arguments are `Option<string>`; an
  argument counts as given when it is present and not empty, as the source's
  `if label:` tests do, while the `new_*` arguments of the updates
  distinguish absent (`None`) from empty.
*/
module Entities {
  import opened Wrappers
  import opened Rdf
  import opened Vocab
  import opened Naming

  /** `Literal(text)`: a literal with neither language tag nor datatype. */
  function Text(s: string): Node {
    Lit(s, None, None)
  }

  /** The triple an optional argument contributes, when it is given. */
  function Optional(v: Option<string>, t: Triple): set<Triple> {
    if Given(v) then {t} else {}
  }

  function Arg(v: Option<string>): string {
    if v.Some? then v.value else ""
  }

  // ---------------------------------------------------------------------------
  // Adding

  /** The triples `add_class` contributes. */
  function ClassTriples(c: Node, base: string, parent: Option<string>,
                        labelText: Option<string>, commentText: Option<string>): set<Triple> {
    {Triple(c, Type, OwlClass)}
      + Optional(parent, Triple(c, SubClassOf, Uri(base, Arg(parent))))
      + Optional(labelText, Triple(c, Label, Text(Arg(labelText))))
      + Optional(commentText, Triple(c, Comment, Text(Arg(commentText))))
  }

  /** `add_class`. */
  function AddClass(g: set<Triple>, base: string, name: string, parent: Option<string>,
                    labelText: Option<string>, commentText: Option<string>): (r: set<Triple>)
    ensures g <= r
    ensures Triple(Uri(base, name), Type, OwlClass) in r
    ensures Given(parent) ==> Triple(Uri(base, name), SubClassOf, Uri(base, parent.value)) in r
    ensures Given(labelText) ==> Triple(Uri(base, name), Label, Text(labelText.value)) in r
    ensures Given(commentText) ==> Triple(Uri(base, name), Comment, Text(commentText.value)) in r
    ensures forall t | t in r - g ::
      && t.s == Uri(base, name)
      && (t.p == Type || (t.p == SubClassOf && Given(parent)) ||
          (t.p == Label && Given(labelText)) || (t.p == Comment && Given(commentText)))
    ensures forall t | t in r - g ::
      && (t.p == Type ==> t.o == OwlClass)
      && (t.p == SubClassOf ==> t.o == Uri(base, Arg(parent)))
      && (t.p == Label ==> t.o == Text(Arg(labelText)))
      && (t.p == Comment ==> t.o == Text(Arg(commentText)))
  {
    g + ClassTriples(Uri(base, name), base, parent, labelText, commentText)
  }

  /** The seven Boolean characteristic flags of `add_object_property`. */
  datatype Traits = Traits(functional: bool, inverseFunctional: bool, transitive: bool,
                           symmetric: bool, asymmetric: bool, reflexive: bool, irreflexive: bool)

  /** The characteristic types whose flags are set. */
  function TraitTypes(k: Traits): set<Node> {
    (if k.functional then {FunctionalProperty} else {})
      + (if k.inverseFunctional then {InverseFunctionalProperty} else {})
      + (if k.transitive then {TransitiveProperty} else {})
      + (if k.symmetric then {SymmetricProperty} else {})
      + (if k.asymmetric then {AsymmetricProperty} else {})
      + (if k.reflexive then {ReflexiveProperty} else {})
      + (if k.irreflexive then {IrreflexiveProperty} else {})
  }

  /** The characteristic type triples of `p` for the flags that are set. */
  function Characterised(g: set<Triple>, p: Node, traits: Traits): (r: set<Triple>)
    ensures g <= r
    ensures forall k | k in TraitTypes(traits) :: Triple(p, Type, k) in r
    ensures forall t | t in r - g :: t.s == p && t.p == Type && t.o in TraitTypes(traits)
  {
    g + (set k | k in TraitTypes(traits) :: Triple(p, Type, k))
  }

  /** `add_object_property`. */
  function AddObjectProperty(g: set<Triple>, base: string, name: string, domain: Option<string>,
                             range: Option<string>, labelText: Option<string>, commentText: Option<string>,
                             traits: Traits, inverseOf: Option<string>): (r: set<Triple>)
    ensures g <= r
    ensures Triple(Uri(base, name), Type, ObjectProperty) in r
    ensures forall k | k in TraitTypes(traits) :: Triple(Uri(base, name), Type, k) in r
    ensures Given(domain) ==> Triple(Uri(base, name), Domain, Uri(base, domain.value)) in r
    ensures Given(range) ==> Triple(Uri(base, name), Range, Uri(base, range.value)) in r
    ensures Given(inverseOf) ==> Triple(Uri(base, name), InverseOf, Uri(base, inverseOf.value)) in r
    ensures Given(labelText) ==> Triple(Uri(base, name), Label, Text(labelText.value)) in r
    ensures Given(commentText) ==> Triple(Uri(base, name), Comment, Text(commentText.value)) in r
    ensures forall t | t in r - g :: t.s == Uri(base, name)
    ensures forall t | t in r - g && t.p == Type :: t.o == ObjectProperty || t.o in TraitTypes(traits)
    ensures forall t | t in r - g ::
      || (t.p == Type && (t.o == ObjectProperty || t.o in TraitTypes(traits)))
      || (t.p == Domain && Given(domain) && t.o == Uri(base, Arg(domain)))
      || (t.p == Range && Given(range) && t.o == Uri(base, Arg(range)))
      || (t.p == Label && Given(labelText) && t.o == Text(Arg(labelText)))
      || (t.p == Comment && Given(commentText) && t.o == Text(Arg(commentText)))
      || (t.p == InverseOf && Given(inverseOf) && t.o == Uri(base, Arg(inverseOf)))
  {
    var p := Uri(base, name);
    var core := g + {Triple(p, Type, ObjectProperty)}
      + Optional(domain, Triple(p, Domain, Uri(base, Arg(domain))))
      + Optional(range, Triple(p, Range, Uri(base, Arg(range))))
      + Optional(labelText, Triple(p, Label, Text(Arg(labelText))))
      + Optional(commentText, Triple(p, Comment, Text(Arg(commentText))));
    assert forall t | t in core - g :: t.s == p && (t.p == Type ==> t.o == ObjectProperty);
    assert forall t | t in core - g ::
      || (t.p == Type && t.o == ObjectProperty)
      || (t.p == Domain && Given(domain) && t.o == Uri(base, Arg(domain)))
      || (t.p == Range && Given(range) && t.o == Uri(base, Arg(range)))
      || (t.p == Label && Given(labelText) && t.o == Text(Arg(labelText)))
      || (t.p == Comment && Given(commentText) && t.o == Text(Arg(commentText)));
    Characterised(core, p, traits) + Optional(inverseOf, Triple(p, InverseOf, Uri(base, Arg(inverseOf))))
  }

  /** The triples `add_object_property` adds besides the characteristic types. */
  function ObjectPropertyCore(p: Node, base: string, domain: Option<string>, range: Option<string>,
                              labelText: Option<string>, commentText: Option<string>,
                              inverseOf: Option<string>): set<Triple> {
    {Triple(p, Type, ObjectProperty)}
      + Optional(domain, Triple(p, Domain, Uri(base, Arg(domain))))
      + Optional(range, Triple(p, Range, Uri(base, Arg(range))))
      + Optional(labelText, Triple(p, Label, Text(Arg(labelText))))
      + Optional(commentText, Triple(p, Comment, Text(Arg(commentText))))
      + Optional(inverseOf, Triple(p, InverseOf, Uri(base, Arg(inverseOf))))
  }

  /** `add_object_property` is its core triples plus one type triple per characteristic. */
  lemma ObjectPropertyParts(g: set<Triple>, base: string, name: string, domain: Option<string>,
                            range: Option<string>, labelText: Option<string>, commentText: Option<string>,
                            traits: Traits, inverseOf: Option<string>)
    ensures AddObjectProperty(g, base, name, domain, range, labelText, commentText, traits, inverseOf)
         == g + ObjectPropertyCore(Uri(base, name), base, domain, range, labelText, commentText, inverseOf)
              + (set k | k in TraitTypes(traits) :: Triple(Uri(base, name), Type, k))
  {
  }

  /**
    The range `add_data_property` stores: the XSD datatype of that name, and
    xsd:string for a name it does not know (never a class of the ontology).
  */
  function DataRange(v: string): (r: Node)
    ensures r.Iri? && XsdNs <= r.iri
    ensures Lookup(Datatypes, v).Some? ==> r == Lookup(Datatypes, v).value
    ensures Lookup(Datatypes, v).None? ==> r == XsdString
  {
    match Lookup(Datatypes, v)
    case Some(d) =>
      assert forall i | 0 <= i < |Datatypes| :: Datatypes[i].1.Iri? && XsdNs <= Datatypes[i].1.iri;
      d
    case None => XsdString
  }

  /** The triples `add_data_property` contributes whatever the functional flag. */
  function DataPropertyCore(p: Node, base: string, domain: Option<string>, range: Option<string>,
                            labelText: Option<string>, commentText: Option<string>): set<Triple> {
    {Triple(p, Type, DatatypeProperty)}
      + Optional(domain, Triple(p, Domain, Uri(base, Arg(domain))))
      + Optional(range, Triple(p, Range, DataRange(Arg(range))))
      + Optional(labelText, Triple(p, Label, Text(Arg(labelText))))
      + Optional(commentText, Triple(p, Comment, Text(Arg(commentText))))
  }

  /** The triples `add_data_property` contributes. */
  function DataPropertyTriples(p: Node, base: string, domain: Option<string>, range: Option<string>,
                               labelText: Option<string>, commentText: Option<string>,
                               functional: bool): set<Triple> {
    DataPropertyCore(p, base, domain, range, labelText, commentText)
      + (if functional then {Triple(p, Type, FunctionalProperty)} else {})
  }

  /** `add_data_property`; the source's default range is "string". */
  function AddDataProperty(g: set<Triple>, base: string, name: string, domain: Option<string>,
                           range: Option<string>, labelText: Option<string>, commentText: Option<string>,
                           functional: bool): (r: set<Triple>)
    ensures g <= r
    ensures Triple(Uri(base, name), Type, DatatypeProperty) in r
    ensures functional ==> Triple(Uri(base, name), Type, FunctionalProperty) in r
    ensures Given(domain) ==> Triple(Uri(base, name), Domain, Uri(base, domain.value)) in r
    ensures Given(range) ==> Triple(Uri(base, name), Range, DataRange(range.value)) in r
    ensures Given(labelText) ==> Triple(Uri(base, name), Label, Text(labelText.value)) in r
    ensures Given(commentText) ==> Triple(Uri(base, name), Comment, Text(commentText.value)) in r
    ensures forall t | t in r - g :: t.s == Uri(base, name)
    ensures forall t | t in r - g && t.p == Range :: t.o.Iri? && XsdNs <= t.o.iri
    ensures forall t | t in r - g ::
      || (t.p == Type && (t.o == DatatypeProperty || (functional && t.o == FunctionalProperty)))
      || (t.p == Domain && Given(domain) && t.o == Uri(base, Arg(domain)))
      || (t.p == Range && Given(range) && t.o == DataRange(Arg(range)))
      || (t.p == Label && Given(labelText) && t.o == Text(Arg(labelText)))
      || (t.p == Comment && Given(commentText) && t.o == Text(Arg(commentText)))
  {
    g + DataPropertyTriples(Uri(base, name), base, domain, range, labelText, commentText, functional)
  }

  /** The triples `add_individual` contributes. */
  function IndividualTriples(i: Node, base: string, className: string,
                             labelText: Option<string>, commentText: Option<string>): set<Triple> {
    {Triple(i, Type, NamedIndividual), Triple(i, Type, Uri(base, className))}
      + Optional(labelText, Triple(i, Label, Text(Arg(labelText))))
      + Optional(commentText, Triple(i, Comment, Text(Arg(commentText))))
  }

  /** `add_individual`: the class argument is used even when it is empty. */
  function AddIndividual(g: set<Triple>, base: string, name: string, className: string,
                         labelText: Option<string>, commentText: Option<string>): (r: set<Triple>)
    ensures g <= r
    ensures Triple(Uri(base, name), Type, NamedIndividual) in r
    ensures Triple(Uri(base, name), Type, Uri(base, className)) in r
    ensures Given(labelText) ==> Triple(Uri(base, name), Label, Text(labelText.value)) in r
    ensures Given(commentText) ==> Triple(Uri(base, name), Comment, Text(commentText.value)) in r
    ensures forall t | t in r - g :: t.s == Uri(base, name) && (t.p == Type || t.p == Label || t.p == Comment)
    ensures forall t | t in r - g ::
      || (t.p == Type && (t.o == NamedIndividual || t.o == Uri(base, className)))
      || (t.p == Label && Given(labelText) && t.o == Text(Arg(labelText)))
      || (t.p == Comment && Given(commentText) && t.o == Text(Arg(commentText)))
  {
    g + IndividualTriples(Uri(base, name), base, className, labelText, commentText)
  }

  /** `add_individual_property`: the value is resolved as a resource, or stored as a plain literal. */
  function AddIndividualProperty(g: set<Triple>, base: string, individual: string, property: string,
                                 value: string, isObjectProperty: bool): (r: set<Triple>)
    ensures r - g <= {Triple(Uri(base, individual), Uri(base, property),
                             if isObjectProperty then Uri(base, value) else Text(value))}
    ensures isObjectProperty ==> Triple(Uri(base, individual), Uri(base, property), Uri(base, value)) in r
    ensures !isObjectProperty ==> Triple(Uri(base, individual), Uri(base, property), Text(value)) in r
    ensures g <= r
  {
    var o := if isObjectProperty then Uri(base, value) else Text(value);
    g + {Triple(Uri(base, individual), Uri(base, property), o)}
  }

  // ---------------------------------------------------------------------------
  // Updating

  /** The single-valued slots an update can reset. */
  datatype Slot = LabelSlot | CommentSlot | DomainSlot | RangeSlot

  function SlotPredicate(s: Slot): Node {
    match s
    case LabelSlot => Label
    case CommentSlot => Comment
    case DomainSlot => Domain
    case RangeSlot => Range
  }

  /**
    The object a non-empty new value is stored as. For `update_property`'s
    range a known datatype name gives the XSD datatype and any other name is
    resolved as a class (unlike `add_data_property`, see `DataRange`).
  */
  function SlotValue(s: Slot, base: string, v: string): Node {
    match s
    case LabelSlot => Text(v)
    case CommentSlot => Text(v)
    case DomainSlot => Uri(base, v)
    case RangeSlot =>
      match Lookup(Datatypes, v)
      case Some(d) => d
      case None => Uri(base, v)
  }

  /** What an update promises about one slot of `x`. */
  predicate SlotOutcome(g: set<Triple>, r: set<Triple>, base: string, x: Node, s: Slot, v: Option<string>) {
    && (v.None? ==> Objects(r, x, SlotPredicate(s)) == Objects(g, x, SlotPredicate(s)))
    && (v == Some("") ==> Objects(r, x, SlotPredicate(s)) == {})
    && (Given(v) ==> Objects(r, x, SlotPredicate(s)) == {SlotValue(s, base, v.value)})
  }

  /** One `new_*` argument: None leaves the slot alone, "" clears it, anything else replaces it. */
  function UpdateSlot(g: set<Triple>, base: string, x: Node, s: Slot, v: Option<string>): (r: set<Triple>)
    ensures SlotOutcome(g, r, base, x, s, v)
    ensures forall t: Triple | !(t.s == x && t.p == SlotPredicate(s)) :: t in r <==> t in g
  {
    if v.None? then g
    else
      var cleared := Remove(g, Pattern(Some(x), Some(SlotPredicate(s)), None));
      if v.value == "" then cleared
      else cleared + {Triple(x, SlotPredicate(s), SlotValue(s, base, v.value))}
  }

  /** A later step that leaves every (x, p, *) triple alone leaves the slot's outcome alone. */
  lemma SlotOutcomeKept(g: set<Triple>, h: set<Triple>, r: set<Triple>, base: string, x: Node, s: Slot,
                        v: Option<string>)
    requires SlotOutcome(g, h, base, x, s, v)
    requires forall o :: Triple(x, SlotPredicate(s), o) in r <==> Triple(x, SlotPredicate(s), o) in h
    ensures SlotOutcome(g, r, base, x, s, v)
  {
    assert Objects(r, x, SlotPredicate(s)) == Objects(h, x, SlotPredicate(s)) by {
      forall o | o in Objects(h, x, SlotPredicate(s)) ensures o in Objects(r, x, SlotPredicate(s)) {
        assert Triple(x, SlotPredicate(s), o) in r;
      }
    }
  }

  /**
    `update_class`: the label and comment slots, then the parent to remove,
    then the parent to add (so a parent both removed and added stays).
  */
  function UpdateClass(g: set<Triple>, base: string, name: string, newLabel: Option<string>,
                       newComment: Option<string>, newParent: Option<string>,
                       removeParent: Option<string>): (r: set<Triple>)
    ensures SlotOutcome(g, r, base, Uri(base, name), LabelSlot, newLabel)
    ensures SlotOutcome(g, r, base, Uri(base, name), CommentSlot, newComment)
    ensures Given(newParent) ==> Triple(Uri(base, name), SubClassOf, Uri(base, newParent.value)) in r
    ensures Given(removeParent) && !(Given(newParent) && Uri(base, newParent.value) == Uri(base, removeParent.value)) ==>
      Triple(Uri(base, name), SubClassOf, Uri(base, removeParent.value)) !in r
    ensures forall t: Triple |
      && !(t.s == Uri(base, name) && (t.p == Label || t.p == Comment))
      && t !in Optional(newParent, Triple(Uri(base, name), SubClassOf, Uri(base, Arg(newParent))))
      && t !in Optional(removeParent, Triple(Uri(base, name), SubClassOf, Uri(base, Arg(removeParent))))
      :: t in r <==> t in g
  {
    var c := Uri(base, name);
    var g1 := UpdateSlot(UpdateSlot(g, base, c, LabelSlot, newLabel), base, c, CommentSlot, newComment);
    var g2 := if Given(removeParent)
      then Remove(g1, Pattern(Some(c), Some(SubClassOf), Some(Uri(base, removeParent.value))))
      else g1;
    var r := if Given(newParent) then g2 + {Triple(c, SubClassOf, Uri(base, newParent.value))} else g2;
    SlotOutcomeKept(g, UpdateSlot(g, base, c, LabelSlot, newLabel), g1, base, c, LabelSlot, newLabel);
    SlotOutcomeKept(g, g1, r, base, c, LabelSlot, newLabel);
    SlotOutcomeKept(g, g1, r, base, c, CommentSlot, newComment);
    r
  }

  /** `update_property`: label, comment, domain and range slots, in that order. */
  function UpdateProperty(g: set<Triple>, base: string, name: string, newLabel: Option<string>,
                          newComment: Option<string>, newDomain: Option<string>,
                          newRange: Option<string>): (r: set<Triple>)
    ensures SlotOutcome(g, r, base, Uri(base, name), LabelSlot, newLabel)
    ensures SlotOutcome(g, r, base, Uri(base, name), CommentSlot, newComment)
    ensures SlotOutcome(g, r, base, Uri(base, name), DomainSlot, newDomain)
    ensures SlotOutcome(g, r, base, Uri(base, name), RangeSlot, newRange)
    ensures forall t: Triple | !(t.s == Uri(base, name) && t.p in {Label, Comment, Domain, Range}) ::
      t in r <==> t in g
  {
    var p := Uri(base, name);
    var g1 := UpdateSlot(g, base, p, LabelSlot, newLabel);
    var g2 := UpdateSlot(g1, base, p, CommentSlot, newComment);
    var g3 := UpdateSlot(g2, base, p, DomainSlot, newDomain);
    var r := UpdateSlot(g3, base, p, RangeSlot, newRange);
    SlotOutcomeKept(g, g1, g2, base, p, LabelSlot, newLabel);
    SlotOutcomeKept(g, g2, g3, base, p, LabelSlot, newLabel);
    SlotOutcomeKept(g, g3, r, base, p, LabelSlot, newLabel);
    SlotOutcomeKept(g, g2, g3, base, p, CommentSlot, newComment);
    SlotOutcomeKept(g, g3, r, base, p, CommentSlot, newComment);
    SlotOutcomeKept(g, g3, r, base, p, DomainSlot, newDomain);
    r
  }

  /**
    `update_individual`: label and comment slots, then the class to add,
    then the class to remove (so a class both added and removed goes).
  */
  function UpdateIndividual(g: set<Triple>, base: string, name: string, newLabel: Option<string>,
                            newComment: Option<string>, addClass: Option<string>,
                            removeClass: Option<string>): (r: set<Triple>)
    ensures SlotOutcome(g, r, base, Uri(base, name), LabelSlot, newLabel)
    ensures SlotOutcome(g, r, base, Uri(base, name), CommentSlot, newComment)
    ensures Given(removeClass) ==> Triple(Uri(base, name), Type, Uri(base, removeClass.value)) !in r
    ensures Given(addClass) && !(Given(removeClass) && Uri(base, removeClass.value) == Uri(base, addClass.value)) ==>
      Triple(Uri(base, name), Type, Uri(base, addClass.value)) in r
    ensures forall t: Triple |
      && !(t.s == Uri(base, name) && (t.p == Label || t.p == Comment))
      && t !in Optional(addClass, Triple(Uri(base, name), Type, Uri(base, Arg(addClass))))
      && t !in Optional(removeClass, Triple(Uri(base, name), Type, Uri(base, Arg(removeClass))))
      :: t in r <==> t in g
  {
    var i := Uri(base, name);
    var g1 := UpdateSlot(UpdateSlot(g, base, i, LabelSlot, newLabel), base, i, CommentSlot, newComment);
    var g2 := if Given(addClass) then g1 + {Triple(i, Type, Uri(base, addClass.value))} else g1;
    var r := if Given(removeClass)
      then Remove(g2, Pattern(Some(i), Some(Type), Some(Uri(base, removeClass.value))))
      else g2;
    SlotOutcomeKept(g, UpdateSlot(g, base, i, LabelSlot, newLabel), g1, base, i, LabelSlot, newLabel);
    SlotOutcomeKept(g, g1, r, base, i, LabelSlot, newLabel);
    SlotOutcomeKept(g, g1, r, base, i, CommentSlot, newComment);
    r
  }

  // ---------------------------------------------------------------------------
  // Deleting

  /**
    `delete_class` and `delete_individual` (subject and object positions)
    and `delete_property` (also the predicate position).
  */
  function DeleteEntity(g: set<Triple>, x: Node, predicates: bool): (r: set<Triple>)
    ensures r <= g
    ensures forall t | t in r :: t.s != x && t.o != x && (predicates ==> t.p != x)
    ensures forall t | t in g && t.s != x && t.o != x && (predicates ==> t.p != x) :: t in r
  {
    var g1 := Remove(Remove(g, Pattern(Some(x), None, None)), Pattern(None, None, Some(x)));
    if predicates then Remove(g1, Pattern(None, Some(x), None)) else g1
  }
}
