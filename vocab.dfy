/**
  The fixed vocabulary the manager writes and reads: the RDF, RDFS, OWL, XSD,
  SKOS and DCMI terms it uses, and its name-to-predicate tables. Tables are
  sequences of (name, term) pairs in the order the Python dictionaries are
  written, since some readers walk them in that order.
*/
module Vocab {
  import opened Wrappers
  import opened Rdf

  const RdfNs := "http://www.w3.org/1999/02/22-rdf-syntax-ns#"
  const RdfsNs := "http://www.w3.org/2000/01/rdf-schema#"
  const OwlNs := "http://www.w3.org/2002/07/owl#"
  const XsdNs := "http://www.w3.org/2001/XMLSchema#"

  // RDF
  const Type := Iri("http://www.w3.org/1999/02/22-rdf-syntax-ns#type")
  const First := Iri("http://www.w3.org/1999/02/22-rdf-syntax-ns#first")
  const Rest := Iri("http://www.w3.org/1999/02/22-rdf-syntax-ns#rest")
  const Nil := Iri("http://www.w3.org/1999/02/22-rdf-syntax-ns#nil")

  // RDFS
  const Label := Iri("http://www.w3.org/2000/01/rdf-schema#label")
  const Comment := Iri("http://www.w3.org/2000/01/rdf-schema#comment")
  const SubClassOf := Iri("http://www.w3.org/2000/01/rdf-schema#subClassOf")
  const SubPropertyOf := Iri("http://www.w3.org/2000/01/rdf-schema#subPropertyOf")
  const Domain := Iri("http://www.w3.org/2000/01/rdf-schema#domain")
  const Range := Iri("http://www.w3.org/2000/01/rdf-schema#range")
  const SeeAlso := Iri("http://www.w3.org/2000/01/rdf-schema#seeAlso")
  const IsDefinedBy := Iri("http://www.w3.org/2000/01/rdf-schema#isDefinedBy")

  // OWL: entity types
  const Ontology := Iri("http://www.w3.org/2002/07/owl#Ontology")
  const OwlClass := Iri("http://www.w3.org/2002/07/owl#Class")
  const ObjectProperty := Iri("http://www.w3.org/2002/07/owl#ObjectProperty")
  const DatatypeProperty := Iri("http://www.w3.org/2002/07/owl#DatatypeProperty")
  const NamedIndividual := Iri("http://www.w3.org/2002/07/owl#NamedIndividual")
  const Restriction := Iri("http://www.w3.org/2002/07/owl#Restriction")
  const AllDifferent := Iri("http://www.w3.org/2002/07/owl#AllDifferent")

  // OWL: property characteristics
  const FunctionalProperty := Iri("http://www.w3.org/2002/07/owl#FunctionalProperty")
  const InverseFunctionalProperty := Iri("http://www.w3.org/2002/07/owl#InverseFunctionalProperty")
  const TransitiveProperty := Iri("http://www.w3.org/2002/07/owl#TransitiveProperty")
  const SymmetricProperty := Iri("http://www.w3.org/2002/07/owl#SymmetricProperty")
  const AsymmetricProperty := Iri("http://www.w3.org/2002/07/owl#AsymmetricProperty")
  const ReflexiveProperty := Iri("http://www.w3.org/2002/07/owl#ReflexiveProperty")
  const IrreflexiveProperty := Iri("http://www.w3.org/2002/07/owl#IrreflexiveProperty")

  // OWL: restriction construction
  const OnProperty := Iri("http://www.w3.org/2002/07/owl#onProperty")
  const OnClass := Iri("http://www.w3.org/2002/07/owl#onClass")
  const SomeValuesFrom := Iri("http://www.w3.org/2002/07/owl#someValuesFrom")
  const AllValuesFrom := Iri("http://www.w3.org/2002/07/owl#allValuesFrom")
  const HasValue := Iri("http://www.w3.org/2002/07/owl#hasValue")
  const MinCardinality := Iri("http://www.w3.org/2002/07/owl#minCardinality")
  const MaxCardinality := Iri("http://www.w3.org/2002/07/owl#maxCardinality")
  const Cardinality := Iri("http://www.w3.org/2002/07/owl#cardinality")
  const MinQualifiedCardinality := Iri("http://www.w3.org/2002/07/owl#minQualifiedCardinality")
  const MaxQualifiedCardinality := Iri("http://www.w3.org/2002/07/owl#maxQualifiedCardinality")
  const QualifiedCardinality := Iri("http://www.w3.org/2002/07/owl#qualifiedCardinality")

  // OWL: axioms and relations
  const InverseOf := Iri("http://www.w3.org/2002/07/owl#inverseOf")
  const Imports := Iri("http://www.w3.org/2002/07/owl#imports")
  const VersionIri := Iri("http://www.w3.org/2002/07/owl#versionIRI")
  const EquivalentClass := Iri("http://www.w3.org/2002/07/owl#equivalentClass")
  const EquivalentProperty := Iri("http://www.w3.org/2002/07/owl#equivalentProperty")
  const DisjointWith := Iri("http://www.w3.org/2002/07/owl#disjointWith")
  const PropertyDisjointWith := Iri("http://www.w3.org/2002/07/owl#propertyDisjointWith")
  const PropertyChainAxiom := Iri("http://www.w3.org/2002/07/owl#propertyChainAxiom")
  const UnionOf := Iri("http://www.w3.org/2002/07/owl#unionOf")
  const IntersectionOf := Iri("http://www.w3.org/2002/07/owl#intersectionOf")
  const ComplementOf := Iri("http://www.w3.org/2002/07/owl#complementOf")
  const OneOf := Iri("http://www.w3.org/2002/07/owl#oneOf")
  const DistinctMembers := Iri("http://www.w3.org/2002/07/owl#distinctMembers")
  const HasKey := Iri("http://www.w3.org/2002/07/owl#hasKey")
  const DisjointUnionOf := Iri("http://www.w3.org/2002/07/owl#disjointUnionOf")
  const SameAs := Iri("http://www.w3.org/2002/07/owl#sameAs")
  const DifferentFrom := Iri("http://www.w3.org/2002/07/owl#differentFrom")
  const Deprecated := Iri("http://www.w3.org/2002/07/owl#deprecated")

  // XSD
  const XsdString := Iri("http://www.w3.org/2001/XMLSchema#string")
  const XsdNonNegativeInteger := "http://www.w3.org/2001/XMLSchema#nonNegativeInteger"

  // SKOS and DCMI terms
  const PrefLabel := Iri("http://www.w3.org/2004/02/skos/core#prefLabel")
  const AltLabel := Iri("http://www.w3.org/2004/02/skos/core#altLabel")
  const Definition := Iri("http://www.w3.org/2004/02/skos/core#definition")
  const Example := Iri("http://www.w3.org/2004/02/skos/core#example")
  const Note := Iri("http://www.w3.org/2004/02/skos/core#note")
  const Title := Iri("http://purl.org/dc/terms/title")
  const Description := Iri("http://purl.org/dc/terms/description")
  const Creator := Iri("http://purl.org/dc/terms/creator")
  const Contributor := Iri("http://purl.org/dc/terms/contributor")
  const Date := Iri("http://purl.org/dc/terms/date")

  /** A name-to-term table, searched like a Python dict: the first entry with the key wins. */
  type Table = seq<(string, Node)>

  function Lookup(table: Table, key: string): (r: Option<Node>)
    ensures r.Some? ==> exists i | 0 <= i < |table| :: table[i] == (key, r.value)
    ensures r.None? <==> forall i | 0 <= i < |table| :: table[i].0 != key
  {
    if table == [] then None
    else if table[0].0 == key then Some(table[0].1)
    else
      var r := Lookup(table[1..], key);
      assert forall i | 1 <= i < |table| :: table[i] == table[1..][i - 1];
      r
  }

  /** The entry Lookup finds is the first whose key matches. */
  lemma {:induction false} LookupAt(table: Table, key: string, i: nat)
    requires i < |table| && table[i].0 == key
    requires forall j | 0 <= j < i :: table[j].0 != key
    ensures Lookup(table, key) == Some(table[i].1)
    decreases i
  {
    if i > 0 {
      var rest := table[1..];
      assert rest[i - 1] == table[i];
      assert forall j | 0 <= j < i - 1 :: rest[j] == table[j + 1];
      LookupAt(rest, key, i - 1);
    }
  }

  /** XSD_DATATYPES. */
  const Datatypes: Table := [
    ("string", XsdString),
    ("integer", Iri("http://www.w3.org/2001/XMLSchema#integer")),
    ("float", Iri("http://www.w3.org/2001/XMLSchema#float")),
    ("double", Iri("http://www.w3.org/2001/XMLSchema#double")),
    ("boolean", Iri("http://www.w3.org/2001/XMLSchema#boolean")),
    ("date", Iri("http://www.w3.org/2001/XMLSchema#date")),
    ("dateTime", Iri("http://www.w3.org/2001/XMLSchema#dateTime")),
    ("time", Iri("http://www.w3.org/2001/XMLSchema#time")),
    ("decimal", Iri("http://www.w3.org/2001/XMLSchema#decimal")),
    ("anyURI", Iri("http://www.w3.org/2001/XMLSchema#anyURI")),
    ("nonNegativeInteger", Iri(XsdNonNegativeInteger)),
    ("positiveInteger", Iri("http://www.w3.org/2001/XMLSchema#positiveInteger"))
  ]

  /** RESTRICTION_TYPES, in dictionary order (get_restrictions reports the first kind present). */
  const RestrictionKinds: Table := [
    ("someValuesFrom", SomeValuesFrom),
    ("allValuesFrom", AllValuesFrom),
    ("hasValue", HasValue),
    ("minCardinality", MinCardinality),
    ("maxCardinality", MaxCardinality),
    ("exactCardinality", Cardinality),
    ("minQualifiedCardinality", MinQualifiedCardinality),
    ("maxQualifiedCardinality", MaxQualifiedCardinality),
    ("qualifiedCardinality", QualifiedCardinality)
  ]

  /** CLASS_RELATIONS. */
  const ClassRelations: Table := [
    ("subClassOf", SubClassOf),
    ("equivalentClass", EquivalentClass),
    ("disjointWith", DisjointWith)
  ]

  /** PROPERTY_RELATIONS. */
  const PropertyRelations: Table := [
    ("subPropertyOf", SubPropertyOf),
    ("equivalentProperty", EquivalentProperty),
    ("inverseOf", InverseOf),
    ("propertyDisjointWith", PropertyDisjointWith)
  ]

  /** INDIVIDUAL_RELATIONS. */
  const IndividualRelations: Table := [
    ("sameAs", SameAs),
    ("differentFrom", DifferentFrom)
  ]

  /** The short annotation names add_annotation understands. */
  const AddAnnotationNames: Table := [
    ("label", Label),
    ("comment", Comment),
    ("seeAlso", SeeAlso),
    ("isDefinedBy", IsDefinedBy),
    ("prefLabel", PrefLabel),
    ("altLabel", AltLabel),
    ("definition", Definition),
    ("example", Example),
    ("note", Note),
    ("title", Title),
    ("description", Description),
    ("creator", Creator),
    ("contributor", Contributor),
    ("date", Date),
    ("deprecated", Deprecated)
  ]

  /** The smaller table delete_annotation uses. */
  const DeleteAnnotationNames: Table := [
    ("label", Label),
    ("comment", Comment),
    ("prefLabel", PrefLabel),
    ("altLabel", AltLabel),
    ("definition", Definition),
    ("note", Note)
  ]

  /** The predicates get_annotations and get_used_annotation_predicates treat as structure, not annotation. */
  const Structural: set<Node> := {
    Type, SubClassOf, SubPropertyOf, Domain, Range,
    EquivalentClass, EquivalentProperty, DisjointWith,
    InverseOf, PropertyChainAxiom,
    OnProperty, SomeValuesFrom, AllValuesFrom,
    HasValue, MinCardinality, MaxCardinality, Cardinality,
    UnionOf, IntersectionOf, ComplementOf, OneOf,
    Imports
  }
}
