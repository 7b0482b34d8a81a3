/**
  Annotations: `add_annotation` and `delete_annotation`, each with its own
  table of short predicate names, and the two views that list annotation
  triples (`get_annotations`, `get_used_annotation_predicates`), which skip
  the structural predicates and anonymous objects.
*/
module Annotations {
  import opened Wrappers
  import opened Rdf
  import opened Vocab
  import opened Naming
  import opened Bags
  import opened Entities
  import opened Views

  /** The predicate add_annotation resolves: an absolute IRI as is, else its table, else `_uri`. */
  function AddPredicate(base: string, name: string): Node {
    if IsAbsolute(name) then Iri(name)
    else
      var known := Lookup(AddAnnotationNames, name);
      if known.Some? then known.value else Uri(base, name)
  }

  /** The predicate delete_annotation resolves: its smaller table, else `_uri`. */
  function DeletePredicate(base: string, name: string): Node {
    var known := Lookup(DeleteAnnotationNames, name);
    if known.Some? then known.value else Uri(base, name)
  }

  /** The literal add_annotation stores: language-tagged when a language is given. */
  function Annotation(value: string, lang: Option<string>): Node {
    if Given(lang) then Lit(value, Some(lang.value), None) else Text(value)
  }

  /** `add_annotation(subject, predicate, value, lang)`. */
  function AddAnnotation(g: set<Triple>, base: string, subject: string, name: string, value: string,
                         lang: Option<string>): (r: set<Triple>)
    ensures g <= r
    ensures Triple(Uri(base, subject), AddPredicate(base, name), Annotation(value, lang)) in r
    ensures forall t | t in r - g ::
      t.s == Uri(base, subject) && t.p == AddPredicate(base, name) && t.o == Annotation(value, lang)
  {
    g + {Triple(Uri(base, subject), AddPredicate(base, name), Annotation(value, lang))}
  }

  /**
    `delete_annotation(subject, predicate, value)`: with a value, the one
    triple carrying that plain literal; without, every triple of the subject
    under that predicate.
  */
  function DeleteAnnotation(g: set<Triple>, base: string, subject: string, name: string,
                            value: Option<string>): (r: set<Triple>)
    ensures r <= g
    ensures forall t | t in g ::
      t !in r <==> t.s == Uri(base, subject) && t.p == DeletePredicate(base, name)
                   && (Given(value) ==> t.o == Text(value.value))
  {
    var s := Uri(base, subject);
    var p := DeletePredicate(base, name);
    if Given(value) then Remove(g, Pattern(Some(s), Some(p), Some(Text(value.value))))
    else Remove(g, Pattern(Some(s), Some(p), None))
  }

  // ---------------------------------------------------------------------------
  // Views

  /** A triple the annotation views list: not structural and not pointing at an anonymous node. */
  predicate IsAnnotation(t: Triple) {
    t.p !in Structural && !t.o.BNode?
  }

  datatype AnnotationInfo = AnnotationInfo(localName: string, predicateUri: string, value: string,
                                           language: Option<string>, dtypeName: Option<string>)

  function AnnotationInfoOf(t: Triple): AnnotationInfo {
    AnnotationInfo(
      NameOf(t.p), Str(t.p), Str(t.o),
      if t.o.Lit? && Given(t.o.lang) then t.o.lang else None,
      if t.o.Lit? && Given(t.o.dtype) then Some(LocalName(t.o.dtype.value)) else None)
  }

  function AnnotationsAbout(g: set<Triple>, s: Node): set<Triple> {
    set t | t in g && t.s == s && IsAnnotation(t)
  }

  /** `get_annotations(subject)`, without the sort by predicate name and the display prefix. */
  ghost function GetAnnotations(g: set<Triple>, base: string, subject: string): multiset<AnnotationInfo> {
    Bag(AnnotationsAbout(g, Uri(base, subject)), AnnotationInfoOf)
  }

  /** `get_used_annotation_predicates`: the distinct predicate IRIs with their local names. */
  function UsedAnnotationPredicates(g: set<Triple>): set<(string, string)> {
    set t | t in g && IsAnnotation(t) :: (Str(t.p), NameOf(t.p))
  }

  // ---------------------------------------------------------------------------
  // Properties

  /**
    An added annotation is listed by both views, unless its predicate is one
    of the structural ones.
  */
  lemma AddThenGetAnnotations(g: set<Triple>, base: string, subject: string, name: string, value: string,
                              lang: Option<string>)
    ensures var r := AddAnnotation(g, base, subject, name, value, lang);
      var p := AddPredicate(base, name);
      var info := AnnotationInfo(NameOf(p), Str(p), value, if Given(lang) then lang else None, None);
      && (info in GetAnnotations(r, base, subject) <==> p !in Structural || info in GetAnnotations(g, base, subject))
      && (p !in Structural ==> (Str(p), NameOf(p)) in UsedAnnotationPredicates(r))
  {
    var r := AddAnnotation(g, base, subject, name, value, lang);
    var p := AddPredicate(base, name);
    var t := Triple(Uri(base, subject), p, Annotation(value, lang));
    var info := AnnotationInfo(NameOf(p), Str(p), value, if Given(lang) then lang else None, None);
    assert AnnotationInfoOf(t) == info;
    BagHas(AnnotationsAbout(r, Uri(base, subject)), AnnotationInfoOf, info);
    BagHas(AnnotationsAbout(g, Uri(base, subject)), AnnotationInfoOf, info);
    if p !in Structural {
      assert t in AnnotationsAbout(r, Uri(base, subject));
    } else {
      assert AnnotationsAbout(r, Uri(base, subject)) == AnnotationsAbout(g, Uri(base, subject));
    }
  }

  /** The names both tables know resolve the same way in both directions. */
  predicate SharedName(name: string) {
    name in {"label", "comment", "prefLabel", "altLabel", "definition", "note"}
  }

  lemma SharedNamesAgree(base: string, name: string)
    requires SharedName(name)
    ensures AddPredicate(base, name) == DeletePredicate(base, name)
  {
    PlainIsRelative(name);
    var ij: (nat, nat) := if name == "label" then (0, 0) else if name == "comment" then (1, 1)
                else if name == "prefLabel" then (4, 2) else if name == "altLabel" then (5, 3)
                else if name == "definition" then (6, 4) else (8, 5);
    LookupAt(AddAnnotationNames, name, ij.0);
    LookupAt(DeleteAnnotationNames, name, ij.1);
  }

  /**
    For the six names both tables know, deleting the value just added without
    a language tag removes exactly that triple.
  */
  lemma AddThenDeleteAnnotation(g: set<Triple>, base: string, subject: string, name: string, value: string)
    requires SharedName(name) && value != ""
    ensures var t := Triple(Uri(base, subject), AddPredicate(base, name), Text(value));
      DeleteAnnotation(AddAnnotation(g, base, subject, name, value, None), base, subject, name, Some(value))
        == g - {t}
  {
    SharedNamesAgree(base, name);
  }

  /**
    Deleting by value never matches a language-tagged annotation: the delete
    builds its literal without a language, so the tagged triple survives.
  */
  lemma TaggedAnnotationSurvivesDelete(g: set<Triple>, base: string, subject: string, name: string,
                                       value: string, lang: string)
    requires lang != "" && value != ""
    ensures Triple(Uri(base, subject), AddPredicate(base, name), Lit(value, Some(lang), None))
      in DeleteAnnotation(AddAnnotation(g, base, subject, name, value, Some(lang)), base, subject, name,
                          Some(value))
  {
    var t := Triple(Uri(base, subject), AddPredicate(base, name), Lit(value, Some(lang), None));
    assert t in AddAnnotation(g, base, subject, name, value, Some(lang));
  }

  /**
    "seeAlso" is resolved to rdfs:seeAlso when adding but to the base
    namespace when deleting, so deleting an added see-also annotation by the
    same short name leaves it in place (unless the base is the RDFS namespace
    itself).
  */
  lemma SeeAlsoSurvivesDelete(g: set<Triple>, base: string, subject: string, value: string)
    requires base != RdfsNs
    requires value != ""
    ensures AddPredicate(base, "seeAlso") == SeeAlso
    ensures DeletePredicate(base, "seeAlso") == Iri(base + "seeAlso")
    ensures Triple(Uri(base, subject), SeeAlso, Text(value))
      in DeleteAnnotation(AddAnnotation(g, base, subject, "seeAlso", value, None), base, subject, "seeAlso",
                          Some(value))
  {
    AddResolvesSeeAlso(base);
    DeleteResolvesSeeAlso(base);
    var t := Triple(Uri(base, subject), SeeAlso, Text(value));
    assert t in AddAnnotation(g, base, subject, "seeAlso", value, None);
  }

  /** The add table resolves "seeAlso" to rdfs:seeAlso. */
  lemma AddResolvesSeeAlso(base: string)
    ensures AddPredicate(base, "seeAlso") == SeeAlso
  {
    PlainIsRelative("seeAlso");
    LookupAt(AddAnnotationNames, "seeAlso", 2);
  }

  /** The delete table has no "seeAlso", so it falls back to the base namespace. */
  lemma DeleteResolvesSeeAlso(base: string)
    requires base != RdfsNs
    ensures DeletePredicate(base, "seeAlso") == Iri(base + "seeAlso") != SeeAlso
  {
    assert forall j | 0 <= j < |DeleteAnnotationNames| :: DeleteAnnotationNames[j].0 != "seeAlso";
    PlainIsRelative("seeAlso");
    assert SeeAlso == Iri(RdfsNs + "seeAlso");
    if Iri(base + "seeAlso") == SeeAlso {
      assert base + "seeAlso" == RdfsNs + "seeAlso";
      SuffixCancels(base, RdfsNs, "seeAlso");
    }
  }

  /** Helper for the seeAlso lemmas: a common suffix cancels from two equal strings. */
  lemma SuffixCancels(a: string, b: string, c: string)
    requires a + c == b + c
    ensures a == b
  {
    assert |a| == |b|;
    assert a == (a + c)[..|a|];
    assert b == (b + c)[..|b|];
  }
}
