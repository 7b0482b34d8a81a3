/**
  The `OntologyManager` object: the graph it edits in place, its base
  namespace and ontology IRI, and one method per editing operation. Each
  method states the new graph as the function of the old one that the other
  modules define and reason about, and keeps the manager's invariant: every
  anonymous node in the graph was handed out by the manager's counter, so the
  next one it hands out is fresh. The views (`get_*`, `validate`,
  `get_statistics`) change nothing and are the functions of the other modules
  applied to `triples`.
*/
module Manager {
  import opened Wrappers
  import opened Rdf
  import opened Vocab
  import opened Naming
  import opened Rename
  import opened Rebase
  import opened Entities
  import opened Header
  import opened Restrictions
  import opened Annotations
  import opened Relations
  import opened Lists
  import opened Constructs
  import opened Lint
  import opened Views

  /** The base the source's constructor uses when none is given. */
  const DefaultBase := "http://example.org/ontology#"

  // ---------------------------------------------------------------------------
  // The updates the collecting loops record

  function SubjectUpdate(a: Node, b: Node): Triple -> Option<Triple> {
    (t: Triple) => if t.s == a then Some(Triple(b, t.p, t.o)) else None
  }

  function ObjectUpdate(a: Node, b: Node): Triple -> Option<Triple> {
    (t: Triple) => if t.o == a then Some(Triple(t.s, t.p, b)) else None
  }

  function PredicateUpdate(a: Node, b: Node): Triple -> Option<Triple> {
    (t: Triple) => if t.p == a then Some(Triple(t.s, b, t.o)) else None
  }

  function RebaseUpdate(oldBase: string, newBase: string): Triple -> Option<Triple> {
    (t: Triple) => if RebaseTriple(t, oldBase, newBase) != t then Some(RebaseTriple(t, oldBase, newBase)) else None
  }

  /** What the collecting loop gathers with `f`. */
  function Gathered(g: set<Triple>, f: Triple -> Option<Triple>): set<Update> {
    set t | t in g && f(t).Some? :: Update(t, f(t).value)
  }

  lemma GatheredMoves(g: set<Triple>, a: Node, b: Node)
    ensures Gathered(g, SubjectUpdate(a, b)) == SubjectMoves(g, a, b)
    ensures Gathered(g, ObjectUpdate(a, b)) == ObjectMoves(g, a, b)
    ensures Gathered(g, PredicateUpdate(a, b)) == PredicateMoves(g, a, b)
  {
    forall e | e in SubjectMoves(g, a, b) ensures e in Gathered(g, SubjectUpdate(a, b)) {
      var t :| t in g && t.s == a && e == Update(t, Triple(b, t.p, t.o));
      assert SubjectUpdate(a, b)(t) == Some(Triple(b, t.p, t.o));
    }
    forall e | e in ObjectMoves(g, a, b) ensures e in Gathered(g, ObjectUpdate(a, b)) {
      var t :| t in g && t.o == a && e == Update(t, Triple(t.s, t.p, b));
      assert ObjectUpdate(a, b)(t) == Some(Triple(t.s, t.p, b));
    }
    forall e | e in PredicateMoves(g, a, b) ensures e in Gathered(g, PredicateUpdate(a, b)) {
      var t :| t in g && t.p == a && e == Update(t, Triple(t.s, b, t.o));
      assert PredicateUpdate(a, b)(t) == Some(Triple(t.s, b, t.o));
    }
  }

  lemma GatheredRebase(g: set<Triple>, oldBase: string, newBase: string)
    ensures Gathered(g, RebaseUpdate(oldBase, newBase)) == RebaseMoves(g, oldBase, newBase)
  {
    forall e | e in RebaseMoves(g, oldBase, newBase) ensures e in Gathered(g, RebaseUpdate(oldBase, newBase)) {
      var t :| t in g && RebaseTriple(t, oldBase, newBase) != t && e == Update(t, RebaseTriple(t, oldBase, newBase));
      assert RebaseUpdate(oldBase, newBase)(t) == Some(RebaseTriple(t, oldBase, newBase));
    }
  }

  // ---------------------------------------------------------------------------
  // Fresh anonymous nodes

  lemma BlanksUnion(g: set<Triple>, h: set<Triple>, n: nat)
    requires BlanksBelow(g, n) && BlanksBelow(h, n)
    ensures BlanksBelow(g + h, n)
  {
  }

  lemma BlanksGrow(g: set<Triple>, n: nat, m: nat)
    requires BlanksBelow(g, n) && n <= m
    ensures BlanksBelow(g, m)
  {
  }

  /** Every cell of a list built from `k` on, and every triple linking the cells, is numbered below `k + Cells(n)`. */
  lemma {:induction false} ListTriplesBelow(k: nat, items: seq<Node>)
    requires forall i | 0 <= i < |items| :: !items[i].BNode?
    ensures BlanksBelow(ListTriples(k, items), k + Cells(|items|))
    decreases |items|
  {
    if |items| > 1 {
      ListTriplesBelow(k + 1, items[1..]);
      assert forall i | 0 <= i < |items[1..]| :: !items[1..][i].BNode? by {
        forall i | 0 <= i < |items[1..]| ensures !items[1..][i].BNode? {
          assert items[1..][i] == items[i + 1];
        }
      }
    }
  }

  lemma UrisNamed(base: string, names: seq<string>)
    ensures forall i | 0 <= i < |Uris(base, names)| :: !Uris(base, names)[i].BNode?
  {
  }

  lemma AttachListBelow(g: set<Triple>, s: Node, pred: Node, k: nat, items: seq<Node>)
    requires BlanksBelow(g, k) && !s.BNode? && !pred.BNode?
    requires forall i | 0 <= i < |items| :: !items[i].BNode?
    ensures BlanksBelow(AttachList(g, s, pred, k, items), k + Cells(|items|))
  {
    ListTriplesBelow(k, items);
    BlanksGrow(g, k, k + Cells(|items|));
  }

  /** A counter value above every anonymous node of `g`, as rdflib's fresh `BNode()` is new to the graph. */
  method BlankBound(g: set<Triple>) returns (n: nat)
    ensures BlanksBelow(g, n)
  {
    n := 0;
    var todo := g;
    while todo != {}
      invariant todo <= g
      invariant BlanksBelow(g - todo, n)
      decreases |todo|
    {
      var t :| t in todo;
      ghost var before := n;
      if t.s.BNode? && t.s.id >= n { n := t.s.id + 1; }
      if t.p.BNode? && t.p.id >= n { n := t.p.id + 1; }
      if t.o.BNode? && t.o.id >= n { n := t.o.id + 1; }
      BlanksGrow(g - todo, before, n);
      assert TripleBelow(t, n);
      assert g - (todo - {t}) == (g - todo) + {t};
      todo := todo - {t};
    }
    assert g - todo == g;
  }

  // ---------------------------------------------------------------------------
  // The manager

  class OntologyManager {
    /** `self.graph`. */
    var triples: set<Triple>
    /** `self.base_uri`, which `_uri` resolves names against. */
    var baseUri: string
    /** `self.ontology_uri`. */
    var ontologyUri: Node
    /** How many anonymous nodes have been handed out. */
    var nextBlank: nat

    /** The ontology IRI follows the base, and no anonymous node is numbered at or above the counter. */
    ghost predicate Valid()
      reads this
    {
      && ontologyUri == Iri(OntologyIri(baseUri))
      && BlanksBelow(triples, nextBlank)
    }

    /** `OntologyManager(base_uri)`: a graph holding only the ontology declaration. */
    constructor (base: string)
      ensures Valid()
      ensures baseUri == base && ontologyUri == Iri(OntologyIri(base))
      ensures triples == {Triple(Iri(OntologyIri(base)), Type, Ontology)}
      ensures nextBlank == 0
    {
      baseUri := base;
      ontologyUri := Iri(OntologyIri(base));
      triples := {Triple(Iri(OntologyIri(base)), Type, Ontology)};
      nextBlank := 0;
    }

    /** The fields an edit of the graph alone leaves as they were. */
    ghost predicate SameHeader(oldBase: string, oldOnt: Node, oldNext: nat)
      reads this
    {
      baseUri == oldBase && ontologyUri == oldOnt && nextBlank == oldNext
    }

    // -------------------------------------------------------------------------
    // Header

    method SetOntologyMetadata(labelText: Option<string>, commentText: Option<string>,
                               creator: Option<string>, versionIri: Option<string>)
      modifies this
      requires Valid()
      ensures Valid() && SameHeader(old(baseUri), old(ontologyUri), old(nextBlank))
      ensures triples == Header.SetOntologyMetadata(old(triples), ontologyUri, labelText, commentText, creator, versionIri)
    {
      SetOntologyMetadataBelow(triples, ontologyUri, labelText, commentText, creator, versionIri, nextBlank);
      triples := Header.SetOntologyMetadata(triples, ontologyUri, labelText, commentText, creator, versionIri);
    }

    method AddImport(u: string)
      modifies this
      requires Valid()
      ensures Valid() && SameHeader(old(baseUri), old(ontologyUri), old(nextBlank))
      ensures triples == Header.AddImport(old(triples), ontologyUri, u)
    {
      triples := Header.AddImport(triples, ontologyUri, u);
    }

    method RemoveImport(u: string)
      modifies this
      requires Valid()
      ensures Valid() && SameHeader(old(baseUri), old(ontologyUri), old(nextBlank))
      ensures triples == Header.RemoveImport(old(triples), ontologyUri, u)
    {
      triples := Header.RemoveImport(triples, ontologyUri, u);
    }

    // -------------------------------------------------------------------------
    // Collect, then apply

    /** The applying loop: for each update in turn, remove its old triple and add its new one. */
    method ApplyUpdates(u: seq<Update>)
      modifies this
      ensures triples == Apply(old(triples), u)
      ensures SameHeader(old(baseUri), old(ontologyUri), old(nextBlank))
    {
      var i := 0;
      while i < |u|
        invariant 0 <= i <= |u|
        invariant triples == Apply(old(triples), u[..i])
        invariant SameHeader(old(baseUri), old(ontologyUri), old(nextBlank))
      {
        triples := triples - {u[i].before};
        triples := triples + {u[i].after};
        assert u[..i + 1][..i] == u[..i];
        i := i + 1;
      }
      assert u[..|u|] == u;
    }

    /**
      The common body of the three renames: collect the subject updates, the
      object updates and (for properties) the predicate updates from the
      graph as it is, then apply them in that order.
    */
    method Substitute(a: Node, b: Node, predicates: bool)
      modifies this
      ensures triples == Renamed(old(triples), a, b, predicates)
      ensures SameHeader(old(baseUri), old(ontologyUri), old(nextBlank))
    {
      var g := triples;
      var us := CollectUpdates(g, SubjectUpdate(a, b));
      var uo := CollectUpdates(g, ObjectUpdate(a, b));
      var up: seq<Update> := [];
      if predicates {
        up := CollectUpdates(g, PredicateUpdate(a, b));
      }
      GatheredMoves(g, a, b);
      ApplyUpdates(us + uo + up);
      RenameByUpdates(g, a, b, predicates, us, uo, up);
    }

    // -------------------------------------------------------------------------
    // Base namespace

    /**
      `set_base_uri(new_base_uri)`: an empty argument does nothing; otherwise
      the base is normalised, the ontology IRI follows it, the triples about
      and pointing at the old ontology IRI move to the new one, and then, when
      the base changed, every IRI under the old base is rewritten in the order
      the graph yields its triples. With unrelated bases that order does not
      matter and the result is the rewrite of every triple.
    */
    method SetBaseUri(newBase: string)
      modifies this
      requires Valid()
      ensures Valid() && nextBlank == old(nextBlank)
      ensures newBase == "" ==> triples == old(triples) && baseUri == old(baseUri)
      ensures newBase != "" ==> baseUri == NormalizeBase(newBase)
      ensures newBase != "" ==>
        var m := Moved(old(triples), old(ontologyUri), ontologyUri);
        exists u :: UpdateSet(u) == RebaseMoves(m, old(baseUri), baseUri) && triples == Third(m, old(baseUri), baseUri, u)
      ensures newBase != "" && Unrelated(old(baseUri), baseUri) ==>
        triples == Rebased(Moved(old(triples), old(ontologyUri), ontologyUri), old(baseUri), baseUri)
    {
      if newBase == "" {
        return;
      }
      var g := triples;
      var oldBase := baseUri;
      var oldOnt := ontologyUri;
      baseUri := NormalizeBase(newBase);
      ontologyUri := Iri(OntologyIri(baseUri));
      var us := CollectUpdates(triples, SubjectUpdate(oldOnt, ontologyUri));
      GatheredMoves(triples, oldOnt, ontologyUri);
      ApplyUpdates(us);
      var uo := CollectUpdates(triples, ObjectUpdate(oldOnt, ontologyUri));
      GatheredMoves(triples, oldOnt, ontologyUri);
      ApplyUpdates(uo);
      MoveByUpdates(g, oldOnt, ontologyUri, us, uo);
      MoveKeepsBlanks(g, oldOnt, ontologyUri, nextBlank);
      var m := triples;
      var u: seq<Update> := [];
      if oldBase != baseUri {
        u := CollectUpdates(triples, RebaseUpdate(oldBase, baseUri));
        GatheredRebase(triples, oldBase, baseUri);
        ApplyUpdates(u);
        RebaseKeepsBlanks(m, oldBase, baseUri, u, nextBlank);
      } else {
        u := CollectUpdates(triples, RebaseUpdate(oldBase, baseUri));
        GatheredRebase(triples, oldBase, baseUri);
      }
      assert UpdateSet(u) == RebaseMoves(m, oldBase, baseUri) && triples == Third(m, oldBase, baseUri, u);
      if Unrelated(oldBase, baseUri) {
        RebaseByUpdates(m, oldBase, baseUri, u);
      }
    }

    // -------------------------------------------------------------------------
    // Classes

    method AddClass(name: string, parent: Option<string>, labelText: Option<string>, commentText: Option<string>)
      modifies this
      requires Valid()
      ensures Valid() && SameHeader(old(baseUri), old(ontologyUri), old(nextBlank))
      ensures triples == Entities.AddClass(old(triples), baseUri, name, parent, labelText, commentText)
    {
      triples := Entities.AddClass(triples, baseUri, name, parent, labelText, commentText);
    }

    method UpdateClass(name: string, newLabel: Option<string>, newComment: Option<string>,
                       newParent: Option<string>, removeParent: Option<string>)
      modifies this
      requires Valid()
      ensures Valid() && SameHeader(old(baseUri), old(ontologyUri), old(nextBlank))
      ensures triples == Entities.UpdateClass(old(triples), baseUri, name, newLabel, newComment, newParent, removeParent)
    {
      triples := Entities.UpdateClass(triples, baseUri, name, newLabel, newComment, newParent, removeParent);
    }

    method RenameClass(oldName: string, newName: string) returns (ok: bool)
      modifies this
      requires Valid()
      ensures Valid() && SameHeader(old(baseUri), old(ontologyUri), old(nextBlank))
      ensures ok == Rename.RenameClass(old(triples), baseUri, oldName, newName).ok
      ensures triples == Rename.RenameClass(old(triples), baseUri, oldName, newName).graph
    {
      if oldName == newName {
        return true;
      }
      var a, b := Uri(baseUri, oldName), Uri(baseUri, newName);
      if Triple(b, Type, OwlClass) in triples {
        return false;
      }
      var g := triples;
      Substitute(a, b, false);
      RenameKeepsBlanks(g, a, b, false, nextBlank);
      ok := true;
    }

    method DeleteClass(name: string)
      modifies this
      requires Valid()
      ensures Valid() && SameHeader(old(baseUri), old(ontologyUri), old(nextBlank))
      ensures triples == DeleteEntity(old(triples), Uri(baseUri, name), false)
    {
      triples := DeleteEntity(triples, Uri(baseUri, name), false);
    }

    // -------------------------------------------------------------------------
    // Properties

    method AddObjectProperty(name: string, domain: Option<string>, range: Option<string>,
                             labelText: Option<string>, commentText: Option<string>, traits: Traits,
                             inverseOf: Option<string>)
      modifies this
      requires Valid()
      ensures Valid() && SameHeader(old(baseUri), old(ontologyUri), old(nextBlank))
      ensures triples == Entities.AddObjectProperty(old(triples), baseUri, name, domain, range, labelText, commentText,
                                                    traits, inverseOf)
    {
      ObjectPropertyBelow(triples, baseUri, name, domain, range, labelText, commentText, traits, inverseOf, nextBlank);
      triples := Entities.AddObjectProperty(triples, baseUri, name, domain, range, labelText, commentText,
                                            traits, inverseOf);
    }

    method AddDataProperty(name: string, domain: Option<string>, range: Option<string>,
                           labelText: Option<string>, commentText: Option<string>, functional: bool)
      modifies this
      requires Valid()
      ensures Valid() && SameHeader(old(baseUri), old(ontologyUri), old(nextBlank))
      ensures triples == Entities.AddDataProperty(old(triples), baseUri, name, domain, range, labelText, commentText,
                                                  functional)
    {
      DataPropertyBelow(triples, baseUri, name, domain, range, labelText, commentText, functional, nextBlank);
      triples := Entities.AddDataProperty(triples, baseUri, name, domain, range, labelText, commentText, functional);
    }

    method UpdateProperty(name: string, newLabel: Option<string>, newComment: Option<string>,
                          newDomain: Option<string>, newRange: Option<string>)
      modifies this
      requires Valid()
      ensures Valid() && SameHeader(old(baseUri), old(ontologyUri), old(nextBlank))
      ensures triples == Entities.UpdateProperty(old(triples), baseUri, name, newLabel, newComment, newDomain, newRange)
    {
      UpdatePropertyBelow(triples, baseUri, name, newLabel, newComment, newDomain, newRange, nextBlank);
      triples := Entities.UpdateProperty(triples, baseUri, name, newLabel, newComment, newDomain, newRange);
    }

    method RenameProperty(oldName: string, newName: string) returns (ok: bool)
      modifies this
      requires Valid()
      ensures Valid() && SameHeader(old(baseUri), old(ontologyUri), old(nextBlank))
      ensures ok == Rename.RenameProperty(old(triples), baseUri, oldName, newName).ok
      ensures triples == Rename.RenameProperty(old(triples), baseUri, oldName, newName).graph
    {
      if oldName == newName {
        return true;
      }
      var a, b := Uri(baseUri, oldName), Uri(baseUri, newName);
      if Triple(b, Type, ObjectProperty) in triples || Triple(b, Type, DatatypeProperty) in triples {
        return false;
      }
      var g := triples;
      Substitute(a, b, true);
      RenameKeepsBlanks(g, a, b, true, nextBlank);
      ok := true;
    }

    method DeleteProperty(name: string)
      modifies this
      requires Valid()
      ensures Valid() && SameHeader(old(baseUri), old(ontologyUri), old(nextBlank))
      ensures triples == DeleteEntity(old(triples), Uri(baseUri, name), true)
    {
      triples := DeleteEntity(triples, Uri(baseUri, name), true);
    }

    // -------------------------------------------------------------------------
    // Individuals

    method AddIndividual(name: string, className: string, labelText: Option<string>, commentText: Option<string>)
      modifies this
      requires Valid()
      ensures Valid() && SameHeader(old(baseUri), old(ontologyUri), old(nextBlank))
      ensures triples == Entities.AddIndividual(old(triples), baseUri, name, className, labelText, commentText)
    {
      triples := Entities.AddIndividual(triples, baseUri, name, className, labelText, commentText);
    }

    method AddIndividualProperty(individual: string, property: string, value: string, isObjectProperty: bool)
      modifies this
      requires Valid()
      ensures Valid() && SameHeader(old(baseUri), old(ontologyUri), old(nextBlank))
      ensures triples == Entities.AddIndividualProperty(old(triples), baseUri, individual, property, value,
                                                        isObjectProperty)
    {
      triples := Entities.AddIndividualProperty(triples, baseUri, individual, property, value, isObjectProperty);
    }

    method UpdateIndividual(name: string, newLabel: Option<string>, newComment: Option<string>,
                            addClass: Option<string>, removeClass: Option<string>)
      modifies this
      requires Valid()
      ensures Valid() && SameHeader(old(baseUri), old(ontologyUri), old(nextBlank))
      ensures triples == Entities.UpdateIndividual(old(triples), baseUri, name, newLabel, newComment, addClass,
                                                   removeClass)
    {
      triples := Entities.UpdateIndividual(triples, baseUri, name, newLabel, newComment, addClass, removeClass);
    }

    method RenameIndividual(oldName: string, newName: string) returns (ok: bool)
      modifies this
      requires Valid()
      ensures Valid() && SameHeader(old(baseUri), old(ontologyUri), old(nextBlank))
      ensures ok == Rename.RenameIndividual(old(triples), baseUri, oldName, newName).ok
      ensures triples == Rename.RenameIndividual(old(triples), baseUri, oldName, newName).graph
    {
      if oldName == newName {
        return true;
      }
      var a, b := Uri(baseUri, oldName), Uri(baseUri, newName);
      if Triple(b, Type, NamedIndividual) in triples {
        return false;
      }
      var g := triples;
      Substitute(a, b, false);
      RenameKeepsBlanks(g, a, b, false, nextBlank);
      ok := true;
    }

    method DeleteIndividual(name: string)
      modifies this
      requires Valid()
      ensures Valid() && SameHeader(old(baseUri), old(ontologyUri), old(nextBlank))
      ensures triples == DeleteEntity(old(triples), Uri(baseUri, name), false)
    {
      triples := DeleteEntity(triples, Uri(baseUri, name), false);
    }

    // -------------------------------------------------------------------------
    // Restrictions

    /** `add_restriction`: the new anonymous node is the counter's next one, used even when the call raises. */
    method AddRestriction(className: string, propertyName: string, kind: string, value: RestrictionValue,
                          onClass: Option<string>) returns (r: Result<Node, Raised>)
      modifies this
      requires Valid()
      ensures Valid() && baseUri == old(baseUri) && ontologyUri == old(ontologyUri)
      ensures nextBlank == old(nextBlank) + 1
      ensures var o := Restrictions.AddRestriction(old(triples), baseUri, BNode(old(nextBlank)), className,
                                                   propertyName, kind, value, onClass);
        triples == o.graph && r == o.result
    {
      var b := BNode(nextBlank);
      var o := Restrictions.AddRestriction(triples, baseUri, b, className, propertyName, kind, value, onClass);
      RestrictionBelow(triples, baseUri, nextBlank, className, propertyName, kind, value, onClass);
      triples := o.graph;
      r := o.result;
      nextBlank := nextBlank + 1;
    }

    /**
      `delete_restriction`: look through the owl:Restriction nodes for one on
      the property, under the class, with a value for the kind, and detach the
      first one found.
    */
    method DeleteRestriction(className: string, propertyName: string, kind: string) returns (deleted: bool)
      modifies this
      requires Valid()
      ensures Valid() && SameHeader(old(baseUri), old(ontologyUri), old(nextBlank))
      ensures var cs := Candidates(old(triples), Uri(baseUri, className), Uri(baseUri, propertyName), kind);
        && (deleted <==> cs != {})
        && (!deleted ==> triples == old(triples))
        && (deleted ==> exists r | r in cs :: triples == Detach(old(triples), Uri(baseUri, className), r))
    {
      var c, p := Uri(baseUri, className), Uri(baseUri, propertyName);
      var restrictions := Subjects(triples, Type, Restriction);
      var todo := restrictions;
      while todo != {}
        invariant todo <= restrictions
        invariant forall r | r in restrictions - todo :: r !in Candidates(triples, c, p, kind)
        decreases |todo|
      {
        var r :| r in todo;
        if Triple(r, OnProperty, p) in triples && Triple(c, SubClassOf, r) in triples {
          var pred := Lookup(RestrictionKinds, kind);
          if pred.Some? && Objects(triples, r, pred.value) != {} {
            assert r in Candidates(triples, c, p, kind);
            triples := Detach(triples, c, r);
            return true;
          }
        }
        todo := todo - {r};
      }
      assert restrictions - todo == restrictions;
      return false;
    }

    // -------------------------------------------------------------------------
    // Annotations and relations

    method AddAnnotation(subject: string, name: string, value: string, lang: Option<string>)
      modifies this
      requires Valid()
      ensures Valid() && SameHeader(old(baseUri), old(ontologyUri), old(nextBlank))
      ensures triples == Annotations.AddAnnotation(old(triples), baseUri, subject, name, value, lang)
    {
      triples := Annotations.AddAnnotation(triples, baseUri, subject, name, value, lang);
    }

    method DeleteAnnotation(subject: string, name: string, value: Option<string>)
      modifies this
      requires Valid()
      ensures Valid() && SameHeader(old(baseUri), old(ontologyUri), old(nextBlank))
      ensures triples == Annotations.DeleteAnnotation(old(triples), baseUri, subject, name, value)
    {
      triples := Annotations.DeleteAnnotation(triples, baseUri, subject, name, value);
    }

    /** `add_class_relation`, `add_property_relation` or `add_individual_relation`, after the table given. */
    method AddRelation(table: Table, a: string, relation: string, b: string)
      modifies this
      requires Valid()
      requires table in {ClassRelations, PropertyRelations, IndividualRelations}
      ensures Valid() && SameHeader(old(baseUri), old(ontologyUri), old(nextBlank))
      ensures triples == Relations.AddRelation(old(triples), baseUri, table, a, relation, b)
    {
      RelationTablesNamed(relation);
      triples := Relations.AddRelation(triples, baseUri, table, a, relation, b);
    }

    /** `remove_class_relation` and its two siblings. */
    method RemoveRelation(table: Table, a: string, relation: string, b: string)
      modifies this
      requires Valid()
      ensures Valid() && SameHeader(old(baseUri), old(ontologyUri), old(nextBlank))
      ensures triples == Relations.RemoveRelation(old(triples), baseUri, table, a, relation, b)
    {
      triples := Relations.RemoveRelation(triples, baseUri, table, a, relation, b);
    }

    // -------------------------------------------------------------------------
    // RDF collections

    method AddPropertyChain(property: string, chain: seq<string>)
      modifies this
      requires Valid()
      ensures Valid() && baseUri == old(baseUri) && ontologyUri == old(ontologyUri)
      ensures triples == Constructs.AddPropertyChain(old(triples), baseUri, old(nextBlank), property, chain)
      ensures nextBlank == old(nextBlank) + Cells(|chain|)
    {
      UrisNamed(baseUri, chain);
      AttachListBelow(triples, Uri(baseUri, property), PropertyChainAxiom, nextBlank, Uris(baseUri, chain));
      triples := Constructs.AddPropertyChain(triples, baseUri, nextBlank, property, chain);
      nextBlank := nextBlank + Cells(|chain|);
    }

    /** `add_class_expression`; an absent list is the empty sequence. */
    method AddClassExpression(className: string, kind: string, classes: seq<string>, individuals: seq<string>)
      modifies this
      requires Valid()
      ensures Valid() && baseUri == old(baseUri) && ontologyUri == old(ontologyUri)
      ensures triples == Constructs.AddClassExpression(old(triples), baseUri, old(nextBlank), className, kind,
                                                       classes, individuals)
      ensures nextBlank == old(nextBlank) + ExpressionCells(kind, classes, individuals)
    {
      var k := nextBlank;
      var c := Uri(baseUri, className);
      UrisNamed(baseUri, classes);
      UrisNamed(baseUri, individuals);
      if kind == "oneOf" && |individuals| > 0 {
        AttachListBelow(triples, c, OneOf, k, Uris(baseUri, individuals));
      } else if kind == "unionOf" && |classes| > 0 {
        AttachListBelow(triples, c, UnionOf, k, Uris(baseUri, classes));
      } else if kind == "intersectionOf" && |classes| > 0 {
        AttachListBelow(triples, c, IntersectionOf, k, Uris(baseUri, classes));
      }
      triples := Constructs.AddClassExpression(triples, baseUri, k, className, kind, classes, individuals);
      nextBlank := k + ExpressionCells(kind, classes, individuals);
    }

    method AddAllDifferent(individuals: seq<string>)
      modifies this
      requires Valid()
      ensures Valid() && baseUri == old(baseUri) && ontologyUri == old(ontologyUri)
      ensures triples == Constructs.AddAllDifferent(old(triples), baseUri, old(nextBlank), individuals)
      ensures nextBlank == old(nextBlank) + 1 + Cells(|individuals|)
    {
      var k := nextBlank;
      UrisNamed(baseUri, individuals);
      ListTriplesBelow(k + 1, Uris(baseUri, individuals));
      BlanksGrow(triples, k, k + 1 + Cells(|individuals|));
      triples := Constructs.AddAllDifferent(triples, baseUri, k, individuals);
      nextBlank := k + 1 + Cells(|individuals|);
    }

    method AddHasKey(className: string, properties: seq<string>)
      modifies this
      requires Valid()
      ensures Valid() && baseUri == old(baseUri) && ontologyUri == old(ontologyUri)
      ensures triples == Constructs.AddHasKey(old(triples), baseUri, old(nextBlank), className, properties)
      ensures nextBlank == old(nextBlank) + Cells(|properties|)
    {
      UrisNamed(baseUri, properties);
      AttachListBelow(triples, Uri(baseUri, className), HasKey, nextBlank, Uris(baseUri, properties));
      triples := Constructs.AddHasKey(triples, baseUri, nextBlank, className, properties);
      nextBlank := nextBlank + Cells(|properties|);
    }

    method AddDisjointUnion(className: string, classes: seq<string>)
      modifies this
      requires Valid()
      ensures Valid() && baseUri == old(baseUri) && ontologyUri == old(ontologyUri)
      ensures triples == Constructs.AddDisjointUnion(old(triples), baseUri, old(nextBlank), className, classes)
      ensures nextBlank == old(nextBlank) + Cells(|classes|)
    {
      UrisNamed(baseUri, classes);
      AttachListBelow(triples, Uri(baseUri, className), DisjointUnionOf, nextBlank, Uris(baseUri, classes));
      triples := Constructs.AddDisjointUnion(triples, baseUri, nextBlank, className, classes);
      nextBlank := nextBlank + Cells(|classes|);
    }

    // -------------------------------------------------------------------------
    // Reasoning

    /**
      `apply_reasoning(profile)` with the reasoner's inferences given: the
      count of new triples is returned, and the counter moves past any
      anonymous node the reasoner introduced.
    */
    method ApplyReasoning(profile: string, inferred: set<Triple>) returns (added: int)
      modifies this
      requires Valid()
      ensures Valid() && baseUri == old(baseUri) && ontologyUri == old(ontologyUri)
      ensures (triples, added) == Lint.ApplyReasoning(old(triples), profile, inferred)
      ensures nextBlank >= old(nextBlank)
    {
      var r := Lint.ApplyReasoning(triples, profile, inferred);
      triples, added := r.0, r.1;
      var n := BlankBound(triples);
      if n > nextBlank {
        nextBlank := n;
      } else {
        BlanksGrow(triples, n, nextBlank);
      }
    }
  }

  // ---------------------------------------------------------------------------
  // Invariant lemmas

  /** The anonymous node the counter hands out next is one no triple mentions. */
  lemma CounterIsFresh(g: set<Triple>, k: nat)
    requires BlanksBelow(g, k)
    ensures Fresh(g, BNode(k))
  {
    forall t | t in g ensures t.s != BNode(k) && t.o != BNode(k) {
      assert TripleBelow(t, k);
    }
  }

  /**
    In a valid manager, a restriction `add_restriction` builds without raising
    is listed by `get_restrictions` for its class, and is one
    `delete_restriction` may detach to give back the graph as it was.
  */
  lemma ManagedRestriction(g: set<Triple>, base: string, k: nat, className: string, propertyName: string,
                           kind: string, value: RestrictionValue, onClass: Option<string>)
    requires BlanksBelow(g, k)
    requires Truthy(Uri(base, propertyName))
    requires Restrictions.AddRestriction(g, base, BNode(k), className, propertyName, kind, value, onClass).result.Ok?
    ensures var h := Restrictions.AddRestriction(g, base, BNode(k), className, propertyName, kind, value, onClass).graph;
      var qc := QualifyingClass(base, kind, onClass);
      && RestrictionInfo(NameOf(Uri(base, propertyName)), Some(kind), Some(Display(Filler(base, kind, value).value)),
                         if qc.Some? then Some(NameOf(qc.value)) else None,
                         multiset{NameOf(Uri(base, className))})
           in GetRestrictions(h, Some(NameOf(Uri(base, className))))
      && BNode(k) in Candidates(h, Uri(base, className), Uri(base, propertyName), kind)
      && Detach(h, Uri(base, className), BNode(k)) == g
  {
    CounterIsFresh(g, k);
    AddThenGetRestrictions(g, base, BNode(k), className, propertyName, kind, value, onClass);
    AddThenDeleteRestriction(g, base, BNode(k), className, propertyName, kind, value, onClass);
  }

  /** Whatever `add_restriction` adds mentions no anonymous node but the new one. */
  lemma RestrictionBelow(g: set<Triple>, base: string, k: nat, className: string, propertyName: string,
                         kind: string, value: RestrictionValue, onClass: Option<string>)
    requires BlanksBelow(g, k)
    ensures BlanksBelow(Restrictions.AddRestriction(g, base, BNode(k), className, propertyName, kind, value,
                                                    onClass).graph, k + 1)
  {
    var b := BNode(k);
    var o := Restrictions.AddRestriction(g, base, b, className, propertyName, kind, value, onClass);
    var h := Head(b, Uri(base, propertyName));
    assert BlanksBelow(h, k + 1);
    BlanksGrow(g, k, k + 1);
    var pred := Lookup(RestrictionKinds, kind);
    if pred.None? || o.result.Err? {
      assert o.graph == g + h;
    } else {
      KindsCovered(kind);
      KindTableIris(kind);
      var filler := Filler(base, kind, value);
      FillerNamed(base, kind, value);
      var d := Body(b, Uri(base, className), pred.value, filler.value, QualifyingClass(base, kind, onClass));
      assert o.graph == g + h + d;
      assert BlanksBelow(d, k + 1);
    }
  }

  /** A restriction's value is never an anonymous node. */
  lemma FillerNamed(base: string, kind: string, value: RestrictionValue)
    requires ClassValued(kind) || kind == "hasValue" || Unqualified(kind) || Qualified(kind)
    ensures Filler(base, kind, value).Ok? ==> !Filler(base, kind, value).value.BNode?
  {
  }

  /** `add_object_property` adds no anonymous node. */
  lemma ObjectPropertyBelow(g: set<Triple>, base: string, name: string, domain: Option<string>,
                            range: Option<string>, labelText: Option<string>, commentText: Option<string>,
                            traits: Traits, inverseOf: Option<string>, n: nat)
    requires BlanksBelow(g, n)
    ensures BlanksBelow(Entities.AddObjectProperty(g, base, name, domain, range, labelText, commentText, traits,
                                                   inverseOf), n)
  {
    var p := Uri(base, name);
    ObjectPropertyParts(g, base, name, domain, range, labelText, commentText, traits, inverseOf);
    CoreBelow(p, base, domain, range, labelText, commentText, inverseOf, n);
    TraitsBelow(p, traits, n);
  }

  lemma CoreBelow(p: Node, base: string, domain: Option<string>, range: Option<string>,
                  labelText: Option<string>, commentText: Option<string>, inverseOf: Option<string>, n: nat)
    requires p.Iri?
    ensures BlanksBelow(ObjectPropertyCore(p, base, domain, range, labelText, commentText, inverseOf), n)
  {
  }

  lemma TraitsBelow(p: Node, traits: Traits, n: nat)
    requires p.Iri?
    ensures BlanksBelow(set k | k in TraitTypes(traits) :: Triple(p, Type, k), n)
  {
    forall t | t in (set k | k in TraitTypes(traits) :: Triple(p, Type, k)) ensures TripleBelow(t, n) {
      var k :| k in TraitTypes(traits) && t == Triple(p, Type, k);
      assert k.Iri?;
    }
  }

  /** `add_data_property` adds no anonymous node. */
  lemma DataPropertyBelow(g: set<Triple>, base: string, name: string, domain: Option<string>,
                          range: Option<string>, labelText: Option<string>, commentText: Option<string>,
                          functional: bool, n: nat)
    requires BlanksBelow(g, n)
    ensures BlanksBelow(Entities.AddDataProperty(g, base, name, domain, range, labelText, commentText,
                                                 functional), n)
  {
    var d := DataPropertyTriples(Uri(base, name), base, domain, range, labelText, commentText, functional);
    assert Entities.AddDataProperty(g, base, name, domain, range, labelText, commentText, functional) == g + d;
    DataPropertyTriplesBelow(Uri(base, name), base, domain, range, labelText, commentText, functional, n);
  }

  lemma DataPropertyTriplesBelow(p: Node, base: string, domain: Option<string>, range: Option<string>,
                                 labelText: Option<string>, commentText: Option<string>, functional: bool, n: nat)
    requires p.Iri?
    ensures BlanksBelow(DataPropertyTriples(p, base, domain, range, labelText, commentText, functional), n)
  {
    assert BlanksBelow(DataPropertyCore(p, base, domain, range, labelText, commentText), n);
  }

  /** Resetting one slot of a named entity stores an IRI or a literal, never an anonymous node. */
  lemma UpdateSlotBelow(g: set<Triple>, base: string, x: Node, s: Slot, v: Option<string>, n: nat)
    requires BlanksBelow(g, n) && x.Iri?
    ensures BlanksBelow(UpdateSlot(g, base, x, s, v), n)
  {
    if Given(v) {
      assert forall i | 0 <= i < |Datatypes| :: Datatypes[i].1.Iri?;
      assert !SlotValue(s, base, v.value).BNode?;
    }
  }

  /** `update_property` adds no anonymous node. */
  lemma UpdatePropertyBelow(g: set<Triple>, base: string, name: string, newLabel: Option<string>,
                            newComment: Option<string>, newDomain: Option<string>, newRange: Option<string>, n: nat)
    requires BlanksBelow(g, n)
    ensures BlanksBelow(Entities.UpdateProperty(g, base, name, newLabel, newComment, newDomain, newRange), n)
  {
    var p := Uri(base, name);
    var g1 := UpdateSlot(g, base, p, LabelSlot, newLabel);
    var g2 := UpdateSlot(g1, base, p, CommentSlot, newComment);
    var g3 := UpdateSlot(g2, base, p, DomainSlot, newDomain);
    UpdateSlotBelow(g, base, p, LabelSlot, newLabel, n);
    UpdateSlotBelow(g1, base, p, CommentSlot, newComment, n);
    UpdateSlotBelow(g2, base, p, DomainSlot, newDomain, n);
    UpdateSlotBelow(g3, base, p, RangeSlot, newRange, n);
  }

  /** The restriction kinds' predicates are IRIs. */
  lemma KindTableIris(kind: string)
    ensures Lookup(RestrictionKinds, kind).Some? ==> Lookup(RestrictionKinds, kind).value.Iri?
  {
    if Lookup(RestrictionKinds, kind).Some? {
      assert forall i | 0 <= i < |RestrictionKinds| :: RestrictionKinds[i].1.Iri?;
      var i :| 0 <= i < |RestrictionKinds| && RestrictionKinds[i] == (kind, Lookup(RestrictionKinds, kind).value);
    }
  }

  /** The relation tables' predicates are IRIs. */
  lemma RelationTablesNamed(relation: string)
    ensures forall table | table in {ClassRelations, PropertyRelations, IndividualRelations} ::
      Lookup(table, relation).Some? ==> Lookup(table, relation).value.Iri?
  {
    assert forall i | 0 <= i < |ClassRelations| :: ClassRelations[i].1.Iri?;
    assert forall i | 0 <= i < |PropertyRelations| :: PropertyRelations[i].1.Iri?;
    assert forall i | 0 <= i < |IndividualRelations| :: IndividualRelations[i].1.Iri?;
  }
}
