/**
  Renaming an entity (`rename_class`, `rename_property`, `rename_individual`).

  The source collects, from the graph as it is before the rename, one update
  per triple with the old IRI as subject, then one per triple with it as
  object, then (properties only) one per triple with it as predicate, and
  applies them in that order, each as "remove the old triple, add the new".
  `Renamed` is the closed form of that procedure; `RenameByUpdates` connects
  the two, and the other lemmas say what the closed form does.
*/
module Rename {
  import opened Wrappers
  import opened Rdf
  import opened Vocab
  import opened Naming

  function SubjectMoves(g: set<Triple>, a: Node, b: Node): set<Update> {
    set t | t in g && t.s == a :: Update(t, Triple(b, t.p, t.o))
  }

  function ObjectMoves(g: set<Triple>, a: Node, b: Node): set<Update> {
    set t | t in g && t.o == a :: Update(t, Triple(t.s, t.p, b))
  }

  function PredicateMoves(g: set<Triple>, a: Node, b: Node): set<Update> {
    set t | t in g && t.p == a :: Update(t, Triple(t.s, b, t.o))
  }

  /** Apply one group of updates as a batch. */
  function Batch(g: set<Triple>, s: set<Update>): set<Triple> {
    (g - Befores(s)) + Afters(s)
  }

  /**
    The graph after renaming `a` to `b`: the subject group, then the object
    group, then (when `predicates`) the predicate group, every group
    collected from the original graph `g`.
  */
  function Renamed(g: set<Triple>, a: Node, b: Node, predicates: bool): set<Triple> {
    var g2 := Batch(Batch(g, SubjectMoves(g, a, b)), ObjectMoves(g, a, b));
    if predicates then Batch(g2, PredicateMoves(g, a, b)) else g2
  }

  lemma MovesShape(g: set<Triple>, a: Node, b: Node)
    ensures forall t :: t in Befores(SubjectMoves(g, a, b)) <==> t in g && t.s == a
    ensures forall t :: t in Afters(SubjectMoves(g, a, b)) <==> t.s == b && Triple(a, t.p, t.o) in g
    ensures forall t :: t in Befores(ObjectMoves(g, a, b)) <==> t in g && t.o == a
    ensures forall t :: t in Afters(ObjectMoves(g, a, b)) <==> t.o == b && Triple(t.s, t.p, a) in g
    ensures forall t :: t in Befores(PredicateMoves(g, a, b)) <==> t in g && t.p == a
    ensures forall t :: t in Afters(PredicateMoves(g, a, b)) <==> t.p == b && Triple(t.s, a, t.o) in g
  {
    forall t: Triple | t.s == b && Triple(a, t.p, t.o) in g ensures t in Afters(SubjectMoves(g, a, b)) {
      assert Update(Triple(a, t.p, t.o), t) in SubjectMoves(g, a, b);
    }
    forall t: Triple | t.o == b && Triple(t.s, t.p, a) in g ensures t in Afters(ObjectMoves(g, a, b)) {
      assert Update(Triple(t.s, t.p, a), t) in ObjectMoves(g, a, b);
    }
    forall t: Triple | t.p == b && Triple(t.s, a, t.o) in g ensures t in Afters(PredicateMoves(g, a, b)) {
      assert Update(Triple(t.s, a, t.o), t) in PredicateMoves(g, a, b);
    }
    forall t | t in g && t.s == a ensures t in Befores(SubjectMoves(g, a, b)) {
      assert Update(t, Triple(b, t.p, t.o)) in SubjectMoves(g, a, b);
    }
    forall t | t in g && t.o == a ensures t in Befores(ObjectMoves(g, a, b)) {
      assert Update(t, Triple(t.s, t.p, b)) in ObjectMoves(g, a, b);
    }
    forall t | t in g && t.p == a ensures t in Befores(PredicateMoves(g, a, b)) {
      assert Update(t, Triple(t.s, b, t.o)) in PredicateMoves(g, a, b);
    }
  }

  /**
    Applying the collected update lists in the source's order gives the
    closed form, whatever order each group was collected in.
  */
  lemma RenameByUpdates(g: set<Triple>, a: Node, b: Node, predicates: bool,
                        us: seq<Update>, uo: seq<Update>, up: seq<Update>)
    requires UpdateSet(us) == SubjectMoves(g, a, b)
    requires UpdateSet(uo) == ObjectMoves(g, a, b)
    requires predicates ==> UpdateSet(up) == PredicateMoves(g, a, b)
    requires !predicates ==> up == []
    ensures Apply(g, us + uo + up) == Renamed(g, a, b, predicates)
  {
    ApplyConcat(g, us + uo, up);
    ApplyConcat(g, us, uo);
    ApplyBatch(g, us);
    var g1 := Apply(g, us);
    ApplyBatch(g1, uo);
    if predicates {
      ApplyBatch(Apply(g1, uo), up);
    }
  }

  /** A triple that does not mention `a` in a renamed position is kept. */
  lemma KeepsUnrelated(g: set<Triple>, a: Node, b: Node, predicates: bool, t: Triple)
    requires t in g && t.s != a && t.o != a && (predicates ==> t.p != a)
    ensures t in Renamed(g, a, b, predicates)
  {
    MovesShape(g, a, b);
  }

  /** A triple in the result that mentions neither name was there before. */
  lemma AddsNothingUnrelated(g: set<Triple>, a: Node, b: Node, predicates: bool, t: Triple)
    requires t in Renamed(g, a, b, predicates)
    requires t.s != a && t.o != a && t.s != b && t.o != b
    requires predicates ==> t.p != a && t.p != b
    ensures t in g
  {
    MovesShape(g, a, b);
  }

  function Swap(n: Node, a: Node, b: Node): Node {
    if n == a then b else n
  }

  /** A triple with `a` replaced by `b` in every renamed position. */
  function Substituted(t: Triple, a: Node, b: Node, predicates: bool): Triple {
    Triple(Swap(t.s, a, b), if predicates then Swap(t.p, a, b) else t.p, Swap(t.o, a, b))
  }

  /** No triple mentions `a` in more than one renamed position. */
  predicate MentionedOnce(g: set<Triple>, a: Node, predicates: bool) {
    forall t | t in g ::
      && !(t.s == a && t.o == a)
      && (predicates ==> !(t.s == a && t.p == a) && !(t.p == a && t.o == a))
  }

  /**
    When no triple mentions the old IRI twice, a rename is exactly the
    substitution of the new IRI for the old one, triple by triple.
  */
  lemma RenameSubstitutes(g: set<Triple>, a: Node, b: Node, predicates: bool)
    requires MentionedOnce(g, a, predicates)
    ensures Renamed(g, a, b, predicates) == set t | t in g :: Substituted(t, a, b, predicates)
  {
    MovesShape(g, a, b);
    var r := Renamed(g, a, b, predicates);
    var img := set t | t in g :: Substituted(t, a, b, predicates);
    forall x | x in img ensures x in r {
      var t :| t in g && x == Substituted(t, a, b, predicates);
      if t.s == a {
        assert x == Triple(b, t.p, t.o);
      } else if t.o == a {
        assert x == Triple(t.s, t.p, b);
      } else if predicates && t.p == a {
        assert x == Triple(t.s, b, t.o);
      } else {
        assert x == t;
      }
    }
    forall x | x in r ensures x in img {
      var g1 := Batch(g, SubjectMoves(g, a, b));
      var g2 := Batch(g1, ObjectMoves(g, a, b));
      if predicates && x in Afters(PredicateMoves(g, a, b)) {
        var t := Triple(x.s, a, x.o);
        assert Substituted(t, a, b, predicates) == x;
      } else if x in Afters(ObjectMoves(g, a, b)) {
        var t := Triple(x.s, x.p, a);
        assert Substituted(t, a, b, predicates) == x;
      } else if x in Afters(SubjectMoves(g, a, b)) {
        var t := Triple(a, x.p, x.o);
        assert Substituted(t, a, b, predicates) == x;
      } else {
        assert x in g;
        assert Substituted(x, a, b, predicates) == x;
      }
    }
  }

  /** Under the same condition the old IRI is gone from every renamed position. */
  lemma RenameRemovesOld(g: set<Triple>, a: Node, b: Node, predicates: bool)
    requires MentionedOnce(g, a, predicates) && a != b
    ensures forall t | t in Renamed(g, a, b, predicates) ::
      t.s != a && t.o != a && (predicates ==> t.p != a)
  {
    RenameSubstitutes(g, a, b, predicates);
  }

  /**
    A triple (a, p, a) is hit by both the subject and the object update, so
    the old IRI survives: (a, p, b) is added, and (b, p, a) is added and
    stays unless it was in the graph already, in which case the object
    update removes it.
  */
  lemma SelfReferenceSurvives(g: set<Triple>, a: Node, b: Node, predicates: bool, p: Node)
    requires Triple(a, p, a) in g && a != b
    requires predicates ==> p != a && p != b
    ensures Triple(a, p, b) in Renamed(g, a, b, predicates)
    ensures Triple(b, p, a) in Renamed(g, a, b, predicates) <==> Triple(b, p, a) !in g
  {
    MovesShape(g, a, b);
  }

  /** Every anonymous node of the result was in the graph before. */
  lemma RenameKeepsBlanks(g: set<Triple>, a: Node, b: Node, predicates: bool, n: nat)
    requires BlanksBelow(g, n) && !b.BNode?
    ensures BlanksBelow(Renamed(g, a, b, predicates), n)
  {
    MovesShape(g, a, b);
    forall t | t in Renamed(g, a, b, predicates) ensures TripleBelow(t, n) {
      var g1 := Batch(g, SubjectMoves(g, a, b));
      var g2 := Batch(g1, ObjectMoves(g, a, b));
      if predicates && t in Afters(PredicateMoves(g, a, b)) {
        assert TripleBelow(Triple(t.s, a, t.o), n);
      } else if t in Afters(ObjectMoves(g, a, b)) {
        assert TripleBelow(Triple(t.s, t.p, a), n);
      } else if t in Afters(SubjectMoves(g, a, b)) {
        assert TripleBelow(Triple(a, t.p, t.o), n);
      }
    }
  }

  /** The outcome of a rename: the Boolean it returns and the graph after it. */
  datatype Renaming = Renaming(ok: bool, graph: set<Triple>)

  /**
    The rename procedure shared by the three entity kinds: `taken` says
    whether the new IRI already carries the entity's type.
  */
  function RenameEntity(g: set<Triple>, base: string, oldName: string, newName: string,
                        taken: bool, predicates: bool): (r: Renaming)
    ensures oldName == newName ==> r == Renaming(true, g)
    ensures r.ok <==> oldName == newName || !taken
    ensures !r.ok ==> r.graph == g
    ensures oldName != newName && !taken ==>
      r.graph == Renamed(g, Uri(base, oldName), Uri(base, newName), predicates)
  {
    if oldName == newName then Renaming(true, g)
    else if taken then Renaming(false, g)
    else Renaming(true, Renamed(g, Uri(base, oldName), Uri(base, newName), predicates))
  }

  /** `rename_class`: refused when the new IRI is already an owl:Class. */
  function RenameClass(g: set<Triple>, base: string, oldName: string, newName: string): (r: Renaming)
    ensures r.ok <==> oldName == newName || Triple(Uri(base, newName), Type, OwlClass) !in g
    ensures !r.ok || oldName == newName ==> r.graph == g
    ensures r.ok && oldName != newName ==>
      r.graph == Renamed(g, Uri(base, oldName), Uri(base, newName), false)
  {
    RenameEntity(g, base, oldName, newName, Triple(Uri(base, newName), Type, OwlClass) in g, false)
  }

  /** `rename_property`: refused when the new IRI is already an object or a data property. */
  function RenameProperty(g: set<Triple>, base: string, oldName: string, newName: string): (r: Renaming)
    ensures r.ok <==> (oldName == newName ||
      (Triple(Uri(base, newName), Type, ObjectProperty) !in g &&
       Triple(Uri(base, newName), Type, DatatypeProperty) !in g))
    ensures !r.ok || oldName == newName ==> r.graph == g
    ensures r.ok && oldName != newName ==>
      r.graph == Renamed(g, Uri(base, oldName), Uri(base, newName), true)
  {
    var b := Uri(base, newName);
    RenameEntity(g, base, oldName, newName,
      Triple(b, Type, ObjectProperty) in g || Triple(b, Type, DatatypeProperty) in g, true)
  }

  /** `rename_individual`: refused when the new IRI is already an owl:NamedIndividual. */
  function RenameIndividual(g: set<Triple>, base: string, oldName: string, newName: string): (r: Renaming)
    ensures r.ok <==> oldName == newName || Triple(Uri(base, newName), Type, NamedIndividual) !in g
    ensures !r.ok || oldName == newName ==> r.graph == g
    ensures r.ok && oldName != newName ==>
      r.graph == Renamed(g, Uri(base, oldName), Uri(base, newName), false)
  {
    RenameEntity(g, base, oldName, newName, Triple(Uri(base, newName), Type, NamedIndividual) in g, false)
  }
}
