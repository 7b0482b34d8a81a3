/**
  Moving the ontology to a new base namespace (`set_base_uri`).

  Three passes, each collected from the graph as it stands and then applied
  update by update: the triples about the old ontology IRI are moved to the
  new one, then the triples pointing at it, then every IRI subject or object
  that starts with the old base is rewritten to the new base with the same
  suffix.
*/
module Rebase {
  import opened Wrappers
  import opened Rdf
  import opened Naming
  import opened Rename

  /** The first two passes: the ontology IRI `a` moves to `b` as subject, then as object. */
  function Moved(g: set<Triple>, a: Node, b: Node): set<Triple> {
    var g1 := Batch(g, SubjectMoves(g, a, b));
    Batch(g1, ObjectMoves(g1, a, b))
  }

  lemma MoveByUpdates(g: set<Triple>, a: Node, b: Node, us: seq<Update>, uo: seq<Update>)
    requires UpdateSet(us) == SubjectMoves(g, a, b)
    requires UpdateSet(uo) == ObjectMoves(Apply(g, us), a, b)
    ensures Apply(Apply(g, us), uo) == Moved(g, a, b)
  {
    ApplyBatch(g, us);
    ApplyBatch(Apply(g, us), uo);
  }

  /** A triple with `a` replaced by `b` as subject and as object. */
  function Moves(t: Triple, a: Node, b: Node): Triple {
    Triple(Swap(t.s, a, b), t.p, Swap(t.o, a, b))
  }

  lemma MovedCoversImage(g: set<Triple>, a: Node, b: Node, t: Triple)
    requires t in g
    ensures Moves(t, a, b) in Moved(g, a, b)
  {
    var g1 := Batch(g, SubjectMoves(g, a, b));
    MovesShape(g, a, b);
    MovesShape(g1, a, b);
    if t.s == a {
      assert Triple(b, t.p, t.o) in g1;
    }
  }

  lemma MovedWithinImage(g: set<Triple>, a: Node, b: Node, x: Triple)
    requires x in Moved(g, a, b)
    ensures exists t | t in g :: x == Moves(t, a, b)
  {
    var g1 := Batch(g, SubjectMoves(g, a, b));
    MovesShape(g, a, b);
    MovesShape(g1, a, b);
    if x in Afters(ObjectMoves(g1, a, b)) {
      var y := Triple(x.s, x.p, a);
      assert y in g1;
      if y in Afters(SubjectMoves(g, a, b)) {
        assert x == Moves(Triple(a, x.p, a), a, b);
      } else {
        assert x == Moves(y, a, b);
      }
    } else if x in Afters(SubjectMoves(g, a, b)) {
      assert x == Moves(Triple(a, x.p, x.o), a, b);
    } else {
      assert x == Moves(x, a, b);
    }
  }

  /**
    Moving the ontology IRI is substituting it in subject and object
    position; predicates are left alone.
  */
  lemma MoveSubstitutes(g: set<Triple>, a: Node, b: Node)
    ensures Moved(g, a, b) == set t | t in g :: Moves(t, a, b)
  {
    forall t | t in g ensures Moves(t, a, b) in Moved(g, a, b) {
      MovedCoversImage(g, a, b, t);
    }
    forall x | x in Moved(g, a, b) ensures x in set t | t in g :: Moves(t, a, b) {
      MovedWithinImage(g, a, b, x);
    }
  }

  /** After the move the old ontology IRI is neither subject nor object of any triple. */
  lemma MovedOntologyGone(g: set<Triple>, a: Node, b: Node)
    requires a != b
    ensures forall t | t in Moved(g, a, b) :: t.s != a && t.o != a
    ensures forall t | t in g :: Moves(t, a, b) in Moved(g, a, b)
  {
    MoveSubstitutes(g, a, b);
  }

  /** An IRI under the old base, rewritten to the new base with the same suffix. */
  function RebaseNode(n: Node, oldBase: string, newBase: string): Node {
    if n.Iri? && oldBase <= n.iri then Iri(newBase + n.iri[|oldBase|..]) else n
  }

  function RebaseTriple(t: Triple, oldBase: string, newBase: string): Triple {
    Triple(RebaseNode(t.s, oldBase, newBase), t.p, RebaseNode(t.o, oldBase, newBase))
  }

  /** The third pass's updates: one per triple that the rewrite changes. */
  function RebaseMoves(g: set<Triple>, oldBase: string, newBase: string): set<Update> {
    set t | t in g && RebaseTriple(t, oldBase, newBase) != t :: Update(t, RebaseTriple(t, oldBase, newBase))
  }

  /** The third pass as the rewrite of every triple at once. */
  function Rebased(g: set<Triple>, oldBase: string, newBase: string): set<Triple> {
    set t | t in g :: RebaseTriple(t, oldBase, newBase)
  }

  /** Neither base is a prefix of the other. */
  predicate Unrelated(x: string, y: string) {
    !(x <= y) && !(y <= x)
  }

  /** Two prefixes of one string are prefix-related. */
  lemma PrefixesRelated(x: string, y: string, z: string)
    requires x <= z && y <= z
    ensures x <= y || y <= x
  {
    if |x| <= |y| {
      assert x == z[..|x|] == y[..|x|];
    } else {
      assert y == z[..|y|] == x[..|y|];
    }
  }

  /** A rewritten IRI does not start with the old base when the two bases are unrelated. */
  lemma RebasedLeavesOldBase(n: Node, oldBase: string, newBase: string)
    requires Unrelated(oldBase, newBase)
    ensures var m := RebaseNode(n, oldBase, newBase); !(m.Iri? && oldBase <= m.iri)
  {
    var m := RebaseNode(n, oldBase, newBase);
    if n.Iri? && oldBase <= n.iri {
      assert newBase <= m.iri;
      if oldBase <= m.iri {
        PrefixesRelated(oldBase, newBase, m.iri);
      }
    }
  }

  /**
    With unrelated bases the third pass is order independent: applying the
    collected updates in any order gives the rewrite of every triple.
  */
  lemma RebaseByUpdates(g: set<Triple>, oldBase: string, newBase: string, u: seq<Update>)
    requires Unrelated(oldBase, newBase)
    requires UpdateSet(u) == RebaseMoves(g, oldBase, newBase)
    ensures Apply(g, u) == Rebased(g, oldBase, newBase)
  {
    var s := RebaseMoves(g, oldBase, newBase);
    forall t | t in g && RebaseTriple(t, oldBase, newBase) != t ensures t in Befores(s) {
      assert Update(t, RebaseTriple(t, oldBase, newBase)) in s;
    }
    forall x, y | x in s && y in s && x.after == y.before ensures y.after == y.before {
      RebasedLeavesOldBase(x.before.s, oldBase, newBase);
      RebasedLeavesOldBase(x.before.o, oldBase, newBase);
    }
    ApplyBatch(g, u);
    var r := Rebased(g, oldBase, newBase);
    forall t | t in Apply(g, u) ensures t in r {
      if t !in Afters(s) {
        assert t in g && t !in Befores(s);
        assert RebaseTriple(t, oldBase, newBase) == t;
      }
    }
    forall x | x in r ensures x in Apply(g, u) {
      var t :| t in g && x == RebaseTriple(t, oldBase, newBase);
      if x != t {
        assert Update(t, x) in s;
        assert x in Afters(s);
      } else {
        assert t !in Befores(s);
      }
    }
  }

  /** With unrelated bases no IRI subject or object starts with the old base after the rewrite. */
  lemma RebaseRemovesOldBase(g: set<Triple>, oldBase: string, newBase: string)
    requires Unrelated(oldBase, newBase)
    ensures forall t | t in Rebased(g, oldBase, newBase) ::
      !(t.s.Iri? && oldBase <= t.s.iri) && !(t.o.Iri? && oldBase <= t.o.iri)
  {
    forall t | t in Rebased(g, oldBase, newBase)
      ensures !(t.s.Iri? && oldBase <= t.s.iri) && !(t.o.Iri? && oldBase <= t.o.iri)
    {
      var u :| u in g && t == RebaseTriple(u, oldBase, newBase);
      RebasedLeavesOldBase(u.s, oldBase, newBase);
      RebasedLeavesOldBase(u.o, oldBase, newBase);
    }
  }

  /**
    When the new base extends the old one, the result depends on the order
    in which the graph yields its triples: here one order loses the triple
    about <http://x/y/a>, which the other keeps.
  */
  lemma RebaseOrderMatters()
    ensures var g := {Triple(Iri("http://x/a"), Iri("p"), Iri("q")), Triple(Iri("http://x/y/a"), Iri("p"), Iri("q"))};
      exists u, v ::
        && UpdateSet(u) == RebaseMoves(g, "http://x/", "http://x/y/")
        && UpdateSet(v) == UpdateSet(u)
        && Apply(g, u) != Apply(g, v)
  {
    var ob, nb := "http://x/", "http://x/y/";
    var p, q := Iri("p"), Iri("q");
    var t1 := Triple(Iri("http://x/a"), p, q);
    var t2 := Triple(Iri("http://x/y/a"), p, q);
    var t3 := Triple(Iri("http://x/y/y/a"), p, q);
    var g := {t1, t2};
    assert ob <= t1.s.iri && t1.s.iri[|ob|..] == "a";
    assert ob <= t2.s.iri && t2.s.iri[|ob|..] == "y/a";
    assert RebaseTriple(t1, ob, nb) == t2;
    assert nb + "y/a" == "http://x/y/y/a";
    assert RebaseTriple(t2, ob, nb) == t3;
    assert !(ob <= q.iri);
    var u := [Update(t1, t2), Update(t2, t3)];
    var v := [Update(t2, t3), Update(t1, t2)];
    assert UpdateSet(u) == {Update(t1, t2), Update(t2, t3)} by {
      assert u[0] == Update(t1, t2) && u[1] == Update(t2, t3);
    }
    assert UpdateSet(v) == {Update(t1, t2), Update(t2, t3)} by {
      assert v[0] == Update(t2, t3) && v[1] == Update(t1, t2);
    }
    assert RebaseMoves(g, ob, nb) == {Update(t1, t2), Update(t2, t3)};
    assert u[..1] == [Update(t1, t2)] && v[..1] == [Update(t2, t3)];
    assert [Update(t1, t2)][..0] == [] && [Update(t2, t3)][..0] == [];
    assert Apply(g, u[..1]) == {t2};
    assert Apply(g, u) == {t3};
    assert Apply(g, v[..1]) == {t1, t3};
    assert t2 in Apply(g, v);
  }

  /** The graph after the third pass applied in the order `u`, or unchanged when the base did not change. */
  function Third(g: set<Triple>, oldBase: string, newBase: string, u: seq<Update>): set<Triple> {
    if oldBase == newBase then g else Apply(g, u)
  }

  /**
    `set_base_uri` in closed form for unrelated bases: the ontology IRI is
    moved, then every IRI under the old base is rewritten.
  */
  lemma SetBaseClosedForm(g: set<Triple>, oldOnt: Node, newOnt: Node, oldBase: string, newBase: string,
                          us: seq<Update>, uo: seq<Update>, u: seq<Update>)
    requires UpdateSet(us) == SubjectMoves(g, oldOnt, newOnt)
    requires UpdateSet(uo) == ObjectMoves(Apply(g, us), oldOnt, newOnt)
    requires UpdateSet(u) == RebaseMoves(Moved(g, oldOnt, newOnt), oldBase, newBase)
    requires Unrelated(oldBase, newBase)
    ensures Third(Apply(Apply(g, us), uo), oldBase, newBase, u) ==
      Rebased(Moved(g, oldOnt, newOnt), oldBase, newBase)
  {
    MoveByUpdates(g, oldOnt, newOnt, us, uo);
    RebaseByUpdates(Moved(g, oldOnt, newOnt), oldBase, newBase, u);
  }

  /** The move and the rewrite put no new anonymous node into the graph. */
  lemma MoveKeepsBlanks(g: set<Triple>, a: Node, b: Node, n: nat)
    requires BlanksBelow(g, n) && !b.BNode?
    ensures BlanksBelow(Moved(g, a, b), n)
  {
    MoveSubstitutes(g, a, b);
  }

  lemma RebaseKeepsBlanks(g: set<Triple>, oldBase: string, newBase: string, u: seq<Update>, n: nat)
    requires BlanksBelow(g, n)
    requires UpdateSet(u) == RebaseMoves(g, oldBase, newBase)
    ensures BlanksBelow(Apply(g, u), n)
  {
    ApplyWithin(g, u);
    forall t | t in Afters(UpdateSet(u)) ensures TripleBelow(t, n) {
      var e :| e in UpdateSet(u) && e.after == t;
      assert TripleBelow(e.before, n);
    }
  }
}
