/**
  The triple store the manager is built on: nodes, triples, the pattern-based
  primitives of an rdflib Graph (add, set, remove, membership, value) and the
  "collect a list of updates, then apply them one by one" idiom that the
  manager's renames and its namespace rebase use.
*/
module Rdf {
  import opened Wrappers

  /** A node: a named resource, an anonymous node numbered by the manager's counter, or a literal. */
  datatype Node =
    | Iri(iri: string)
    | BNode(id: nat)
    | Lit(value: string, lang: Option<string>, dtype: Option<string>)

  datatype Triple = Triple(s: Node, p: Node, o: Node)

  /** The Python exceptions an operation can raise. */
  datatype Raised = ValueError(message: string) | AttributeError

  /** The graph an operation leaves behind, and its return value or the exception it raised. */
  datatype Outcome<T> = Outcome(graph: set<Triple>, result: Result<T, Raised>)

  /** A pattern for remove / triples(): None is a wildcard position. */
  datatype Pattern = Pattern(s: Option<Node>, p: Option<Node>, o: Option<Node>)

  predicate Matches(t: Triple, pat: Pattern) {
    && (pat.s.None? || pat.s.value == t.s)
    && (pat.p.None? || pat.p.value == t.p)
    && (pat.o.None? || pat.o.value == t.o)
  }

  /** Graph.remove(pattern): every matching triple goes, every other one stays. */
  function Remove(g: set<Triple>, pat: Pattern): (r: set<Triple>)
    ensures r <= g
    ensures forall t | t in g :: t in r <==> !Matches(t, pat)
  {
    set t | t in g && !Matches(t, pat)
  }

  /** Graph.set((s, p, o)): remove (s, p, *) and add (s, p, o). */
  function SetTriple(g: set<Triple>, s: Node, p: Node, o: Node): (r: set<Triple>)
    ensures Triple(s, p, o) in r
    ensures forall t | t in r && t.s == s && t.p == p :: t.o == o
    ensures forall t | t in g && !(t.s == s && t.p == p) :: t in r
    ensures r <= g + {Triple(s, p, o)}
  {
    Remove(g, Pattern(Some(s), Some(p), None)) + {Triple(s, p, o)}
  }

  /** The objects of the triples (s, p, *). */
  function Objects(g: set<Triple>, s: Node, p: Node): set<Node> {
    set t | t in g && t.s == s && t.p == p :: t.o
  }

  /** The subjects of the triples (*, p, o). */
  function Subjects(g: set<Triple>, p: Node, o: Node): set<Node> {
    set t | t in g && t.p == p && t.o == o :: t.s
  }

  /**
    Some element of a non-empty set; which one is left unspecified, like
    rdflib's iteration order. This is `Bags.Any` specialised to nodes; the
    lemmas about `Value` are noticeably cheaper for the solver with this
    monomorphic choice than with the generic one, so the two stay apart.
  */
  ghost function Pick(nodes: set<Node>): (n: Node)
    requires nodes != {}
    ensures n in nodes
  {
    var n :| n in nodes; n
  }

  /** Graph.value(s, p): some object of (s, p, *), or None when there is none. */
  ghost function Value(g: set<Triple>, s: Node, p: Node): (r: Option<Node>)
    ensures r.Some? ==> Triple(s, p, r.value) in g
    ensures r.None? <==> Objects(g, s, p) == {}
  {
    var objs := Objects(g, s, p);
    if objs == {} then None else
      var o := Pick(objs);
      assert o in objs;
      Some(o)
  }

  /** A single-valued slice determines what Graph.value returns. */
  lemma ValueOfSingle(g: set<Triple>, s: Node, p: Node, o: Node)
    requires Objects(g, s, p) == {o}
    ensures Value(g, s, p) == Some(o)
  {
  }

  /** Python truthiness of a node: an empty IRI or an empty literal is false. */
  predicate Truthy(n: Node) {
    match n
    case Iri(s) => s != ""
    case BNode(_) => true
    case Lit(v, _, _) => v != ""
  }

  function DigitChar(d: nat): char
    requires d < 10
  {
    "0123456789"[d]
  }

  /** The decimal numeral of n, as Python's str(int). */
  function NatToString(n: nat): (r: string)
    ensures |r| > 0
    decreases n
  {
    if n < 10 then [DigitChar(n)] else NatToString(n / 10) + [DigitChar(n % 10)]
  }

  /** Python's str() of a node: the IRI, the lexical form of a literal, or the anonymous node's label. */
  function Str(n: Node): string {
    match n
    case Iri(s) => s
    case BNode(k) => "_:b" + NatToString(k)
    case Lit(v, _, _) => v
  }

  /** Python truthiness of an optional string argument: given and not empty. */
  predicate Given(o: Option<string>) {
    o.Some? && o.value != ""
  }

  /** Every anonymous node is numbered below `n`: the manager's counter has not handed `n` out yet. */
  predicate NodeBelow(x: Node, n: nat) {
    x.BNode? ==> x.id < n
  }

  predicate TripleBelow(t: Triple, n: nat) {
    NodeBelow(t.s, n) && NodeBelow(t.p, n) && NodeBelow(t.o, n)
  }

  predicate BlanksBelow(g: set<Triple>, n: nat) {
    forall t | t in g :: TripleBelow(t, n)
  }

  // ---------------------------------------------------------------------------
  // Collect-then-apply updates

  /** One entry of an `updates` list: remove `before`, then add `after`. */
  datatype Update = Update(before: Triple, after: Triple)

  function Step(g: set<Triple>, e: Update): set<Triple> {
    (g - {e.before}) + {e.after}
  }

  /** The graph after applying the updates in list order. */
  function Apply(g: set<Triple>, u: seq<Update>): set<Triple>
    decreases |u|
  {
    if u == [] then g else Step(Apply(g, u[..|u| - 1]), u[|u| - 1])
  }

  function UpdateSet(u: seq<Update>): set<Update> {
    set i | 0 <= i < |u| :: u[i]
  }

  function Befores(s: set<Update>): set<Triple> {
    set e | e in s :: e.before
  }

  function Afters(s: set<Update>): set<Triple> {
    set e | e in s :: e.after
  }

  /**
    No update adds a triple that another update of the same list removes,
    unless that other update puts it straight back.
  */
  ghost predicate InterferenceFree(s: set<Update>) {
    forall x, y | x in s && y in s :: x.after == y.before ==> y.after == y.before
  }

  lemma UpdateSetAppend(u: seq<Update>, e: Update)
    ensures UpdateSet(u + [e]) == UpdateSet(u) + {e}
  {
    var v := u + [e];
    forall x | x in UpdateSet(v) ensures x in UpdateSet(u) + {e} {
      var i :| 0 <= i < |v| && v[i] == x;
      if i < |u| { assert u[i] == x; }
    }
    forall x | x in UpdateSet(u) ensures x in UpdateSet(v) {
      var i :| 0 <= i < |u| && u[i] == x;
      assert v[i] == x;
    }
    assert v[|u|] == e;
  }

  /** Applying a concatenation is applying its parts in turn. */
  lemma {:induction false} ApplyConcat(g: set<Triple>, a: seq<Update>, b: seq<Update>)
    ensures Apply(g, a + b) == Apply(Apply(g, a), b)
    decreases |b|
  {
    if b == [] {
      assert a + b == a;
    } else {
      var ab := a + b;
      assert ab[..|ab| - 1] == a + b[..|b| - 1];
      assert ab[|ab| - 1] == b[|b| - 1];
      ApplyConcat(g, a, b[..|b| - 1]);
    }
  }

  /**
    An interference-free update list acts as one batch: all the removed
    triples go and all the added ones are present, whatever the list order.
  */
  lemma {:induction false} ApplyBatch(g: set<Triple>, u: seq<Update>)
    requires InterferenceFree(UpdateSet(u))
    ensures Apply(g, u) == (g - Befores(UpdateSet(u))) + Afters(UpdateSet(u))
    decreases |u|
  {
    if u != [] {
      var init, e := u[..|u| - 1], u[|u| - 1];
      UpdateSetAppend(init, e);
      assert init + [e] == u;
      ApplyBatch(g, init);
      var s := UpdateSet(init);
      forall t ensures t in Apply(g, u) <==> t in (g - Befores(UpdateSet(u))) + Afters(UpdateSet(u)) {
        if t == e.before && t != e.after {
          forall x | x in s ensures x.after != t {
            assert x in UpdateSet(u);
          }
        }
      }
    }
  }

  /** Whatever the order, applying updates only keeps old triples or adds the listed new ones. */
  lemma {:induction false} ApplyWithin(g: set<Triple>, u: seq<Update>)
    ensures Apply(g, u) <= g + Afters(UpdateSet(u))
    decreases |u|
  {
    if u != [] {
      var init, e := u[..|u| - 1], u[|u| - 1];
      UpdateSetAppend(init, e);
      assert init + [e] == u;
      ApplyWithin(g, init);
      assert e in UpdateSet(u);
    }
  }

  /**
    The collecting loop of rename and set_base_uri: one update per triple
    that `f` rewrites, in the graph's (unspecified) iteration order.
  */
  method CollectUpdates(g: set<Triple>, f: Triple -> Option<Triple>) returns (u: seq<Update>)
    ensures UpdateSet(u) == set t | t in g && f(t).Some? :: Update(t, f(t).value)
  {
    u := [];
    var todo := g;
    while todo != {}
      invariant todo <= g
      invariant UpdateSet(u) == set t | t in g - todo && f(t).Some? :: Update(t, f(t).value)
      decreases |todo|
    {
      var t :| t in todo;
      if f(t).Some? {
        UpdateSetAppend(u, Update(t, f(t).value));
        u := u + [Update(t, f(t).value)];
      }
      todo := todo - {t};
    }
    assert g - todo == g;
  }
}
