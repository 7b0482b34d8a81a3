/**
  The OWL constructs the manager stores as RDF collections: property chains,
  class expressions (unionOf, intersectionOf, oneOf, and complementOf, which
  is a single link), owl:AllDifferent, owl:hasKey and owl:disjointUnionOf.
  Each add builds a fresh list from the counter `k` on and links it from its
  subject; each view reads the lists back and keeps the named members.
*/
module Constructs {
  import opened Wrappers
  import opened Rdf
  import opened Vocab
  import opened Naming
  import opened Bags
  import opened Views
  import opened Lists

  /** `[self._uri(x) for x in names]`. */
  function Uris(base: string, names: seq<string>): (r: seq<Node>)
    ensures |r| == |names|
    ensures forall i | 0 <= i < |names| :: r[i] == Uri(base, names[i])
  {
    seq(|names|, i requires 0 <= i < |names| => Uri(base, names[i]))
  }

  /** `[self._local_name(m) for m in members if isinstance(m, URIRef)]`. */
  function Names(nodes: seq<Node>): seq<string>
    decreases |nodes|
  {
    if nodes == [] then []
    else (if nodes[0].Iri? then [NameOf(nodes[0])] else []) + Names(nodes[1..])
  }

  /** The named members of a list read back, or none when reading it raised. */
  function Members(read: Result<seq<Node>, Raised>): seq<string> {
    if read.Ok? then Names(read.value) else []
  }

  /** A list of IRIs loses no member to the filter. */
  lemma {:induction false} NamesOfIris(nodes: seq<Node>)
    requires forall i | 0 <= i < |nodes| :: nodes[i].Iri?
    ensures |Names(nodes)| == |nodes|
    ensures forall i | 0 <= i < |nodes| :: Names(nodes)[i] == NameOf(nodes[i])
    decreases |nodes|
  {
    if nodes != [] {
      NamesOfIris(nodes[1..]);
      assert Names(nodes) == [NameOf(nodes[0])] + Names(nodes[1..]);
    }
  }

  /** Resolving names and reading their local names back keeps every name, in order. */
  lemma NamesOfUris(base: string, names: seq<string>)
    ensures |Names(Uris(base, names))| == |names|
    ensures forall i | 0 <= i < |names| :: Names(Uris(base, names))[i] == NameOf(Uri(base, names[i]))
  {
    NamesOfIris(Uris(base, names));
  }

  /** Plain names over a well-formed base come back exactly. */
  lemma PlainNamesReadBack(base: string, names: seq<string>)
    requires WellFormedBase(base)
    requires forall i | 0 <= i < |names| :: PlainName(names[i])
    ensures Names(Uris(base, names)) == names
  {
    NamesOfUris(base, names);
    forall i | 0 <= i < |names| ensures Names(Uris(base, names))[i] == names[i] {
      LocalNameOfUri(base, names[i]);
    }
  }

  // ---------------------------------------------------------------------------
  // Adding

  /** `Collection(graph, BNode(k), items)` followed by the link from `s` to the list. */
  function AttachList(g: set<Triple>, s: Node, pred: Node, k: nat, items: seq<Node>): (r: set<Triple>)
    ensures r == g + ListTriples(k, items) + {Triple(s, pred, BNode(k))}
  {
    g + ListTriples(k, items) + {Triple(s, pred, BNode(k))}
  }

  /** `add_property_chain(property, chain)`. */
  function AddPropertyChain(g: set<Triple>, base: string, k: nat, property: string, chain: seq<string>)
    : set<Triple>
  {
    AttachList(g, Uri(base, property), PropertyChainAxiom, k, Uris(base, chain))
  }

  /**
    `add_class_expression(class, kind, classes, individuals)`: complementOf
    links the first class directly, oneOf lists the individuals, unionOf and
    intersectionOf list the classes; an empty list or any other kind adds
    nothing. An absent list is the empty sequence.
  */
  function AddClassExpression(g: set<Triple>, base: string, k: nat, className: string, kind: string,
                              classes: seq<string>, individuals: seq<string>): (r: set<Triple>)
    ensures kind == "complementOf" && |classes| > 0 ==>
      r == g + {Triple(Uri(base, className), ComplementOf, Uri(base, classes[0]))}
    ensures !ListExpression(kind, classes, individuals) && !(kind == "complementOf" && |classes| > 0) ==> r == g
  {
    var c := Uri(base, className);
    if kind == "complementOf" && |classes| > 0 then g + {Triple(c, ComplementOf, Uri(base, classes[0]))}
    else if kind == "oneOf" && |individuals| > 0 then AttachList(g, c, OneOf, k, Uris(base, individuals))
    else if kind == "unionOf" && |classes| > 0 then AttachList(g, c, UnionOf, k, Uris(base, classes))
    else if kind == "intersectionOf" && |classes| > 0 then AttachList(g, c, IntersectionOf, k, Uris(base, classes))
    else g
  }

  /** The class expressions that build a list (and so take anonymous nodes). */
  predicate ListExpression(kind: string, classes: seq<string>, individuals: seq<string>) {
    (kind == "oneOf" && |individuals| > 0)
    || ((kind == "unionOf" || kind == "intersectionOf") && |classes| > 0)
  }

  /** The anonymous nodes `add_class_expression` takes. */
  function ExpressionCells(kind: string, classes: seq<string>, individuals: seq<string>): nat {
    if kind == "complementOf" && |classes| > 0 then 0
    else if kind == "oneOf" && |individuals| > 0 then Cells(|individuals|)
    else if (kind == "unionOf" || kind == "intersectionOf") && |classes| > 0 then Cells(|classes|)
    else 0
  }

  /** `add_all_different(individuals)`: a typed anonymous node at `k` and its list from `k + 1` on. */
  function AddAllDifferent(g: set<Triple>, base: string, k: nat, individuals: seq<string>): set<Triple> {
    var a := BNode(k);
    g + ListTriples(k + 1, Uris(base, individuals))
      + {Triple(a, Type, AllDifferent), Triple(a, DistinctMembers, BNode(k + 1))}
  }

  /** `add_has_key(class, properties)`. */
  function AddHasKey(g: set<Triple>, base: string, k: nat, className: string, properties: seq<string>)
    : set<Triple>
  {
    AttachList(g, Uri(base, className), HasKey, k, Uris(base, properties))
  }

  /** `add_disjoint_union(class, classes)`. */
  function AddDisjointUnion(g: set<Triple>, base: string, k: nat, className: string, classes: seq<string>)
    : set<Triple>
  {
    AttachList(g, Uri(base, className), DisjointUnionOf, k, Uris(base, classes))
  }

  // ---------------------------------------------------------------------------
  // Views

  /** A subject passes an optional class-name filter when no name is given or the names agree. */
  predicate Passes(filter: Option<string>, name: string) {
    !Given(filter) || name == filter.value
  }

  /** The links with predicate `pred` from named subjects that pass the filter. */
  function Links(g: set<Triple>, pred: Node, filter: Option<string>): set<Triple> {
    set t | t in g && t.p == pred && t.s.Iri? && Passes(filter, NameOf(t.s))
  }

  /**
    A list-valued axiom as reported: the subject's local name with the named
    members (`property`/`chain` of a property chain, `class`/`properties` of
    a key, `class`/`members` of a disjoint union).
  */
  datatype ListAxiom = ListAxiom(subject: string, members: seq<string>)

  ghost function AxiomOf(g: set<Triple>): Triple -> ListAxiom {
    (t: Triple) => ListAxiom(NameOf(t.s), Members(Decode(g, t.o)))
  }

  /** One record per link whose list reads back; a link whose list raises is skipped. */
  ghost function ListAxioms(g: set<Triple>, pred: Node, filter: Option<string>): multiset<ListAxiom> {
    Bag(Readable(g, pred, filter), AxiomOf(g))
  }

  /** Some link's list raises when read. */
  ghost predicate Broken(g: set<Triple>, pred: Node, filter: Option<string>) {
    exists t | t in Links(g, pred, filter) :: Decode(g, t.o).Err?
  }

  /** `get_property_chains()`: the error of a list that raises is not caught, so the whole call raises. */
  ghost function GetPropertyChains(g: set<Triple>): Result<multiset<ListAxiom>, Raised> {
    if Broken(g, PropertyChainAxiom, None) then Err(ValueError(RecursiveList))
    else Ok(ListAxioms(g, PropertyChainAxiom, None))
  }

  /** `get_has_keys(class)`. */
  ghost function GetHasKeys(g: set<Triple>, filter: Option<string>): multiset<ListAxiom> {
    ListAxioms(g, HasKey, filter)
  }

  /** `get_disjoint_unions()`. */
  ghost function GetDisjointUnions(g: set<Triple>): multiset<ListAxiom> {
    ListAxioms(g, DisjointUnionOf, None)
  }

  datatype ExpressionInfo = ExpressionInfo(className: string, kind: string, members: seq<string>)

  /** The members of an expression link: the complement's named class, or the list's named members. */
  ghost function ExpressionMembers(g: set<Triple>, t: Triple): seq<string> {
    if t.p == ComplementOf then (if t.o.Iri? then [NameOf(t.o)] else [])
    else Members(Decode(g, t.o))
  }

  ghost function ExpressionOf(g: set<Triple>, kind: string): Triple -> ExpressionInfo {
    (t: Triple) => ExpressionInfo(NameOf(t.s), kind, ExpressionMembers(g, t))
  }

  /** The expressions of one kind with at least one member. */
  ghost function Expressions(g: set<Triple>, pred: Node, kind: string, filter: Option<string>)
    : multiset<ExpressionInfo>
  {
    Bag(Shown(g, pred, filter), ExpressionOf(g, kind))
  }

  /** `get_class_expressions(class)`: the four kinds together. */
  ghost function GetClassExpressions(g: set<Triple>, filter: Option<string>): multiset<ExpressionInfo> {
    Expressions(g, UnionOf, "unionOf", filter) + Expressions(g, IntersectionOf, "intersectionOf", filter)
      + Expressions(g, ComplementOf, "complementOf", filter) + Expressions(g, OneOf, "oneOf", filter)
  }

  /** The anonymous subjects typed owl:AllDifferent whose members list is set and reads back. */
  ghost predicate ReadsDistinct(g: set<Triple>, a: Node) {
    var m := Value(g, a, DistinctMembers);
    m.Some? && Truthy(m.value) && Decode(g, m.value).Ok?
  }

  ghost function DistinctNames(g: set<Triple>): Node -> seq<string> {
    (a: Node) =>
      var m := Value(g, a, DistinctMembers);
      if m.Some? then Members(Decode(g, m.value)) else []
  }

  /** `get_all_different()`. */
  ghost function GetAllDifferent(g: set<Triple>): multiset<seq<string>> {
    Bag(DistinctSubjects(g), DistinctNames(g))
  }

  // ---------------------------------------------------------------------------
  // Adding a link leaves the other links as they read

  /**
    `g` grows by `extra`, triples that are first or rest links, and one link
    `t`, in a way that leaves every list with a head below the counter
    reading as before.
  */
  ghost predicate Attached(g: set<Triple>, extra: set<Triple>, t: Triple, k: nat) {
    && BlanksBelow(g, k)
    && t.p != First && t.p != Rest
    && (forall e | e in extra :: e.p == First || e.p == Rest)
    && (forall x | NodeBelow(x, k) :: Decode(g + extra + {t}, x) == Decode(g, x))
  }

  lemma AttachListAttached(g: set<Triple>, s: Node, pred: Node, k: nat, items: seq<Node>)
    requires BlanksBelow(g, k) && pred != First && pred != Rest
    ensures Attached(g, ListTriples(k, items), Triple(s, pred, BNode(k)), k)
  {
    ListSubjects(k, items);
    ListPredicates(k, items);
    forall x | NodeBelow(x, k)
      ensures Decode(g + ListTriples(k, items) + {Triple(s, pred, BNode(k))}, x) == Decode(g, x)
    {
      BuiltListKeepsOthers(g, {Triple(s, pred, BNode(k))}, k, items, x);
    }
  }

  lemma {:induction false} ListPredicates(k: nat, items: seq<Node>)
    ensures forall e | e in ListTriples(k, items) :: e.p == First || e.p == Rest
    decreases |items|
  {
    if |items| > 1 {
      ListPredicates(k + 1, items[1..]);
    }
  }

  lemma SingleLinkAttached(g: set<Triple>, t: Triple, k: nat)
    requires BlanksBelow(g, k) && t.p != First && t.p != Rest
    ensures Attached(g, {}, t, k)
  {
    var h := g + {} + {t};
    forall x | NodeBelow(x, k) ensures Decode(h, x) == Decode(g, x) {
      forall y, p | (p == First || p == Rest) && NodeBelow(y, k) ensures Objects(h, y, p) == Objects(g, y, p) {
        assert Objects(h, y, p) == Objects(g, y, p) + Objects({t}, y, p);
      }
      DecodeBelow(g, h, k, x);
    }
  }

  /** The links of `pred` after the change: the old ones, plus `t` when it is one. */
  lemma LinksAfter(g: set<Triple>, extra: set<Triple>, t: Triple, k: nat, pred: Node, filter: Option<string>)
    requires Attached(g, extra, t, k) && pred != First && pred != Rest
    ensures Links(g + extra + {t}, pred, filter)
         == Links(g, pred, filter) + (if t.p == pred && t.s.Iri? && Passes(filter, NameOf(t.s)) then {t} else {})
  {
  }

  /** A link of `g` reads the same list after the change. */
  lemma OldLinkReads(g: set<Triple>, extra: set<Triple>, t: Triple, k: nat, u: Triple)
    requires Attached(g, extra, t, k) && u in g
    ensures Decode(g + extra + {t}, u.o) == Decode(g, u.o)
  {
    assert TripleBelow(u, k);
  }

  /** The links of `pred` whose lists read back. */
  ghost function Readable(g: set<Triple>, pred: Node, filter: Option<string>): set<Triple> {
    set t | t in Links(g, pred, filter) && Decode(g, t.o).Ok?
  }

  /** Whether the change adds `t` as a new link of `pred` for the views. */
  ghost predicate NewLink(g: set<Triple>, h: set<Triple>, t: Triple, pred: Node, filter: Option<string>) {
    t !in g && t.p == pred && t.s.Iri? && Passes(filter, NameOf(t.s))
  }

  lemma ReadableAfter(g: set<Triple>, extra: set<Triple>, t: Triple, k: nat, pred: Node, filter: Option<string>)
    requires Attached(g, extra, t, k) && pred != First && pred != Rest
    ensures var h := g + extra + {t};
      Readable(h, pred, filter)
        == Readable(g, pred, filter) + (if NewLink(g, h, t, pred, filter) && Decode(h, t.o).Ok? then {t} else {})
    ensures forall u | u in Links(g, pred, filter) :: Decode(g + extra + {t}, u.o) == Decode(g, u.o)
  {
    var h := g + extra + {t};
    LinksAfter(g, extra, t, k, pred, filter);
    OldLinksRead(g, extra, t, k, pred, filter);
    var add := NewLink(g, h, t, pred, filter) && Decode(h, t.o).Ok?;
    forall u | u in Readable(g, pred, filter) ensures u in Readable(h, pred, filter) {
      assert u in Links(g, pred, filter);
    }
    forall u | u in Readable(h, pred, filter)
      ensures u in Readable(g, pred, filter) + (if add then {t} else {})
    {
      assert u in Links(h, pred, filter);
    }
  }

  /** Every link of `g` reads the same list after the change. */
  lemma OldLinksRead(g: set<Triple>, extra: set<Triple>, t: Triple, k: nat, pred: Node, filter: Option<string>)
    requires Attached(g, extra, t, k)
    ensures forall u | u in Links(g, pred, filter) :: Decode(g + extra + {t}, u.o) == Decode(g, u.o)
  {
    forall u | u in Links(g, pred, filter) ensures Decode(g + extra + {t}, u.o) == Decode(g, u.o) {
      OldLinkReads(g, extra, t, k, u);
    }
  }

  /** A bag over a set that grows by at most one element, under a map that agrees on the old elements. */
  lemma BagGrows<T, U>(before: set<T>, after: set<T>, f: T -> U, f2: T -> U, t: T, add: bool)
    requires forall x | x in before :: f(x) == f2(x)
    requires after == before + (if add then {t} else {})
    requires add ==> t !in before
    ensures Bag(after, f) == Bag(before, f2) + (if add then multiset{f(t)} else multiset{})
  {
    BagAgree(before, f, f2);
    if add {
      BagInsert(before, f, t);
    } else {
      assert after == before;
    }
  }

  /** The list axioms of `pred` after the change: one more when `t` is a new link whose list reads. */
  lemma ListAxiomsAfter(g: set<Triple>, extra: set<Triple>, t: Triple, k: nat, pred: Node, filter: Option<string>)
    requires Attached(g, extra, t, k) && pred != First && pred != Rest
    ensures var h := g + extra + {t};
      ListAxioms(h, pred, filter)
        == ListAxioms(g, pred, filter)
           + (if NewLink(g, h, t, pred, filter) && Decode(h, t.o).Ok? then multiset{AxiomOf(h)(t)} else multiset{})
  {
    var h := g + extra + {t};
    ReadableAfter(g, extra, t, k, pred, filter);
    var add := NewLink(g, h, t, pred, filter) && Decode(h, t.o).Ok?;
    assert ListAxioms(h, pred, filter) == Bag(Readable(h, pred, filter), AxiomOf(h));
    assert ListAxioms(g, pred, filter) == Bag(Readable(g, pred, filter), AxiomOf(g));
    BagGrows(Readable(g, pred, filter), Readable(h, pred, filter), AxiomOf(h), AxiomOf(g), t, add);
  }

  /** The views of `pred` raise after the change exactly when they did before or the new link's list raises. */
  lemma BrokenAfter(g: set<Triple>, extra: set<Triple>, t: Triple, k: nat, pred: Node, filter: Option<string>)
    requires Attached(g, extra, t, k) && pred != First && pred != Rest
    ensures var h := g + extra + {t};
      Broken(h, pred, filter) <==> Broken(g, pred, filter) || (NewLink(g, h, t, pred, filter) && Decode(h, t.o).Err?)
  {
    ReadableAfter(g, extra, t, k, pred, filter);
    LinksAfter(g, extra, t, k, pred, filter);
  }

  /** The links of `pred` with at least one member. */
  ghost function Shown(g: set<Triple>, pred: Node, filter: Option<string>): set<Triple> {
    set t | t in Links(g, pred, filter) && ExpressionMembers(g, t) != []
  }

  lemma ShownAfter(g: set<Triple>, extra: set<Triple>, t: Triple, k: nat, pred: Node, filter: Option<string>)
    requires Attached(g, extra, t, k) && pred != First && pred != Rest
    ensures var h := g + extra + {t};
      Shown(h, pred, filter)
        == Shown(g, pred, filter) + (if NewLink(g, h, t, pred, filter) && ExpressionMembers(h, t) != [] then {t} else {})
    ensures forall u | u in Links(g, pred, filter) :: ExpressionMembers(g + extra + {t}, u) == ExpressionMembers(g, u)
  {
    var h := g + extra + {t};
    LinksAfter(g, extra, t, k, pred, filter);
    forall u | u in Links(g, pred, filter) ensures ExpressionMembers(h, u) == ExpressionMembers(g, u) {
      OldLinkReads(g, extra, t, k, u);
    }
    var add := NewLink(g, h, t, pred, filter) && ExpressionMembers(h, t) != [];
    var grown := Shown(g, pred, filter) + (if add then {t} else {});
    forall u | u in Shown(h, pred, filter) ensures u in grown {
      if u != t {
        assert u in Links(g, pred, filter);
      }
    }
    forall u | u in grown ensures u in Shown(h, pred, filter) {
    }
  }

  /** The expressions of one kind after the change: one more when `t` is a new link of that kind with members. */
  lemma ExpressionsAfter(g: set<Triple>, extra: set<Triple>, t: Triple, k: nat, pred: Node, kind: string,
                         filter: Option<string>)
    requires Attached(g, extra, t, k) && pred != First && pred != Rest
    ensures var h := g + extra + {t};
      Expressions(h, pred, kind, filter)
        == Expressions(g, pred, kind, filter) + KindAdded(g, h, t, pred, kind, filter)
  {
    var h := g + extra + {t};
    ShownAfter(g, extra, t, k, pred, filter);
    var add := NewLink(g, h, t, pred, filter) && ExpressionMembers(h, t) != [];
    assert Expressions(h, pred, kind, filter) == Bag(Shown(h, pred, filter), ExpressionOf(h, kind));
    assert Expressions(g, pred, kind, filter) == Bag(Shown(g, pred, filter), ExpressionOf(g, kind));
    BagGrows(Shown(g, pred, filter), Shown(h, pred, filter), ExpressionOf(h, kind), ExpressionOf(g, kind), t, add);
  }

  /** The node a kind of class expression links with. */
  function ExpressionPredicate(kind: string): Node {
    if kind == "unionOf" then UnionOf else if kind == "intersectionOf" then IntersectionOf
    else if kind == "complementOf" then ComplementOf else OneOf
  }

  /** The four kinds after the change: `t` shows up under its own kind only. */
  lemma ClassExpressionsAfter(g: set<Triple>, extra: set<Triple>, t: Triple, k: nat, kind: string,
                              filter: Option<string>)
    requires Attached(g, extra, t, k)
    requires kind in {"unionOf", "intersectionOf", "complementOf", "oneOf"} && t.p == ExpressionPredicate(kind)
    ensures var h := g + extra + {t};
      GetClassExpressions(h, filter)
        == GetClassExpressions(g, filter)
           + KindAdded(g, h, t, t.p, kind, filter)
  {
    var h := g + extra + {t};
    var added := KindAdded(g, h, t, t.p, kind, filter);
    var a1 := KindAdded(g, h, t, UnionOf, "unionOf", filter);
    var a2 := KindAdded(g, h, t, IntersectionOf, "intersectionOf", filter);
    var a3 := KindAdded(g, h, t, ComplementOf, "complementOf", filter);
    var a4 := KindAdded(g, h, t, OneOf, "oneOf", filter);
    AllKindsAfter(g, extra, t, k, filter);
    if kind == "unionOf" {
      OtherKind(g, h, t, IntersectionOf, "intersectionOf", filter);
      OtherKind(g, h, t, ComplementOf, "complementOf", filter);
      OtherKind(g, h, t, OneOf, "oneOf", filter);
      assert a1 + a2 + a3 + a4 == a1;
    } else if kind == "intersectionOf" {
      OtherKind(g, h, t, UnionOf, "unionOf", filter);
      OtherKind(g, h, t, ComplementOf, "complementOf", filter);
      OtherKind(g, h, t, OneOf, "oneOf", filter);
      assert a1 + a2 + a3 + a4 == a2;
    } else if kind == "complementOf" {
      OtherKind(g, h, t, UnionOf, "unionOf", filter);
      OtherKind(g, h, t, IntersectionOf, "intersectionOf", filter);
      OtherKind(g, h, t, OneOf, "oneOf", filter);
      assert a1 + a2 + a3 + a4 == a3;
    } else {
      OtherKind(g, h, t, UnionOf, "unionOf", filter);
      OtherKind(g, h, t, IntersectionOf, "intersectionOf", filter);
      OtherKind(g, h, t, ComplementOf, "complementOf", filter);
      assert a1 + a2 + a3 + a4 == a4;
    }
  }

  lemma OtherKind(g: set<Triple>, h: set<Triple>, t: Triple, pred: Node, kind: string, filter: Option<string>)
    requires t.p != pred
    ensures KindAdded(g, h, t, pred, kind, filter) == multiset{}
  {
  }

  lemma AllKindsAfter(g: set<Triple>, extra: set<Triple>, t: Triple, k: nat, filter: Option<string>)
    requires Attached(g, extra, t, k)
    ensures var h := g + extra + {t};
      GetClassExpressions(h, filter)
        == GetClassExpressions(g, filter)
           + (KindAdded(g, h, t, UnionOf, "unionOf", filter) + KindAdded(g, h, t, IntersectionOf, "intersectionOf", filter)
              + KindAdded(g, h, t, ComplementOf, "complementOf", filter) + KindAdded(g, h, t, OneOf, "oneOf", filter))
  {
    var h := g + extra + {t};
    ExpressionsAfter(g, extra, t, k, UnionOf, "unionOf", filter);
    ExpressionsAfter(g, extra, t, k, IntersectionOf, "intersectionOf", filter);
    ExpressionsAfter(g, extra, t, k, ComplementOf, "complementOf", filter);
    ExpressionsAfter(g, extra, t, k, OneOf, "oneOf", filter);
    SumOfKinds(g, h, filter, KindAdded(g, h, t, UnionOf, "unionOf", filter),
               KindAdded(g, h, t, IntersectionOf, "intersectionOf", filter),
               KindAdded(g, h, t, ComplementOf, "complementOf", filter), KindAdded(g, h, t, OneOf, "oneOf", filter));
  }

  /** What one kind's view gains from `t`. */
  ghost function KindAdded(g: set<Triple>, h: set<Triple>, t: Triple, pred: Node, kind: string, filter: Option<string>)
    : multiset<ExpressionInfo>
  {
    if NewLink(g, h, t, pred, filter) && ExpressionMembers(h, t) != [] then multiset{ExpressionOf(h, kind)(t)}
    else multiset{}
  }

  lemma SumOfKinds(g: set<Triple>, h: set<Triple>, filter: Option<string>,
                   a1: multiset<ExpressionInfo>, a2: multiset<ExpressionInfo>,
                   a3: multiset<ExpressionInfo>, a4: multiset<ExpressionInfo>)
    requires Expressions(h, UnionOf, "unionOf", filter) == Expressions(g, UnionOf, "unionOf", filter) + a1
    requires Expressions(h, IntersectionOf, "intersectionOf", filter)
          == Expressions(g, IntersectionOf, "intersectionOf", filter) + a2
    requires Expressions(h, ComplementOf, "complementOf", filter)
          == Expressions(g, ComplementOf, "complementOf", filter) + a3
    requires Expressions(h, OneOf, "oneOf", filter) == Expressions(g, OneOf, "oneOf", filter) + a4
    ensures GetClassExpressions(h, filter) == GetClassExpressions(g, filter) + (a1 + a2 + a3 + a4)
  {
  }

  /** The list just attached at `k` reads back as its items. */
  lemma NewListReads(g: set<Triple>, s: Node, pred: Node, k: nat, items: seq<Node>)
    requires BlanksBelow(g, k) && NilFree(g) && pred != First && pred != Rest
    ensures Decode(AttachList(g, s, pred, k, items), BNode(k)) == Ok(items)
    ensures Triple(s, pred, BNode(k)) !in g
  {
    BuiltListHolds(g, {Triple(s, pred, BNode(k))}, k, items);
    DecodeList(AttachList(g, s, pred, k, items), k, items);
    assert !TripleBelow(Triple(s, pred, BNode(k)), k);
  }

  // ---------------------------------------------------------------------------
  // Round trips

  /**
    A property chain added on fresh cells is reported with its members in
    order, and the view raises afterwards exactly when it raised before.
  */
  lemma AddPropertyChainThenGet(g: set<Triple>, base: string, k: nat, property: string, chain: seq<string>)
    requires BlanksBelow(g, k) && NilFree(g)
    ensures var before := GetPropertyChains(g);
      var after := GetPropertyChains(AddPropertyChain(g, base, k, property, chain));
      after == if before.Ok?
               then Ok(before.value + multiset{ListAxiom(NameOf(Uri(base, property)), Names(Uris(base, chain)))})
               else before
  {
    var items := Uris(base, chain);
    var p := Uri(base, property);
    var t := Triple(p, PropertyChainAxiom, BNode(k));
    var h := g + ListTriples(k, items) + {t};
    assert AddPropertyChain(g, base, k, property, chain) == h;
    AttachListAttached(g, p, PropertyChainAxiom, k, items);
    NewListReads(g, p, PropertyChainAxiom, k, items);
    assert NewLink(g, h, t, PropertyChainAxiom, None) && Decode(h, t.o) == Ok(items);
    assert AxiomOf(h)(t) == ListAxiom(NameOf(p), Names(items));
    ListAxiomsAfter(g, ListTriples(k, items), t, k, PropertyChainAxiom, None);
    BrokenAfter(g, ListTriples(k, items), t, k, PropertyChainAxiom, None);
    assert Broken(h, PropertyChainAxiom, None) == Broken(g, PropertyChainAxiom, None);
  }

  /** With plain names over a well-formed base the chain comes back as given. */
  lemma PropertyChainRoundTrip(g: set<Triple>, base: string, k: nat, property: string, chain: seq<string>)
    requires BlanksBelow(g, k) && NilFree(g) && GetPropertyChains(g).Ok?
    requires WellFormedBase(base) && PlainName(property)
    requires forall i | 0 <= i < |chain| :: PlainName(chain[i])
    ensures var after := GetPropertyChains(AddPropertyChain(g, base, k, property, chain));
      after.Ok? && ListAxiom(property, chain) in after.value
  {
    AddPropertyChainThenGet(g, base, k, property, chain);
    LocalNameOfUri(base, property);
    PlainNamesReadBack(base, chain);
  }

  /** A key added on fresh cells is reported once more, unless the filter names another class. */
  lemma AddHasKeyThenGet(g: set<Triple>, base: string, k: nat, className: string, properties: seq<string>,
                         filter: Option<string>)
    requires BlanksBelow(g, k) && NilFree(g)
    ensures var c := Uri(base, className);
      GetHasKeys(AddHasKey(g, base, k, className, properties), filter)
        == GetHasKeys(g, filter)
           + (if Passes(filter, NameOf(c)) then multiset{ListAxiom(NameOf(c), Names(Uris(base, properties)))}
              else multiset{})
  {
    var items := Uris(base, properties);
    var c := Uri(base, className);
    AttachListAttached(g, c, HasKey, k, items);
    NewListReads(g, c, HasKey, k, items);
    ListAxiomsAfter(g, ListTriples(k, items), Triple(c, HasKey, BNode(k)), k, HasKey, filter);
  }

  /** A disjoint union added on fresh cells is reported once more. */
  lemma AddDisjointUnionThenGet(g: set<Triple>, base: string, k: nat, className: string, classes: seq<string>)
    requires BlanksBelow(g, k) && NilFree(g)
    ensures GetDisjointUnions(AddDisjointUnion(g, base, k, className, classes))
         == GetDisjointUnions(g) + multiset{ListAxiom(NameOf(Uri(base, className)), Names(Uris(base, classes)))}
  {
    var items := Uris(base, classes);
    var c := Uri(base, className);
    AttachListAttached(g, c, DisjointUnionOf, k, items);
    NewListReads(g, c, DisjointUnionOf, k, items);
    ListAxiomsAfter(g, ListTriples(k, items), Triple(c, DisjointUnionOf, BNode(k)), k, DisjointUnionOf, None);
  }

  /**
    A complement is reported with its one class, unless the same link was
    already there or the filter names another class.
  */
  lemma AddComplementThenGet(g: set<Triple>, base: string, k: nat, className: string, classes: seq<string>,
                             filter: Option<string>)
    requires BlanksBelow(g, k) && |classes| > 0
    ensures var c := Uri(base, className);
      var t := Triple(c, ComplementOf, Uri(base, classes[0]));
      GetClassExpressions(AddClassExpression(g, base, k, className, "complementOf", classes, []), filter)
        == GetClassExpressions(g, filter)
           + (if t !in g && Passes(filter, NameOf(c))
              then multiset{ExpressionInfo(NameOf(c), "complementOf", [NameOf(Uri(base, classes[0]))])}
              else multiset{})
  {
    var c := Uri(base, className);
    var t := Triple(c, ComplementOf, Uri(base, classes[0]));
    SingleLinkAttached(g, t, k);
    assert g + {} + {t} == g + {t};
    ClassExpressionsAfter(g, {}, t, k, "complementOf", filter);
  }

  /** A list-valued expression attached on fresh cells shows up under its kind. */
  lemma ListExpressionAfter(g: set<Triple>, c: Node, kind: string, k: nat, items: seq<Node>, filter: Option<string>)
    requires BlanksBelow(g, k) && NilFree(g) && c.Iri?
    requires kind in {"unionOf", "intersectionOf", "oneOf"}
    ensures GetClassExpressions(AttachList(g, c, ExpressionPredicate(kind), k, items), filter)
         == GetClassExpressions(g, filter)
            + (if Passes(filter, NameOf(c)) && Names(items) != []
               then multiset{ExpressionInfo(NameOf(c), kind, Names(items))} else multiset{})
  {
    var pred := ExpressionPredicate(kind);
    var t := Triple(c, pred, BNode(k));
    var h := g + ListTriples(k, items) + {t};
    AttachListAttached(g, c, pred, k, items);
    NewListReads(g, c, pred, k, items);
    assert ExpressionMembers(h, t) == Names(items);
    ClassExpressionsAfter(g, ListTriples(k, items), t, k, kind, filter);
  }

  /**
    A oneOf, unionOf or intersectionOf expression with members is reported
    with its members in order, unless the filter names another class.
  */
  lemma AddListExpressionThenGet(g: set<Triple>, base: string, k: nat, className: string, kind: string,
                                 classes: seq<string>, individuals: seq<string>, filter: Option<string>)
    requires BlanksBelow(g, k) && NilFree(g)
    requires ListExpression(kind, classes, individuals)
    ensures var c := Uri(base, className);
      var members := if kind == "oneOf" then individuals else classes;
      GetClassExpressions(AddClassExpression(g, base, k, className, kind, classes, individuals), filter)
        == GetClassExpressions(g, filter)
           + (if Passes(filter, NameOf(c)) then multiset{ExpressionInfo(NameOf(c), kind, Names(Uris(base, members)))}
              else multiset{})
  {
    var c := Uri(base, className);
    var members := if kind == "oneOf" then individuals else classes;
    var items := Uris(base, members);
    assert AddClassExpression(g, base, k, className, kind, classes, individuals)
        == AttachList(g, c, ExpressionPredicate(kind), k, items);
    NamesOfUris(base, members);
    ListExpressionAfter(g, c, kind, k, items, filter);
  }

  /** The subjects `get_all_different` reports. */
  ghost function DistinctSubjects(g: set<Triple>): set<Node> {
    set a | a in Subjects(g, Type, AllDifferent) && ReadsDistinct(g, a)
  }

  /** An AllDifferent added on fresh cells is reported once more, with its members in order. */
  lemma AddAllDifferentThenGet(g: set<Triple>, base: string, k: nat, individuals: seq<string>)
    requires BlanksBelow(g, k) && NilFree(g)
    ensures GetAllDifferent(AddAllDifferent(g, base, k, individuals))
         == GetAllDifferent(g) + multiset{Names(Uris(base, individuals))}
  {
    var items := Uris(base, individuals);
    var a := BNode(k);
    var h := AddAllDifferent(g, base, k, individuals);
    NewDistinctReads(g, k, items);
    DistinctSubjectsAfter(g, k, items);
    assert a !in DistinctSubjects(g) by {
      assert !TripleBelow(Triple(a, Type, AllDifferent), k);
    }
    assert GetAllDifferent(h) == Bag(DistinctSubjects(h), DistinctNames(h));
    assert GetAllDifferent(g) == Bag(DistinctSubjects(g), DistinctNames(g));
    BagGrows(DistinctSubjects(g), DistinctSubjects(h), DistinctNames(h), DistinctNames(g), a, true);
  }

  /** The new AllDifferent node reads its list. */
  lemma NewDistinctReads(g: set<Triple>, k: nat, items: seq<Node>)
    requires BlanksBelow(g, k) && NilFree(g)
    ensures var h := g + ListTriples(k + 1, items)
                       + {Triple(BNode(k), Type, AllDifferent), Triple(BNode(k), DistinctMembers, BNode(k + 1))};
      Value(h, BNode(k), DistinctMembers) == Some(BNode(k + 1)) && Decode(h, BNode(k + 1)) == Ok(items)
  {
    var a := BNode(k);
    var extra := {Triple(a, Type, AllDifferent), Triple(a, DistinctMembers, BNode(k + 1))};
    var h := g + ListTriples(k + 1, items) + extra;
    assert BlanksBelow(g, k + 1);
    ListSubjects(k + 1, items);
    BuiltListHolds(g, extra, k + 1, items);
    DecodeList(h, k + 1, items);
    forall u | u in g ensures u.s != a {
      assert TripleBelow(u, k);
    }
    assert Objects(h, a, DistinctMembers) == {BNode(k + 1)};
    ValueOfSingle(h, a, DistinctMembers, BNode(k + 1));
  }

  /** The reported AllDifferent subjects after the add: the old ones and the new node. */
  lemma DistinctSubjectsAfter(g: set<Triple>, k: nat, items: seq<Node>)
    requires BlanksBelow(g, k) && NilFree(g)
    ensures var h := g + ListTriples(k + 1, items)
                       + {Triple(BNode(k), Type, AllDifferent), Triple(BNode(k), DistinctMembers, BNode(k + 1))};
      && DistinctSubjects(h) == DistinctSubjects(g) + {BNode(k)}
      && forall x | x in DistinctSubjects(g) :: DistinctNames(h)(x) == DistinctNames(g)(x)
  {
    var a := BNode(k);
    var extra := {Triple(a, Type, AllDifferent), Triple(a, DistinctMembers, BNode(k + 1))};
    var h := g + ListTriples(k + 1, items) + extra;
    NewDistinctReads(g, k, items);
    DistinctTypedAfter(g, k, items);
    forall x | x in Subjects(g, Type, AllDifferent)
      ensures ReadsDistinct(h, x) == ReadsDistinct(g, x) && DistinctNames(h)(x) == DistinctNames(g)(x)
    {
      OldDistinctReads(g, extra, k, items, x);
    }
    assert ReadsDistinct(h, a);
    forall x | x in DistinctSubjects(h) ensures x in DistinctSubjects(g) + {a} {
      assert x in Subjects(h, Type, AllDifferent);
    }
    forall x | x in DistinctSubjects(g) + {a} ensures x in DistinctSubjects(h) {
      assert x in Subjects(h, Type, AllDifferent);
    }
  }

  /** The AllDifferent subjects after the add: the old ones and the new node. */
  lemma DistinctTypedAfter(g: set<Triple>, k: nat, items: seq<Node>)
    ensures var h := g + ListTriples(k + 1, items)
                       + {Triple(BNode(k), Type, AllDifferent), Triple(BNode(k), DistinctMembers, BNode(k + 1))};
      Subjects(h, Type, AllDifferent) == Subjects(g, Type, AllDifferent) + {BNode(k)}
  {
    var l := ListTriples(k + 1, items);
    var extra := {Triple(BNode(k), Type, AllDifferent), Triple(BNode(k), DistinctMembers, BNode(k + 1))};
    ListPredicates(k + 1, items);
    assert Subjects(l, Type, AllDifferent) == {};
    assert Subjects(extra, Type, AllDifferent) == {BNode(k)};
    assert Subjects(g + l + extra, Type, AllDifferent)
        == Subjects(g, Type, AllDifferent) + Subjects(l, Type, AllDifferent) + Subjects(extra, Type, AllDifferent);
  }

  /** An existing AllDifferent node keeps its members list, and the list reads as before. */
  lemma OldDistinctReads(g: set<Triple>, extra: set<Triple>, k: nat, items: seq<Node>, x: Node)
    requires BlanksBelow(g, k) && x in Subjects(g, Type, AllDifferent)
    requires extra == {Triple(BNode(k), Type, AllDifferent), Triple(BNode(k), DistinctMembers, BNode(k + 1))}
    ensures var h := g + ListTriples(k + 1, items) + extra;
      Value(h, x, DistinctMembers) == Value(g, x, DistinctMembers)
      && (Value(g, x, DistinctMembers).Some? ==>
          Decode(h, Value(g, x, DistinctMembers).value) == Decode(g, Value(g, x, DistinctMembers).value))
  {
    var h := g + ListTriples(k + 1, items) + extra;
    assert TripleBelow(Triple(x, Type, AllDifferent), k);
    ListSubjects(k + 1, items);
    assert Objects(h, x, DistinctMembers) == Objects(g, x, DistinctMembers);
    var m := Value(g, x, DistinctMembers);
    if m.Some? {
      assert Triple(x, DistinctMembers, m.value) in g;
      assert TripleBelow(Triple(x, DistinctMembers, m.value), k);
      assert BlanksBelow(g, k + 1);
      ListPredicates(k + 1, items);
      BuiltListKeepsOthers(g, extra, k + 1, items, m.value);
    }
  }
}
