/**
  RDF collections (section 5.2 of RDF Schema 1.1: a chain of cells linked by
  rdf:rest, each holding one member under rdf:first, the last linked to
  rdf:nil). Building one is what rdflib's `Collection(graph, head, items)`
  does for the manager; reading one back follows `Graph.items`, which walks
  the rest links and refuses a chain that comes back to a cell it has seen.
*/
module Lists {
  import opened Wrappers
  import opened Rdf
  import opened Vocab

  /**
    The triples of a list whose cells are the anonymous nodes numbered
    `k`, `k + 1`, ...: one cell per member, and a single cell holding only
    the nil link when there are no members.
  */
  function ListTriples(k: nat, items: seq<Node>): set<Triple>
    decreases |items|
  {
    if |items| == 0 then {Triple(BNode(k), Rest, Nil)}
    else if |items| == 1 then {Triple(BNode(k), First, items[0]), Triple(BNode(k), Rest, Nil)}
    else {Triple(BNode(k), First, items[0]), Triple(BNode(k), Rest, BNode(k + 1))} + ListTriples(k + 1, items[1..])
  }

  /** How many anonymous nodes a list of `n` members takes. */
  function Cells(n: nat): nat {
    if n == 0 then 1 else n
  }

  /** The slices of a list's triples: cell `k + j` holds member `j` and links to the next cell or to nil. */
  lemma {:induction false} ListSlices(k: nat, items: seq<Node>, x: Node, p: Node)
    ensures var l := ListTriples(k, items);
      Objects(l, x, p) ==
        if x.BNode? && k <= x.id < k + Cells(|items|) then
          var j := x.id - k;
          if p == First && j < |items| then {items[j]}
          else if p == Rest then (if j + 1 < Cells(|items|) then {BNode(k + j + 1)} else {Nil})
          else {}
        else {}
    decreases |items|
  {
    if |items| > 1 {
      ListSlices(k + 1, items[1..], x, p);
      var l := ListTriples(k, items);
      var head := {Triple(BNode(k), First, items[0]), Triple(BNode(k), Rest, BNode(k + 1))};
      assert l == head + ListTriples(k + 1, items[1..]);
      assert Objects(l, x, p) == Objects(head, x, p) + Objects(ListTriples(k + 1, items[1..]), x, p);
      if x.BNode? && k < x.id < k + Cells(|items|) {
        assert items[1..][x.id - k - 1] == items[x.id - k];
      }
    }
  }

  /** Every triple of a list has one of its cells as subject. */
  lemma {:induction false} ListSubjects(k: nat, items: seq<Node>)
    ensures forall t | t in ListTriples(k, items) :: t.s.BNode? && k <= t.s.id < k + Cells(|items|)
    decreases |items|
  {
    if |items| > 1 {
      ListSubjects(k + 1, items[1..]);
    }
  }

  const RecursiveList := "List contains a recursive rdf:rest reference"

  /** Every node a triple of `g` mentions as object. */
  function ObjectsOf(g: set<Triple>): set<Node> {
    set t | t in g :: t.o
  }

  /**
    `Graph.items(node)` from a cell already in `seen`: yield the cell's
    first member when it has one, move to its rest, raise when the rest is a
    cell already seen, and stop when there is no rest (nil has none) or it is
    falsy.
  */
  ghost function Walk(g: set<Triple>, node: Node, seen: set<Node>): Result<seq<Node>, Raised>
    decreases ObjectsOf(g) - seen
  {
    var item := Value(g, node, First);
    var here := if item.Some? then [item.value] else [];
    var next := Value(g, node, Rest);
    if next.None? then Ok(here)
    else if next.value in seen then Err(ValueError(RecursiveList))
    else if !Truthy(next.value) then Ok(here)
    else
      assert next.value in ObjectsOf(g) by {
        assert Triple(node, Rest, next.value) in g;
      }
      assert ObjectsOf(g) - (seen + {next.value}) < ObjectsOf(g) - seen;
      var tail := Walk(g, next.value, seen + {next.value});
      if tail.Ok? then Ok(here + tail.value) else tail
  }

  /** `list(Collection(graph, head))`. */
  ghost function Decode(g: set<Triple>, head: Node): Result<seq<Node>, Raised> {
    if Truthy(head) then Walk(g, head, {head}) else Ok([])
  }

  /**
    A walk that starts below `k` never reaches a node numbered `k` or more,
    so a graph whose first and rest links agree with those of `g` below `k`
    walks the same.
  */
  lemma {:induction false} WalkBelow(g: set<Triple>, h: set<Triple>, k: nat, node: Node, seen: set<Node>)
    requires BlanksBelow(g, k) && NodeBelow(node, k)
    requires forall x, p | (p == First || p == Rest) && NodeBelow(x, k) :: Objects(h, x, p) == Objects(g, x, p)
    ensures Walk(h, node, seen) == Walk(g, node, seen)
    decreases ObjectsOf(g) - seen
  {
    assert Objects(h, node, First) == Objects(g, node, First);
    assert Objects(h, node, Rest) == Objects(g, node, Rest);
    assert Value(h, node, First) == Value(g, node, First);
    assert Value(h, node, Rest) == Value(g, node, Rest);
    var next := Value(g, node, Rest);
    if next.Some? && next.value !in seen && Truthy(next.value) {
      assert Triple(node, Rest, next.value) in g;
      assert TripleBelow(Triple(node, Rest, next.value), k);
      assert ObjectsOf(g) - (seen + {next.value}) < ObjectsOf(g) - seen;
      WalkBelow(g, h, k, next.value, seen + {next.value});
    }
  }

  /** `list(Collection(graph, head))` is the same in a graph whose links agree below `k`, for a head below `k`. */
  lemma DecodeBelow(g: set<Triple>, h: set<Triple>, k: nat, head: Node)
    requires BlanksBelow(g, k) && NodeBelow(head, k)
    requires forall x, p | (p == First || p == Rest) && NodeBelow(x, k) :: Objects(h, x, p) == Objects(g, x, p)
    ensures Decode(h, head) == Decode(g, head)
  {
    if Truthy(head) {
      WalkBelow(g, h, k, head, {head});
    }
  }

  /** The cells numbered `k` to `k + j`. */
  function CellsUpTo(k: nat, j: nat): (s: set<Node>)
    ensures forall x | x in s :: x.BNode? && k <= x.id <= k + j
    decreases j
  {
    if j == 0 then {BNode(k)} else CellsUpTo(k, j - 1) + {BNode(k + j)}
  }

  /** `h` reads like the list's own first and rest links at every cell and at nil. */
  ghost predicate HoldsList(h: set<Triple>, k: nat, items: seq<Node>) {
    forall x, p | (p == First || p == Rest) && (x == Nil || (x.BNode? && x.id >= k)) ::
      Objects(h, x, p) == Objects(ListTriples(k, items), x, p)
  }

  /** The cell after cell `k + j`: the next cell, or nil after the last. */
  function NextCell(k: nat, n: nat, j: nat): Node {
    if j + 1 < Cells(n) then BNode(k + j + 1) else Nil
  }

  /** What `graph.value` reads at a list cell. */
  lemma CellValues(h: set<Triple>, k: nat, items: seq<Node>, j: nat)
    requires j < Cells(|items|) && HoldsList(h, k, items)
    ensures Value(h, BNode(k + j), First) == if j < |items| then Some(items[j]) else None
    ensures Value(h, BNode(k + j), Rest) == Some(NextCell(k, |items|, j))
  {
    var cell := BNode(k + j);
    ListSlices(k, items, cell, First);
    ListSlices(k, items, cell, Rest);
    assert Objects(h, cell, First) == Objects(ListTriples(k, items), cell, First);
    assert Objects(h, cell, Rest) == Objects(ListTriples(k, items), cell, Rest);
    if j < |items| {
      ValueOfSingle(h, cell, First, items[j]);
    }
    ValueOfSingle(h, cell, Rest, NextCell(k, |items|, j));
  }

  /** Nil has neither a member nor a rest in a graph holding the list. */
  lemma NilValues(h: set<Triple>, k: nat, items: seq<Node>)
    requires HoldsList(h, k, items)
    ensures Value(h, Nil, First) == None && Value(h, Nil, Rest) == None
  {
    ListSlices(k, items, Nil, First);
    ListSlices(k, items, Nil, Rest);
    assert Objects(h, Nil, First) == Objects(ListTriples(k, items), Nil, First);
    assert Objects(h, Nil, Rest) == Objects(ListTriples(k, items), Nil, Rest);
  }

  /** Walking from cell `k + j` yields the members from `j` on. */
  lemma {:induction false} WalkList(h: set<Triple>, k: nat, items: seq<Node>, j: nat)
    requires j < Cells(|items|) && HoldsList(h, k, items)
    ensures Walk(h, BNode(k + j), CellsUpTo(k, j)) == Ok(if j < |items| then items[j..] else [])
    decreases Cells(|items|) - j
  {
    var seen := CellsUpTo(k, j);
    CellValues(h, k, items, j);
    var next := NextCell(k, |items|, j);
    if j + 1 < Cells(|items|) {
      assert next !in seen;
      assert seen + {next} == CellsUpTo(k, j + 1);
      WalkList(h, k, items, j + 1);
      assert items[j..] == [items[j]] + items[j + 1..];
    } else {
      NilValues(h, k, items);
      assert next == Nil && Nil !in seen && Truthy(Nil);
      assert Walk(h, Nil, seen + {Nil}) == Ok([]);
      var here: seq<Node> := if j < |items| then [items[j]] else [];
      assert here + [] == here;
      assert Walk(h, BNode(k + j), seen) == Ok(here + []);
      assert j < |items| ==> items[j..] == [items[j]];
    }
  }

  /** Reading back a list just built gives its members, in order. */
  lemma DecodeList(h: set<Triple>, k: nat, items: seq<Node>)
    requires HoldsList(h, k, items)
    ensures Decode(h, BNode(k)) == Ok(items)
  {
    assert CellsUpTo(k, 0) == {BNode(k)};
    WalkList(h, k, items, 0);
  }

  /** Nil carries neither a member nor a rest, as in any graph the manager builds. */
  predicate NilFree(g: set<Triple>) {
    Objects(g, Nil, First) == {} && Objects(g, Nil, Rest) == {}
  }

  /**
    A list built on the fresh cells from `k` on, added together with extra
    triples that carry no first or rest link, holds the list.
  */
  lemma BuiltListHolds(g: set<Triple>, extra: set<Triple>, k: nat, items: seq<Node>)
    requires BlanksBelow(g, k) && NilFree(g)
    requires forall t | t in extra :: t.p != First && t.p != Rest
    ensures HoldsList(g + ListTriples(k, items) + extra, k, items)
  {
    var h := g + ListTriples(k, items) + extra;
    ListSubjects(k, items);
    forall x, p | (p == First || p == Rest) && (x == Nil || (x.BNode? && x.id >= k))
      ensures Objects(h, x, p) == Objects(ListTriples(k, items), x, p)
    {
      if x != Nil {
        forall t | t in g ensures t.s != x {
          assert TripleBelow(t, k);
        }
      }
      assert Objects(g, x, p) == {};
      assert Objects(extra, x, p) == {};
      assert Objects(h, x, p) == Objects(g, x, p) + Objects(ListTriples(k, items), x, p) + Objects(extra, x, p);
    }
  }

  /** Adding a list on fresh cells, and extra triples with no first or rest link, leaves older lists as they read. */
  lemma BuiltListKeepsOthers(g: set<Triple>, extra: set<Triple>, k: nat, items: seq<Node>, head: Node)
    requires BlanksBelow(g, k) && NodeBelow(head, k)
    requires forall t | t in extra :: t.p != First && t.p != Rest
    ensures Decode(g + ListTriples(k, items) + extra, head) == Decode(g, head)
  {
    var h := g + ListTriples(k, items) + extra;
    ListSubjects(k, items);
    forall x, p | (p == First || p == Rest) && NodeBelow(x, k) ensures Objects(h, x, p) == Objects(g, x, p) {
    }
    DecodeBelow(g, h, k, head);
  }
}
