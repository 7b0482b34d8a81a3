/**
  The relation tables: `add_*_relation`, `remove_*_relation` and
  `get_*_relations` for classes, properties and individuals. The three
  families differ only in their table of relation names, so each operation is
  written once over a table.
*/
module Relations {
  import opened Wrappers
  import opened Rdf
  import opened Vocab
  import opened Naming
  import opened Bags
  import opened Views

  /** The triple a relation of the table names, if the table knows the relation. */
  function RelationTriple(base: string, table: Table, a: string, relation: string, b: string): Option<Triple> {
    var pred := Lookup(table, relation);
    if pred.Some? then Some(Triple(Uri(base, a), pred.value, Uri(base, b))) else None
  }

  /** `add_class_relation`, `add_property_relation`, `add_individual_relation`: an unknown name is ignored. */
  function AddRelation(g: set<Triple>, base: string, table: Table, a: string, relation: string, b: string)
    : (r: set<Triple>)
    ensures Lookup(table, relation).None? ==> r == g
    ensures Lookup(table, relation).Some? ==>
      r == g + {Triple(Uri(base, a), Lookup(table, relation).value, Uri(base, b))}
  {
    var t := RelationTriple(base, table, a, relation, b);
    if t.Some? then g + {t.value} else g
  }

  /** `remove_class_relation` and its two siblings: an unknown name is ignored. */
  function RemoveRelation(g: set<Triple>, base: string, table: Table, a: string, relation: string, b: string)
    : (r: set<Triple>)
    ensures Lookup(table, relation).None? ==> r == g
    ensures Lookup(table, relation).Some? ==>
      r == g - {Triple(Uri(base, a), Lookup(table, relation).value, Uri(base, b))}
  {
    var t := RelationTriple(base, table, a, relation, b);
    if t.Some? then Remove(g, Pattern(Some(t.value.s), Some(t.value.p), Some(t.value.o))) else g
  }

  datatype RelationInfo = RelationInfo(subject: string, relation: string, object: string)

  /** A relation record passes the filter when no name is given or the name is one of its two ends. */
  predicate Kept(filter: Option<string>, t: Triple) {
    filter.None? || filter.value == NameOf(t.s) || filter.value == NameOf(t.o)
  }

  /** The triples with predicate `pred` between two named resources that pass the filter. */
  function Related(g: set<Triple>, pred: Node, filter: Option<string>): set<Triple> {
    set t | t in g && t.p == pred && t.s.Iri? && t.o.Iri? && Kept(filter, t)
  }

  /** The record of a related pair under relation `name`. */
  function Record(name: string): Triple -> RelationInfo {
    (t: Triple) => RelationInfo(NameOf(t.s), name, NameOf(t.o))
  }

  /** `get_class_relations` and its two siblings: one record per related pair, for every entry of the table. */
  ghost function GetRelations(g: set<Triple>, table: Table, filter: Option<string>): multiset<RelationInfo>
    decreases |table|
  {
    if table == [] then multiset{}
    else
      var name := table[0].0;
      Bag(Related(g, table[0].1, filter), Record(name))
        + GetRelations(g, table[1..], filter)
  }

  datatype AllRelations = AllRelations(classRelations: multiset<RelationInfo>,
                                       propertyRelations: multiset<RelationInfo>,
                                       individualRelations: multiset<RelationInfo>)

  /** `get_all_relations`. */
  ghost function GetAllRelations(g: set<Triple>): AllRelations {
    AllRelations(GetRelations(g, ClassRelations, None), GetRelations(g, PropertyRelations, None),
                 GetRelations(g, IndividualRelations, None))
  }

  /** A related pair of a table entry is reported under that entry's name. */
  lemma {:induction false} RelatedReported(g: set<Triple>, table: Table, filter: Option<string>, i: nat, t: Triple)
    requires i < |table| && t in Related(g, table[i].1, filter)
    ensures RelationInfo(NameOf(t.s), table[i].0, NameOf(t.o)) in GetRelations(g, table, filter)
    decreases i
  {
    if i == 0 {
      BagHas(Related(g, table[0].1, filter), Record(table[0].0), Record(table[0].0)(t));
    } else {
      var rest := table[1..];
      assert rest[i - 1] == table[i];
      RelatedReported(g, rest, filter, i - 1, t);
    }
  }

  /**
    A relation added under a known name is reported under that name, both
    unfiltered and filtered by either end's local name.
  */
  lemma AddThenGetRelation(g: set<Triple>, base: string, table: Table, a: string, relation: string, b: string)
    requires Lookup(table, relation).Some?
    ensures var r := AddRelation(g, base, table, a, relation, b);
      var info := RelationInfo(NameOf(Uri(base, a)), relation, NameOf(Uri(base, b)));
      && info in GetRelations(r, table, None)
      && info in GetRelations(r, table, Some(NameOf(Uri(base, a))))
      && info in GetRelations(r, table, Some(NameOf(Uri(base, b))))
  {
    var r := AddRelation(g, base, table, a, relation, b);
    var pred := Lookup(table, relation).value;
    var t := Triple(Uri(base, a), pred, Uri(base, b));
    var i :| 0 <= i < |table| && table[i] == (relation, pred);
    RelatedReported(r, table, None, i, t);
    RelatedReported(r, table, Some(NameOf(Uri(base, a))), i, t);
    RelatedReported(r, table, Some(NameOf(Uri(base, b))), i, t);
  }

  /** Removing after adding undoes the add, except that a relation present before is gone too. */
  lemma RemoveAfterAdd(g: set<Triple>, base: string, table: Table, a: string, relation: string, b: string)
    ensures RemoveRelation(AddRelation(g, base, table, a, relation, b), base, table, a, relation, b)
         == RemoveRelation(g, base, table, a, relation, b)
    ensures Lookup(table, relation).Some? &&
            Triple(Uri(base, a), Lookup(table, relation).value, Uri(base, b)) !in g ==>
      RemoveRelation(AddRelation(g, base, table, a, relation, b), base, table, a, relation, b) == g
  {
  }
}
