/**
  The ontology header: `set_ontology_metadata`, `add_import` and
  `remove_import`, and what `get_ontology_metadata` / `get_imports` report
  after them.
*/
module Header {
  import opened Wrappers
  import opened Rdf
  import opened Vocab
  import opened Bags
  import opened Entities
  import opened Views

  /** Graph.set for one metadata field, done only when the argument is given and not empty. */
  function SetIfGiven(g: set<Triple>, ont: Node, p: Node, v: Option<string>, o: Node): set<Triple> {
    if Given(v) then SetTriple(g, ont, p, o) else g
  }

  function Obj(v: Option<string>, f: string -> Node): Node {
    if v.Some? then f(v.value) else Iri("")
  }

  /** `set_ontology_metadata`: label, comment and creator as plain literals, the version IRI as an IRI. */
  function SetOntologyMetadata(g: set<Triple>, ont: Node, labelText: Option<string>, commentText: Option<string>,
                               creator: Option<string>, versionIri: Option<string>): (r: set<Triple>)
    ensures Objects(r, ont, Label) == if Given(labelText) then {Text(labelText.value)} else Objects(g, ont, Label)
    ensures Objects(r, ont, Comment) == if Given(commentText) then {Text(commentText.value)} else Objects(g, ont, Comment)
    ensures Objects(r, ont, Creator) == if Given(creator) then {Text(creator.value)} else Objects(g, ont, Creator)
    ensures Objects(r, ont, VersionIri) == if Given(versionIri) then {Iri(versionIri.value)} else Objects(g, ont, VersionIri)
    ensures forall t | t in g && !(t.s == ont && t.p in FieldsGiven(labelText, commentText, creator, versionIri)) :: t in r
    ensures forall t | t in r && !(t.s == ont && t.p in FieldsGiven(labelText, commentText, creator, versionIri)) :: t in g
  {
    var g1 := SetIfGiven(g, ont, Label, labelText, Obj(labelText, Text));
    var g2 := SetIfGiven(g1, ont, Comment, commentText, Obj(commentText, Text));
    var g3 := SetIfGiven(g2, ont, Creator, creator, Obj(creator, Text));
    var g4 := SetIfGiven(g3, ont, VersionIri, versionIri, Obj(versionIri, s => Iri(s)));
    SetSlice(g, ont, Label, labelText, Obj(labelText, Text));
    SetSlice(g1, ont, Comment, commentText, Obj(commentText, Text));
    SetSlice(g2, ont, Creator, creator, Obj(creator, Text));
    SetSlice(g3, ont, VersionIri, versionIri, Obj(versionIri, s => Iri(s)));
    g4
  }

  /** `set_ontology_metadata` stores only literals and IRIs, so it mints no anonymous node. */
  lemma SetOntologyMetadataBelow(g: set<Triple>, ont: Node, labelText: Option<string>, commentText: Option<string>,
                                 creator: Option<string>, versionIri: Option<string>, k: nat)
    requires BlanksBelow(g, k) && NodeBelow(ont, k)
    ensures BlanksBelow(SetOntologyMetadata(g, ont, labelText, commentText, creator, versionIri), k)
  {
    var r := SetOntologyMetadata(g, ont, labelText, commentText, creator, versionIri);
    forall t | t in r ensures TripleBelow(t, k) {
      if t !in g {
        assert t.s == ont && t.p in FieldsGiven(labelText, commentText, creator, versionIri);
        assert t.o in Objects(r, ont, t.p);
        if t.p == Label {
          assert t.o == Text(labelText.value);
        } else if t.p == Comment {
          assert t.o == Text(commentText.value);
        } else if t.p == Creator {
          assert t.o == Text(creator.value);
        } else {
          assert t.o == Iri(versionIri.value);
        }
      }
    }
  }

  /** The header predicates a call to `set_ontology_metadata` overwrites. */
  function FieldsGiven(labelText: Option<string>, commentText: Option<string>,
                       creator: Option<string>, versionIri: Option<string>): set<Node> {
    (if Given(labelText) then {Label} else {})
    + (if Given(commentText) then {Comment} else {})
    + (if Given(creator) then {Creator} else {})
    + (if Given(versionIri) then {VersionIri} else {})
  }

  /** What one conditional set does to the slices of `ont`. */
  lemma SetSlice(g: set<Triple>, ont: Node, p: Node, v: Option<string>, o: Node)
    ensures Given(v) ==> Objects(SetIfGiven(g, ont, p, v, o), ont, p) == {o}
    ensures forall q | q != p :: Objects(SetIfGiven(g, ont, p, v, o), ont, q) == Objects(g, ont, q)
  {
    if Given(v) {
      var r := SetIfGiven(g, ont, p, v, o);
      assert Triple(ont, p, o) in r;
    }
  }

  /** The text reported for a field is fixed by the field's slice. */
  lemma ReportedOfSlice(g: set<Triple>, h: set<Triple>, ont: Node, p: Node)
    requires Objects(g, ont, p) == Objects(h, ont, p)
    ensures Reported(g, ont, p) == Reported(h, ont, p)
  {
    assert Value(g, ont, p) == Value(h, ont, p);
  }

  /** A field after the call: the text given, or what was reported before when it was not given. */
  lemma FieldAfterSet(g: set<Triple>, r: set<Triple>, ont: Node, p: Node, v: Option<string>, o: Node)
    requires Objects(r, ont, p) == if Given(v) then {o} else Objects(g, ont, p)
    requires Given(v) ==> Truthy(o) && Str(o) == v.value
    ensures Reported(r, ont, p) == if Given(v) then Some(v.value) else Reported(g, ont, p)
  {
    if Given(v) {
      ValueOfSingle(r, ont, p, o);
    } else {
      ReportedOfSlice(g, r, ont, p);
    }
  }

  /**
    `set_ontology_metadata` then `get_ontology_metadata`: each field given is
    reported as given, each field not given is reported as it was before.
  */
  lemma SetThenGetMetadata(g: set<Triple>, ont: Node, labelText: Option<string>, commentText: Option<string>,
                           creator: Option<string>, versionIri: Option<string>)
    ensures var before := GetOntologyMetadata(g, ont);
      var after := GetOntologyMetadata(SetOntologyMetadata(g, ont, labelText, commentText, creator, versionIri), ont);
      && Entry(after, "label") == (if Given(labelText) then labelText else Entry(before, "label"))
      && Entry(after, "comment") == (if Given(commentText) then commentText else Entry(before, "comment"))
      && Entry(after, "creator") == (if Given(creator) then creator else Entry(before, "creator"))
      && Entry(after, "version_iri") == (if Given(versionIri) then versionIri else Entry(before, "version_iri"))
  {
    var r := SetOntologyMetadata(g, ont, labelText, commentText, creator, versionIri);
    assert Reported(r, ont, Label) == if Given(labelText) then labelText else Reported(g, ont, Label) by {
      FieldAfterSet(g, r, ont, Label, labelText, Text(Arg(labelText)));
    }
    assert Reported(r, ont, Comment) == if Given(commentText) then commentText else Reported(g, ont, Comment) by {
      FieldAfterSet(g, r, ont, Comment, commentText, Text(Arg(commentText)));
    }
    assert Reported(r, ont, Creator) == if Given(creator) then creator else Reported(g, ont, Creator) by {
      FieldAfterSet(g, r, ont, Creator, creator, Text(Arg(creator)));
    }
    assert Reported(r, ont, VersionIri) == if Given(versionIri) then versionIri else Reported(g, ont, VersionIri) by {
      FieldAfterSet(g, r, ont, VersionIri, versionIri, Iri(Arg(versionIri)));
    }
  }

  // ---------------------------------------------------------------------------
  // Imports

  /** `add_import`. */
  function AddImport(g: set<Triple>, ont: Node, u: string): (r: set<Triple>)
    ensures g <= r
    ensures Objects(r, ont, Imports) == Objects(g, ont, Imports) + {Iri(u)}
    ensures forall t | t in r - g :: t == Triple(ont, Imports, Iri(u))
  {
    g + {Triple(ont, Imports, Iri(u))}
  }

  /** `remove_import`. */
  function RemoveImport(g: set<Triple>, ont: Node, u: string): (r: set<Triple>)
    ensures r == g - {Triple(ont, Imports, Iri(u))}
  {
    Remove(g, Pattern(Some(ont), Some(Imports), Some(Iri(u))))
  }

  /** How many entries of `get_imports` read `u`: one per object of (ont, imports, *) whose text is `u`. */
  lemma ImportCount(g: set<Triple>, ont: Node, u: string)
    ensures GetImports(g, ont)[u] == |Preimage(Objects(g, ont, Imports), Str, u)|
  {
    BagCount(Objects(g, ont, Imports), Str, u);
  }

  /** `add_import` lists `u` once more, unless it was already imported. */
  lemma AddImportListed(g: set<Triple>, ont: Node, u: string)
    ensures GetImports(AddImport(g, ont, u), ont)[u]
         == GetImports(g, ont)[u] + (if Triple(ont, Imports, Iri(u)) in g then 0 else 1)
  {
    var r := AddImport(g, ont, u);
    ImportCount(g, ont, u);
    ImportCount(r, ont, u);
    assert Objects(r, ont, Imports) == Objects(g, ont, Imports) + {Iri(u)};
    assert Iri(u) in Objects(g, ont, Imports) <==> Triple(ont, Imports, Iri(u)) in g;
    PreimageInsert(Objects(g, ont, Imports), Str, Iri(u));
  }

  /**
    `remove_import` lists `u` once less when it was imported. Another object
    whose text is `u`, such as a literal, stays listed.
  */
  lemma RemoveImportUnlisted(g: set<Triple>, ont: Node, u: string)
    ensures GetImports(RemoveImport(g, ont, u), ont)[u] + (if Triple(ont, Imports, Iri(u)) in g then 1 else 0)
         == GetImports(g, ont)[u]
  {
    var r := RemoveImport(g, ont, u);
    ImportCount(g, ont, u);
    ImportCount(r, ont, u);
    assert Objects(r, ont, Imports) == Objects(g, ont, Imports) - {Iri(u)};
    assert Iri(u) in Objects(g, ont, Imports) <==> Triple(ont, Imports, Iri(u)) in g;
    PreimageDelete(Objects(g, ont, Imports), Str, Iri(u));
  }
}
