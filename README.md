# OntologyManager, modelled in Dafny

This project models `OntologyManager`, the class behind an OWL ontology editor.
The manager keeps one RDF graph and a base IRI and offers these operations:

- the ontology header (metadata and imports);
- adding, updating, renaming, deleting and listing classes, object and data properties, and individuals;
- OWL restrictions;
- annotations;
- the class, property and individual relation tables;
- the RDF-list constructs: property chains, class expressions, `owl:AllDifferent`, `owl:hasKey` and `owl:disjointUnionOf`;
- moving the whole ontology to a new base IRI;
- validation, statistics and reasoning.

The graph is a `set<Triple>` over nodes that are IRIs, anonymous nodes or literals (`Rdf`).
The views the source returns as lists are modelled as multisets, because their order is not modelled.

## Layout

- `Rdf`: nodes, triples and the rdflib graph primitives (`remove`, `set`, `value`, truthiness), plus the collect-then-apply update lists the rename loops build.
- `Vocab`: the RDF, RDFS, OWL, XSD and Dublin Core IRIs, and the manager's lookup tables.
- `Naming`: `_uri`, `_local_name`, base normalisation, and the separator inference used after loading.
- `Entities`: class, property and individual add, update and delete.
- `Views`: the `get_*` views of those entities and of the header.
- `Header`: metadata and imports.
- `Rename`: the three renames.
- `Rebase`: `set_base_uri`.
- `Restrictions`, `Annotations`, `Relations`: the three corresponding feature groups.
- `Lists`: building and reading an RDF collection.
- `Constructs`: the list-valued OWL constructs.
- `Lint`: `validate`, `get_statistics` and `apply_reasoning`.
- `Bags`: building a multiset view from a set.
- `Manager`: the `OntologyManager` class itself.
  - Each method changes `triples` exactly as the corresponding module function says.
  - Each method keeps the invariant `Valid()`. It says the ontology IRI is the base with its trailing separators stripped. It also says every anonymous node in the graph is numbered below `nextBlank`, the counter that stands for rdflib's fresh `BNode()`.

## Model

| member | source | states |
|---|---|---|
| Naming.LocalName | ontology_manager.py:179-184 | `_local_name` is the suffix after the last '#'. With no '#', it is the suffix after the last '/'. With neither, it is the whole IRI. The result contains neither separator it split on. |
| Naming.LocalNameOfUri | ontology_manager.py:173-184 | For a base ending in a separator and a name without one, `_local_name(_uri(name))` is the name again. |
| Naming.UriInjective | ontology_manager.py:173-177 | Two relative names that resolve to the same IRI are equal. |
| Naming.NormalizeBase | ontology_manager.py:122-129 | The normalised base always ends in '#' or '/'. It extends the argument by at most one character, and it equals the argument exactly when the argument already ends in a separator. |
| Naming.InferBase | ontology_manager.py:1212-1239 | The inferred base ends in a separator and extends the ontology IRI by at most one character. '/' is chosen exactly when the IRI has no trailing separator and the sample subject continues the IRI with '/'. |
| Naming.InferBaseRoundTrip | ontology_manager.py:1212-1239 | Stripping the separator from the inferred base gives back the loaded ontology IRI. |
| Rdf.Remove | ontology_manager.py:256-261 | `graph.remove(pattern)` removes exactly the triples that match the pattern and keeps all the others. |
| Rdf.SetTriple | ontology_manager.py:64-74 | `graph.set((s, p, o))` leaves exactly one object for (s, p), namely o. Triples with another subject or predicate are untouched. |
| Rdf.Value | ontology_manager.py:112-120 | `graph.value` returns None exactly when there is no object. Otherwise it returns one of the objects in the graph. |
| Rdf.ApplyBatch | ontology_manager.py:242-252 | Applying a collected update list one entry at a time equals removing all the old triples and adding all the new ones, when no entry re-adds what another removes. |
| Rdf.CollectUpdates | ontology_manager.py:242-248 | The collecting loop gathers exactly one update for each triple the rewrite applies to. |
| Entities.AddClass | ontology_manager.py:188-203 | The class is typed owl:Class. The parent, label and comment are added when they are given and non-empty. No other triple is added: every new triple is about the class, and its object is owl:Class, the parent, the label or the comment according to its predicate. Nothing is removed. |
| Entities.UpdateClass | ontology_manager.py:205-224 | A label or comment of None is kept, "" is cleared and any other text replaces the old one. A new parent is added and the removed parent is gone, unless it is the same parent. Every other triple is unchanged. |
| Entities.AddObjectProperty | ontology_manager.py:308-345 | The property is typed owl:ObjectProperty plus one type per characteristic flag. Domain, range, label, comment and inverse are added when given. Every added triple is about the property and is one of these: a type triple whose object is owl:ObjectProperty or a set characteristic, or a given domain, range, label, comment or inverse with its resolved object. Nothing is removed. |
| Entities.AddDataProperty | ontology_manager.py:347-366 | The property is typed owl:DatatypeProperty, and also owl:FunctionalProperty when the flag is set. The domain, label and comment are added when given. The range is always an XSD datatype: a known name maps to its datatype and any other name to xsd:string. Every added triple is about the property and is one of these: a type triple whose object is owl:DatatypeProperty or, with the flag, owl:FunctionalProperty, or a given domain, range, label or comment with its resolved object. Nothing is removed. |
| Entities.DataRange | ontology_manager.py:356-358 | A known datatype name maps to its XSD IRI. Any other name maps to xsd:string. |
| Entities.UpdateProperty | ontology_manager.py:368-395 | Label, comment, domain and range are each kept, cleared or replaced. A known datatype name as the new range becomes the XSD IRI, and any other name is resolved as a class. Every other triple is unchanged. |
| Entities.AddIndividual | ontology_manager.py:521-535 | The individual is typed owl:NamedIndividual and its class. The label and comment are added when given. Every added triple is about the individual and is one of these: a type triple whose object is owl:NamedIndividual or the class, or the given label or comment text. Nothing is removed. |
| Entities.AddIndividualProperty | ontology_manager.py:537-547 | It adds exactly one assertion. The value is an IRI for an object property and a plain literal otherwise. |
| Entities.UpdateIndividual | ontology_manager.py:549-568 | The label and comment are kept, cleared or replaced. The removed class is gone. The added class is present unless it is also the removed one. Every other triple is unchanged. |
| Entities.DeleteEntity | ontology_manager.py:256-261 | After deleting an entity, no triple mentions it as subject or object, nor as predicate for a property. Every triple not mentioning it survives. |
| Views.GetOntologyMetadata | ontology_manager.py:112-120 | Each metadata key is present exactly when the header has a truthy value for it, and its entry is that value's text. |
| Views.HierarchyOfUniqueName | ontology_manager.py:293-306 | The hierarchy has one key per named class. For a class whose local name is unique, its entry lists exactly its named subclasses. |
| Views.AddClassThenGetClasses | ontology_manager.py:188-203 | After adding a fresh class, `get_classes` reports it with its IRI, name, label, comment and parent, and with no children. |
| Views.ClassInfoAfterAdd | ontology_manager.py:263-291 | What `get_classes` reports for a freshly added class: its label and comment texts, its parent's name, and no children. |
| Views.TraitsReported | ontology_manager.py:465-478 | The characteristics list names exactly the traits whose type triples the graph holds, in the fixed order Functional, InverseFunctional, Transitive, Symmetric, Asymmetric, Reflexive, Irreflexive. |
| Views.ObjectPropertyRecord | ontology_manager.py:439-486 | For a property with at most one label, comment, domain, range and inverse, the record holds those texts and local names, "" for a missing slot, the characteristics of its extra types, and an inverse only when one is stored. |
| Views.AddObjectPropertyThenGet | ontology_manager.py:308-345 | After adding a fresh object property, `get_object_properties` lists it with its IRI, name, label, comment, domain and range names, its characteristics and its inverse. |
| Views.DataPropertyRecord | ontology_manager.py:488-519 | For a datatype property with at most one label, comment, domain and range, the record holds those texts and names, and the functional flag is set exactly when owl:FunctionalProperty is among its types. |
| Views.AddDataPropertyThenGet | ontology_manager.py:347-366 | After adding a fresh datatype property, `get_data_properties` lists it with its label, comment and domain, the name of the XSD datatype its range became, and its functional flag. |
| Views.IndividualRecord | ontology_manager.py:606-642 | For an individual typed owl:NamedIndividual and one class, with nothing but type, label and comment triples, the record lists that class alone and no property assertions. |
| Views.AddIndividualThenGet | ontology_manager.py:521-535 | After adding a fresh individual of a class, `get_individuals` lists it with its label, comment, that class and no property assertions. |
| Header.SetOntologyMetadata | ontology_manager.py:64-74 | Each given, non-empty field replaces every old value of that field on the ontology IRI. Fields not given keep their values, and no other triple changes. |
| Header.SetThenGetMetadata | ontology_manager.py:64-74 | `get_ontology_metadata` after `set_ontology_metadata` reports each given field's new value and each other field's old value. |
| Header.AddImportListed | ontology_manager.py:76-86 | After `add_import`, `get_imports` lists the IRI one more time, or the same number of times if it was already imported. |
| Header.RemoveImportUnlisted | ontology_manager.py:80-86 | After `remove_import`, `get_imports` lists the IRI one fewer time if it was imported, and otherwise the same number of times. |
| Rename.RenameEntity | ontology_manager.py:226-254 | The same name succeeds and changes nothing. A taken new name fails and changes nothing. Otherwise the graph is the rename of the old IRI to the new one. |
| Rename.RenameClass | ontology_manager.py:226-254 | The rename succeeds exactly when the names are equal or the new name is not a declared class. On failure or equal names, the graph is unchanged. Otherwise the graph is the rename of the old class IRI to the new one in subject and object positions (`Renamed`). |
| Rename.RenameProperty | ontology_manager.py:397-430 | The rename succeeds exactly when the names are equal or the new name is neither an object nor a data property. On failure or equal names, the graph is unchanged. Otherwise the graph is the rename of the old property IRI to the new one in subject, predicate and object positions (`Renamed`). |
| Rename.RenameIndividual | ontology_manager.py:570-598 | The rename succeeds exactly when the names are equal or the new name is not a declared individual. On failure or equal names, the graph is unchanged. Otherwise the graph is the rename of the old individual IRI to the new one in subject and object positions (`Renamed`). |
| Rename.RenameByUpdates | ontology_manager.py:240-252 | Applying the subject, object and predicate update lists, each collected from the original graph, gives the rename. |
| Rename.RenameSubstitutes | ontology_manager.py:240-252 | When no triple mentions the old IRI in two renamed positions, renaming substitutes the new IRI for the old one in every triple. |
| Rename.RenameRemovesOld | ontology_manager.py:240-252 | Under the same condition, the old IRI no longer appears in any renamed position. |
| Rename.SelfReferenceSurvives | ontology_manager.py:240-252 | A triple (a, p, a) is turned into (a, p, b). The old name survives, because both updates are collected from the original graph and the object update re-adds `a` as subject. |
| Rename.KeepsUnrelated | ontology_manager.py:240-252 | Every triple that does not mention the old IRI survives the rename. |
| Rename.AddsNothingUnrelated | ontology_manager.py:240-252 | Every triple after the rename that mentions neither IRI was there before. |
| Rebase.MoveByUpdates | ontology_manager.py:131-150 | Moving the ontology IRI as subject, then as object, gives the substitution of the new ontology IRI. |
| Rebase.MoveSubstitutes | ontology_manager.py:131-150 | The move substitutes the new ontology IRI in subject and object position, triple by triple. |
| Rebase.MovedOntologyGone | ontology_manager.py:131-150 | After the move, the old ontology IRI is neither subject nor object of any triple. |
| Rebase.RebaseByUpdates | ontology_manager.py:152-171 | For unrelated bases (neither a prefix of the other), applying the collected rewrites in any order rewrites every IRI under the old base to the new base with the same suffix. |
| Rebase.RebaseRemovesOldBase | ontology_manager.py:152-171 | For unrelated bases, no subject or object IRI starts with the old base afterwards. |
| Rebase.RebaseOrderMatters | ontology_manager.py:152-171 | For example, when the base moves from `http://x/` to `http://x/y/` in a graph whose subjects are `http://x/a` and `http://x/y/a`, two orders of the same collected update list give different graphs. |
| Rebase.SetBaseClosedForm | ontology_manager.py:122-171 | For unrelated bases, `set_base_uri` moves the ontology IRI and then rewrites every IRI under the old base. |
| Restrictions.ParseNumeral | ontology_manager.py:668-675 | `int()` reads back every numeral the model writes. |
| Restrictions.Filler | ontology_manager.py:656-676 | someValuesFrom and allValuesFrom resolve the value as a class. hasValue keeps a literal unless the value starts with "http". The cardinalities take the integer. A number given where a name is expected raises AttributeError, and a non-numeral cardinality raises ValueError. |
| Restrictions.AddRestriction | ontology_manager.py:646-681 | The type and onProperty triples are always added, even when it raises. An unknown kind raises "Unknown restriction type". On success, the class is a subclass of the new node, which carries the kind's filler and, for qualified kinds, onClass. |
| Restrictions.Detach | ontology_manager.py:734-738 | Detaching removes exactly the subClassOf link and every triple about the restriction. |
| Restrictions.AddThenGetRestrictions | ontology_manager.py:683-723 | After a successful add on a fresh node, `get_restrictions(class)` lists the restriction with its property, kind, filler display, qualifying class and class. |
| Restrictions.AddThenDeleteRestriction | ontology_manager.py:725-740 | The added restriction is one that `delete_restriction` may pick. Detaching it gives back the graph before the add. |
| Annotations.AddAnnotation | ontology_manager.py:744-785 | It adds exactly one triple. Its predicate is an absolute IRI as given, a known name from the add table, or else `_uri`. Its value carries the language tag when one is given. |
| Annotations.DeleteAnnotation | ontology_manager.py:875-890 | It removes exactly the triples of the subject with the delete table's predicate, restricted to the untagged plain literal when a value is given. |
| Annotations.AddThenGetAnnotations | ontology_manager.py:787-865 | An added annotation with a non-structural predicate is listed by `get_annotations`, and its predicate by `get_used_annotation_predicates`. |
| Annotations.AddThenDeleteAnnotation | ontology_manager.py:744-890 | For a name both tables know and a non-empty value, deleting the value just added removes exactly that triple. (With an empty value the delete removes every value of the predicate.) |
| Annotations.TaggedAnnotationSurvivesDelete | ontology_manager.py:875-890 | A language-tagged annotation is not removed by deleting the same value, because the delete literal has no tag. |
| Annotations.SeeAlsoSurvivesDelete | ontology_manager.py:744-890 | "seeAlso" is added as rdfs:seeAlso but deleted as base + "seeAlso", so the added triple survives the delete. |
| Relations.AddRelation | ontology_manager.py:893-921 | A known relation name adds exactly its triple between the two resolved IRIs. An unknown name changes nothing. |
| Relations.RemoveRelation | ontology_manager.py:923-929 | A known relation name removes exactly its triple. An unknown name changes nothing. |
| Relations.AddThenGetRelation | ontology_manager.py:915-945 | An added relation is reported under its name, both unfiltered and filtered by either end's local name. |
| Relations.RemoveAfterAdd | ontology_manager.py:915-929 | Removing after adding is the same as removing. It gives back the original graph when the triple was absent. |
| Lists.DecodeList | ontology_manager.py:1021-1041 | Reading back a list built on fresh cells gives its members in order, for the empty list too. |
| Lists.BuiltListKeepsOthers | ontology_manager.py:1021-1177 | Building a list on fresh cells leaves every older list reading as before. |
| Constructs.PlainNamesReadBack | ontology_manager.py:1031-1041 | Resolving separator-free names and taking their local names gives the names back. |
| Constructs.AddClassExpression | ontology_manager.py:1043-1067 | complementOf with a class adds one complement triple. An expression with no members, or of an unknown kind, changes nothing. |
| Constructs.AddPropertyChainThenGet | ontology_manager.py:1021-1041 | After `add_property_chain`, `get_property_chains` gains exactly one record with the property and its chain, or raises as it did before. |
| Constructs.PropertyChainRoundTrip | ontology_manager.py:1021-1041 | With separator-free names, the chain read back is the chain given. |
| Constructs.AddHasKeyThenGet | ontology_manager.py:1128-1153 | `get_has_keys(filter)` gains exactly the new key record when the class passes the filter, and nothing otherwise. |
| Constructs.AddDisjointUnionThenGet | ontology_manager.py:1155-1177 | `get_disjoint_unions` gains exactly the new union record. |
| Constructs.AddComplementThenGet | ontology_manager.py:1043-1103 | `get_class_expressions` gains the complement record when the triple is new and passes the filter, and nothing otherwise. |
| Constructs.AddListExpressionThenGet | ontology_manager.py:1043-1103 | `get_class_expressions` gains exactly one record for a new unionOf, intersectionOf or oneOf expression, with its members in order, when it passes the filter. |
| Constructs.AddAllDifferentThenGet | ontology_manager.py:1105-1126 | `get_all_different` gains exactly the new list of individual names. |
| Lint.ValidateHas | ontology_manager.py:1262-1356 | An issue is reported exactly when one of the five checks reports it. |
| Lint.MissingLabelReported | ontology_manager.py:1266-1276 | A missing-label warning is reported exactly when some named class with that local name has no truthy label. |
| Lint.MissingObjectDomainReported | ontology_manager.py:1278-1286 | A missing-domain notice for an object property is reported exactly when some named object property with that local name has no truthy domain. |
| Lint.UntypedReported | ontology_manager.py:1344-1354 | An untyped-individual warning is reported exactly when an individual with that local name has no type other than owl:NamedIndividual, anonymous individuals included. |
| Lint.LabelledClassNotReported | ontology_manager.py:1266-1276 | A fresh class added with a label is not reported as unlabelled. |
| Lint.ApplyReasoning | ontology_manager.py:1358-1371 | For the three known profiles, the graph grows by the inferred triples and the count is the number of new ones. Any other profile changes nothing and returns 0. |
| Lint.GetStatistics | ontology_manager.py:1373-1403 | Each count is the number of subjects typed with the corresponding OWL type, blank nodes included. The totals are the number of triples, and the number not about the ontology IRI. |
| Lint.AddClassCounted | ontology_manager.py:1373-1403 | Adding a class raises the class count by one, unless the class was already declared. |
| Manager.OntologyManager.constructor | ontology_manager.py:44-62 | A new manager holds only the ontology header. The ontology IRI is the base with its trailing separators stripped. |
| Manager.OntologyManager.SetOntologyMetadata | ontology_manager.py:64-74 | Changes the graph as `Header.SetOntologyMetadata` does on the ontology IRI, and nothing else. |
| Manager.OntologyManager.AddImport | ontology_manager.py:76-78 | Adds the import triple on the ontology IRI. |
| Manager.OntologyManager.RemoveImport | ontology_manager.py:80-82 | Removes the import triple on the ontology IRI. |
| Manager.OntologyManager.ApplyUpdates | ontology_manager.py:242-252 | The remove-then-add loop leaves the graph the result of applying the updates in order. |
| Manager.OntologyManager.Substitute | ontology_manager.py:240-252 | The three collect-then-apply loops of a rename leave the graph renamed. |
| Manager.OntologyManager.SetBaseUri | ontology_manager.py:122-171 | An empty argument changes nothing. Otherwise the base is normalised, the ontology IRI is moved, and the IRIs under the old base are rewritten in some order of the collected list. For unrelated bases, the result is the closed form. |
| Manager.OntologyManager.AddClass | ontology_manager.py:188-203 | Changes the graph as `Entities.AddClass` does under the current base. |
| Manager.OntologyManager.UpdateClass | ontology_manager.py:205-224 | Changes the graph as `Entities.UpdateClass` does. |
| Manager.OntologyManager.RenameClass | ontology_manager.py:226-254 | Returns and leaves what `Rename.RenameClass` gives. |
| Manager.OntologyManager.DeleteClass | ontology_manager.py:256-261 | Removes every triple with the class as subject or object. |
| Manager.OntologyManager.AddObjectProperty | ontology_manager.py:308-345 | Changes the graph as `Entities.AddObjectProperty` does. |
| Manager.OntologyManager.AddDataProperty | ontology_manager.py:347-366 | Changes the graph as `Entities.AddDataProperty` does. |
| Manager.OntologyManager.UpdateProperty | ontology_manager.py:368-395 | Changes the graph as `Entities.UpdateProperty` does. |
| Manager.OntologyManager.RenameProperty | ontology_manager.py:397-430 | Returns and leaves what `Rename.RenameProperty` gives. |
| Manager.OntologyManager.DeleteProperty | ontology_manager.py:432-437 | Removes every triple mentioning the property in any position. |
| Manager.OntologyManager.AddIndividual | ontology_manager.py:521-535 | Changes the graph as `Entities.AddIndividual` does. |
| Manager.OntologyManager.AddIndividualProperty | ontology_manager.py:537-547 | Changes the graph as `Entities.AddIndividualProperty` does. |
| Manager.OntologyManager.UpdateIndividual | ontology_manager.py:549-568 | Changes the graph as `Entities.UpdateIndividual` does. |
| Manager.OntologyManager.RenameIndividual | ontology_manager.py:570-598 | Returns and leaves what `Rename.RenameIndividual` gives. |
| Manager.OntologyManager.DeleteIndividual | ontology_manager.py:600-604 | Removes every triple with the individual as subject or object. |
| Manager.OntologyManager.AddRestriction | ontology_manager.py:646-681 | Takes a fresh anonymous node and changes the graph as `Restrictions.AddRestriction` does, raising the same error. The invariant holds on the error path too. |
| Manager.OntologyManager.DeleteRestriction | ontology_manager.py:725-740 | Reports a deletion exactly when some restriction matches. It then detaches one match, and otherwise changes nothing. |
| Manager.OntologyManager.AddAnnotation | ontology_manager.py:744-785 | Changes the graph as `Annotations.AddAnnotation` does. |
| Manager.OntologyManager.DeleteAnnotation | ontology_manager.py:875-890 | Changes the graph as `Annotations.DeleteAnnotation` does. |
| Manager.OntologyManager.AddRelation | ontology_manager.py:915-921 | Changes the graph as `Relations.AddRelation` does, for each of the three tables. |
| Manager.OntologyManager.RemoveRelation | ontology_manager.py:923-929 | Changes the graph as `Relations.RemoveRelation` does. |
| Manager.OntologyManager.AddPropertyChain | ontology_manager.py:1021-1029 | Builds the chain's list on fresh anonymous nodes and links it from the property. |
| Manager.OntologyManager.AddClassExpression | ontology_manager.py:1043-1067 | Builds the expression's list on fresh anonymous nodes, or adds the complement triple. |
| Manager.OntologyManager.AddAllDifferent | ontology_manager.py:1105-1113 | Adds a fresh owl:AllDifferent node whose members list is built on fresh nodes. |
| Manager.OntologyManager.AddHasKey | ontology_manager.py:1128-1135 | Builds the key's list on fresh anonymous nodes and links it from the class. |
| Manager.OntologyManager.AddDisjointUnion | ontology_manager.py:1155-1162 | Builds the union's list on fresh anonymous nodes and links it from the class. |
| Manager.OntologyManager.ApplyReasoning | ontology_manager.py:1358-1371 | Grows the graph by the given inferences for a known profile, and returns the number of triples added. |
| Manager.CounterIsFresh | ontology_manager.py:652-654 | Under the manager's invariant, the next anonymous node the counter hands out occurs nowhere in the graph. |
| Manager.ManagedRestriction | ontology_manager.py:646-740 | A restriction the manager adds on its next anonymous node is listed by `get_restrictions`, can be picked by `delete_restriction`, and detaching it undoes the add. |

## Left out

- Loading, parsing and serialisation (`load_from_file`, `load_from_string`, `export_*`) are left out: they are rdflib's parsers and writers. After a load, only the base inference (`Naming.InferBase`) is modelled.
- The regular-expression prefix extraction and the prefix display helpers (`get_prefixes`, `_get_prefix_for_uri`) are left out: they are about text formats and display.
- The web application is not part of this model.
- Sorting and iteration order are left out. Every list view is a multiset, and `graph.value` picks an unspecified object.
- Views.HierarchyOfUniqueName: when two classes share a local name, `get_class_hierarchy` keeps the entry of whichever the iteration visits last. The model says only that the entry is the children of one of them, and states the exact entry for a unique name.
- Reasoning is not modelled: the inferred triples are a parameter.
- Python's loose typing of arguments is not modelled. A restriction value is either a name or a natural number, and `int()` accepts only plain decimal digits (no sign, no surrounding spaces).
- Manager.OntologyManager.DeleteRestriction: the source compares the restriction's one `graph.value` for onProperty with the property. The model asks whether the property is among the restriction's onProperty values. The two differ only for a restriction with several onProperty triples.
- Manager.OntologyManager.SetBaseUri: the result is stated in closed form only when neither base is a prefix of the other. Otherwise the outcome depends on the order of the collected updates, and the contract says only that it is one such order (see `Rebase.RebaseOrderMatters`).
- Manager.OntologyManager.AddRestriction: the graph, the result and the error are stated. The error's message text is reproduced only for the unknown-kind and bad-numeral cases.
- Constructs.AddPropertyChainThenGet: a list that comes back to a cell it has seen makes `get_property_chains` raise one fixed message. The other `get_*` list views skip that list.
- Absent list arguments (None) are modelled as empty sequences.
- The anonymous node's string form (`_:b` plus its number) stands for rdflib's generated identifiers.
- The empty RDF list is one cell holding only `rdf:rest rdf:nil`, which is how the collection builder is modelled here. Nil with a member or a rest is excluded by the round-trip lemmas' `NilFree` precondition, but not by the manager's invariant, since a user may add such triples.
- The orphan-class bookkeeping inside `validate` (`all_classes`, `used_classes`) builds sets that are never read, so it has no effect and is not modelled.
- The `namespace` and `prefixes` fields and the namespace binding after `set_base_uri` only affect serialisation, so they are not modelled.
- Numeric literals are truthy by their text, not by their numeric value. A literal "0" counts as given here, while Python would treat it as false.
