# Capella Tools core, modelled in Dafny

This project models the bookkeeping, lookup and matrix-building logic of
Capella Tools, a Python toolkit for Capella system models. Capella is an
MBSE (model-based systems engineering) tool. The modelled parts are:

- **`CapellaYAMLHandler`** (`yaml_handler.dfy`, module `CapellaYaml`). It
  exports a Capella model to YAML. The model keeps its primary and
  referenced element lists and the accumulated YAML text. It covers the
  reference tracker `_track_referenced_objects`, which is modelled as a
  table of 24 rules read by an interpreter. It also covers the
  primary-object bookkeeping and if/elif dispatch of `generate_yaml`, the
  work-list `generate_yaml_referenced_objects`, the traceability pass, the
  whole-model collector `get_entire_model`, the Teamcenter snippet and
  `get_yaml_content`. The Capella model is an abstract graph: each element
  has a class name, a `nature` and named relations. Jinja rendering is a
  function the caller supplies.
- **`TcItemRevisionParser`** (`tc_item_revision.dfy`). It collects the
  smw:TcItemRevision extensions of a `.capella` file into a dictionary
  keyed by the owning element's id, and answers lookups by Teamcenter item
  and revision. The parsed XML tree and the directory listing are inputs.
- **`N2DiagramGenerator`** (`n2_diagram.dfy`). It builds the entity and
  port maps, records the functional or component exchanges, sorts the
  labels and fills the check-mark matrix. The loaded YAML object list is an
  input. The matrix is a sequence of rows.
- **Pub4C traceability store** (`pub4c.dfy`). This covers
  `Traceability_Store` loading link types and artifacts, with its error
  behaviour, and the lookup of the artifacts linked to a model element. It
  also covers `Traceability_Artifact` with `add_link` and the effective
  (second) `add_property_value`.
- **`EmbeddingManager`** (`embeddings.dfy`). This covers the choice of
  settings, the normalisation of the embedding file's shape, the freshness
  decision against the model files, the uuid-deduplicating object
  collection and the metadata text. The file system is a value: existing
  paths with their modification times, and the parsed JSON of readable
  files. The ISO-timestamp parser and the embedding service are parameters.
- **`ChatGPTAnalyzer`** (`rag_manager.dfy`). This covers the choice of
  settings, the message list and its updates, the file-extension check, the
  reply's code-fence stripping, the relation-text clean-up and the graph
  built from relations. The chat service's reply or error, the text
  extracted from a file and the HTML clean-up are parameters.
- **Teamcenter and Polarion credential managers** (`teamcenter_auth.dfy`,
  `polarion_auth.dfy`, sharing `credential_file.dfy`). The credentials file
  is a field holding the stored text, or None when there is no file.
  `set_credentials` writes that field. `get_credentials` decodes it.

Two helper modules hold no source logic of their own. `Wrappers` holds
Option, Result and list facts. `Text` holds Python's `strip`, `split`,
`splitlines`, `join`, `startswith` and string ordering, each with the
lemmas the other modules use.

Where a loop in the source changes state, the model is a class method with
`modifies` and loop invariants. Its `ensures` ties the new state to a
specification function, and lemmas then prove what the source promises
about that function. Where the source is wrong, the model keeps both
versions: a member as written and a corrected one. The corrected one is
what the rest of the model uses (see Findings).

## Model

| member | source | states |
|---|---|---|
| CapellaYaml.AddAll | capella_tools/capellambse_yaml_manager.py:191-200 | The guarded `if x not in refs: refs.append(x)` only grows the list, and afterwards its members are exactly the old ones plus the candidates |
| CapellaYaml.AddAllKeepsNoDup | capella_tools/capellambse_yaml_manager.py:191-200 | The guarded append never introduces a duplicate into a duplicate-free list |
| CapellaYaml.AddAllConcat | capella_tools/capellambse_yaml_manager.py:191-200 | Two guarded loops run one after the other equal one guarded loop over both candidate lists |
| CapellaYaml.AddAllFresh | capella_tools/capellambse_yaml_manager.py:191-200 | What the guarded append adds is duplicate-free and was absent before |
| CapellaYaml.AddAllIsDedup | capella_tools/capellambse_yaml_manager.py:73-79 | `add_unique_object` run from an empty list is deduplication in first-occurrence order |
| CapellaYaml.AddAllFirstOccurrenceOrder | capella_tools/capellambse_yaml_manager.py:73-79 | Kept elements come in the order of their first occurrence among the candidates |
| CapellaYaml.MembersCandsOfEach | capella_tools/capellambse_yaml_manager.py:192-194 | A plain `for x in obj.rel` loop visits exactly the members of the relation |
| CapellaYaml.Track | capella_tools/capellambse_yaml_manager.py:189-633 | Tracking an element (with each loop read as intended) only grows `referenced_objects`, and only by elements the model points to |
| CapellaYaml.TrackKeepsNoDup | capella_tools/capellambse_yaml_manager.py:189-633 | Tracking keeps `referenced_objects` free of duplicates |
| CapellaYaml.TrackMembers | capella_tools/capellambse_yaml_manager.py:189-633 | An element is referenced after tracking iff it was referenced before or a loop of a rule that applies to the tracked element visits it |
| CapellaYaml.TrackFreshTail | capella_tools/capellambse_yaml_manager.py:189-633 | The part of the referenced list gained since a starting point stays duplicate-free, new and drawn from the model, so it is bounded by the model's size |
| CapellaYaml.TrackAsWrittenAgrees | capella_tools/capellambse_yaml_manager.py:189-633 | For an element whose applicable rules have no rebinding loop and no link-target loop, the tracker as written and the intended one give the same list |
| CapellaYaml.IncludeTargetAppendedTwice | capella_tools/capellambse_yaml_manager.py:338-341 | As written, two include links of a capability with one common target append that target twice, so the list gets a duplicate |
| CapellaYaml.IncludeTargetAppendedOnce | capella_tools/capellambse_yaml_manager.py:338-344 | Read as intended, the same two include links append the common target once |
| CapellaYaml.RebindReadsLastExchange | capella_tools/capellambse_yaml_manager.py:512-527 | `for obj in obj.exchanges` makes the later loops of the PhysicalLink rule read the last exchange's property values instead of the link's own |
| CapellaYaml.RebindIntendedCollectsLinkValues | capella_tools/capellambse_yaml_manager.py:512-527 | Iterating the exchanges under a fresh name, a link with the single exchange e references e and every property value applied to the link itself |
| CapellaYaml.FirstBranchSpec | capella_tools/capellambse_yaml_manager.py:1706-2484 | `generate_yaml` takes the default branch exactly when no branch handles the element, and otherwise the earliest branch that does |
| CapellaYaml.FirstBranchAt | capella_tools/capellambse_yaml_manager.py:1706-2460 | The branch chosen is the first one in source order that handles the element |
| CapellaYaml.OnlyPhysicalBranches | capella_tools/capellambse_yaml_manager.py:2067-2130 | No branch other than the two PhysicalComponent branches handles a PhysicalComponent |
| CapellaYaml.PhysicalComponentByNature | capella_tools/capellambse_yaml_manager.py:2067-2130 | A PhysicalComponent takes the node branch for nature "NODE" and the behaviour branch for "BEHAVIOR". Any other nature falls to the default branch, which neither tracks nor adds the Teamcenter snippet |
| CapellaYaml.SnippetLines | capella_tools/capellambse_yaml_manager.py:42-48 | At most three snippet lines, each starting with the indent |
| CapellaYaml.SnippetShape | capella_tools/capellambse_yaml_manager.py:35-50 | The snippet is "" iff the entry is missing or has no truthy item id, revision id or url. Otherwise it splits on "\n" into exactly its lines, in the order item id, revision id, url, with no trailing newline |
| CapellaYaml.SnippetLinesShape | capella_tools/capellambse_yaml_manager.py:40-46 | Under those conditions, each snippet line is non-empty and holds no newline |
| CapellaYaml.NonBlank | capella_tools/capellambse_yaml_manager.py:54 | The kept lines are exactly the lines that are not whitespace-only, and text without blank lines is kept whole |
| CapellaYaml.YamlContentLines | capella_tools/capellambse_yaml_manager.py:53-56 | The result's lines are exactly the non-blank lines of the text, in order, and the result is "" when there are none |
| CapellaYaml.YamlContentIdempotent | capella_tools/capellambse_yaml_manager.py:53-56 | Removing blank lines twice is the same as removing them once |
| CapellaYaml.Repeat | capella_tools/capellambse_yaml_manager.py:180-187 | The artifact appended once per link, as a list of n copies |
| CapellaYaml.ScanLinksAllPrimary | capella_tools/capellambse_yaml_manager.py:181-187 | When every link of an artifact resolves to a primary element, the artifact is appended once per link, with no duplicate check |
| CapellaYaml.ScanAllPrimary | capella_tools/capellambse_yaml_manager.py:179-187 | When every link resolves to a primary element, each artifact is appended once per link and the pass does not raise |
| CapellaYaml.ScanAppendsArtifacts | capella_tools/capellambse_yaml_manager.py:179-187 | The traceability pass only appends, and only artifacts of the store |
| CapellaYaml.ScanLinksAppend | capella_tools/capellambse_yaml_manager.py:181-187 | The inner loop only appends the artifact it is looking at |
| CapellaYaml.ScanLinksFailed | capella_tools/capellambse_yaml_manager.py:183 | Once `model.by_uuid` has raised, the remaining links do nothing |
| CapellaYaml.ScanArtifactsFailed | capella_tools/capellambse_yaml_manager.py:183 | Once `model.by_uuid` has raised, the remaining artifacts do nothing |
| CapellaYaml.ScanArtifactsConcat | capella_tools/capellambse_yaml_manager.py:180-187 | The pass over two groups of artifacts is the pass over the first followed by the pass over the second |
| CapellaYaml.ScanLinksConcat | capella_tools/capellambse_yaml_manager.py:181-187 | The pass over two groups of links is the pass over the first followed by the pass over the second |
| CapellaYaml.EntireModel | capella_tools/capellambse_yaml_manager.py:71-167 | The collector as intended returns a duplicate-free list holding exactly the elements its 27 loops visit |
| CapellaYaml.EntireModelIsDedup | capella_tools/capellambse_yaml_manager.py:71-167 | The intended collector is deduplication of the visited elements in first-occurrence order |
| CapellaYaml.RunLoopsConcat | capella_tools/capellambse_yaml_manager.py:85-163 | Running two groups of loops is running the first group and then the second, on the same locals |
| CapellaYaml.ModelObjectsConcat | capella_tools/capellambse_yaml_manager.py:85-163 | The elements two groups of loops visit are those of the first group followed by those of the second |
| CapellaYaml.UntouchedLoops | capella_tools/capellambse_yaml_manager.py:85-163 | Loops over empty collections change no local and visit nothing |
| CapellaYaml.LoopsAroundLogical | capella_tools/capellambse_yaml_manager.py:85-163 | For a model whose only collections are the logical capabilities and components, only the two logical-layer loops matter |
| CapellaYaml.OtherLoopsUntouched | capella_tools/capellambse_yaml_manager.py:85-163 | In such a model, every loop before and after the two logical-layer loops walks an empty collection |
| CapellaYaml.TwoLoops | capella_tools/capellambse_yaml_manager.py:121-126 | Two consecutive loops visit the first collection and then the second |
| CapellaYaml.LogicalLoopsStale | capella_tools/capellambse_yaml_manager.py:121-126 | With one capability c and one component k, the component loop adds `obj` (still c) instead of k |
| CapellaYaml.StaleComponentLoop | capella_tools/capellambse_yaml_manager.py:121-126 | As written, a model with one logical capability c and one logical component k gives [c], while the intended collector gives [c, k] |
| CapellaYaml.UnboundObj | capella_tools/capellambse_yaml_manager.py:124-126 | As written, a model whose only element is a logical component raises because `obj` is unbound, while the intended collector returns that component |
| CapellaYaml.PrimaryTailStep | capella_tools/capellambse_yaml_manager.py:1704-1705 | Appending an element that is not primary keeps the gained part of `primary_objects` duplicate-free |
| CapellaYaml.WalkStateStep | capella_tools/capellambse_yaml_manager.py:171-173 | Generating entry `i` when it is not yet primary keeps the walk's lists in shape. The entries up to `i` are primary, the gained references stay fresh, and the newly primary elements are referenced, new and distinct |
| CapellaYaml.CapellaYamlHandler.constructor | capella_tools/capellambse_yaml_manager.py:9-22 | Both lists start empty, the text starts with the YAML header, and the parser is kept |
| CapellaYaml.CapellaYamlHandler.GenerateTeamcenterYamlSnippet | capella_tools/capellambse_yaml_manager.py:24-50 | "" without a parser or without an entry for the uuid; otherwise the entry's lines joined by "\n" |
| CapellaYaml.CapellaYamlHandler.GetYamlContent | capella_tools/capellambse_yaml_manager.py:53-56 | The result's lines are the non-blank lines of `yaml_content`, and none of them is blank |
| CapellaYaml.CapellaYamlHandler.AddEach | capella_tools/capellambse_yaml_manager.py:192-194 | A run of guarded appends to `referenced_objects` |
| CapellaYaml.CapellaYamlHandler.TrackReferencedObjects | capella_tools/capellambse_yaml_manager.py:189-633 | `referenced_objects` becomes `Track` of its old value, and `TrackKeepsNoDup`/`TrackMembers` apply |
| CapellaYaml.CapellaYamlHandler.ApplyRules | capella_tools/capellambse_yaml_manager.py:189-633 | Applying the rules in order appends every visited candidate not yet referenced |
| CapellaYaml.CapellaYamlHandler.ApplySteps | capella_tools/capellambse_yaml_manager.py:191-218 | Running the loops of one rule in order appends every visited candidate not yet referenced |
| CapellaYaml.CapellaYamlHandler.GenerateYaml | capella_tools/capellambse_yaml_manager.py:1704-2484 | The element becomes primary unless it already is. Its branch tracks references when that branch tracks. Exactly one fragment, plus the snippet where the branch adds one, is appended to the text |
| CapellaYaml.CapellaYamlHandler.AppendFragment | capella_tools/capellambse_yaml_manager.py:1704-2484 | Once the element's branch is chosen, the text grows by exactly that element's fragment: the rendered template, then the Teamcenter snippet between newlines where the branch adds one |
| CapellaYaml.CapellaYamlHandler.WalkStep | capella_tools/capellambse_yaml_manager.py:171-173 | One pass of the work-list keeps its invariant: every earlier entry is primary, each newly generated element was referenced, and none was generated twice |
| CapellaYaml.CapellaYamlHandler.FragmentsSnoc | capella_tools/capellambse_yaml_manager.py:171-173 | Generating one more element appends its fragment after the fragments of those generated before it |
| CapellaYaml.CapellaYamlHandler.GenerateYamlReferencedObjects | capella_tools/capellambse_yaml_manager.py:169-173 | The walk ends with every referenced element primary, including those appended during the walk. Each element generated was referenced and not primary before, none was generated twice, and the text grew by their fragments in order |
| CapellaYaml.CapellaYamlHandler.GenerateTraceabilityRelatedObjects | capella_tools/capellambse_yaml_manager.py:175-187 | The referenced list and the raised flag are those of the traceability pass over the store |
| CapellaYaml.CapellaYamlHandler.ScanArtifactLinks | capella_tools/capellambse_yaml_manager.py:181-187 | For one artifact, the referenced list and the raised flag are those of the pass over its links in order. The artifact is appended once per link whose element is referenced or primary, until a lookup raises |
| CapellaYaml.CapellaYamlHandler.GetEntireModel | capella_tools/capellambse_yaml_manager.py:71-167 | The result is the intended collector's list: duplicate-free, with exactly the visited elements |
| CapellaYaml.CapellaYamlHandler.CollectLoops | capella_tools/capellambse_yaml_manager.py:73-163 | The loops with `add_unique_object` give the guarded append of all visited elements to an empty list |
| TcItemRevision.PathJoin | capella_tools/TcItemRevisionParser.py:81 | The joined path ends with the file name |
| TcItemRevision.TrimUrl | capella_tools/TcItemRevisionParser.py:66 | None iff no URL or an empty one is given; otherwise a prefix of the URL without a trailing '/', where everything removed was '/' |
| TcItemRevision.FindCapellaFile | capella_tools/TcItemRevisionParser.py:71-82 | None iff no listed name ends in ".capella"; otherwise the directory joined with the first such name |
| TcItemRevision.MakeItem | capella_tools/TcItemRevisionParser.py:95-105 | The item carries the parent's id and the child's four attributes. Its url is present iff the base URL and tcuid are both truthy, and is then the base URL, the show-object path and the tcuid |
| TcItemRevision.ChildEntriesSource | capella_tools/TcItemRevisionParser.py:93-103 | An entry is built for a parent exactly for each of its `ownedExtensions` children of xsi:type smw:TcItemRevision |
| TcItemRevision.EntriesSource | capella_tools/TcItemRevisionParser.py:92-103 | Every entry comes from a TcItemRevision child of some visited element, and every such child gives one |
| TcItemRevision.RecordAllValid | capella_tools/TcItemRevisionParser.py:106-107 | Recording keeps the dictionary well formed and only adds keys at the end of the insertion order |
| TcItemRevision.RecordAllDomain | capella_tools/TcItemRevisionParser.py:106-107 | A key is present iff it was present before or some entry carries it as a non-empty parent id |
| TcItemRevision.RecordAllLastWins | capella_tools/TcItemRevisionParser.py:106-107 | When several entries share a parent id, the last one is stored |
| TcItemRevision.TcItemRevisionParser.constructor | capella_tools/TcItemRevisionParser.py:54-69 | The URL is trimmed and the .capella file is the first one listed. The items are the recorded entries when a file is found, and empty otherwise |
| TcItemRevision.TcItemRevisionParser.ParseCapellaFile | capella_tools/TcItemRevisionParser.py:84-107 | The nested loops record every entry of the document in visiting order into the dictionary |
| TcItemRevision.TcItemRevisionParser.ParseChildren | capella_tools/TcItemRevisionParser.py:93-107 | The inner loop records each TcItemRevision child of one visited element, in order, after what was recorded before |
| TcItemRevision.TcItemRevisionParser.GetById | capella_tools/TcItemRevisionParser.py:109-119 | The stored entry for the id, or None iff there is none |
| TcItemRevision.TcItemRevisionParser.AllItems | capella_tools/TcItemRevisionParser.py:121-128 | One value per key, and exactly the stored values |
| TcItemRevision.TcItemRevisionParser.FindUuidByTeamcenterKey | capella_tools/TcItemRevisionParser.py:130-144 | None iff no entry matches both ids; otherwise the first key, in insertion order, whose entry matches |
| TcItemRevision.TcItemRevisionParser.FindUuidByTeamcenterString | capella_tools/TcItemRevisionParser.py:146-159 | None without a '/'. Otherwise the key lookup on the two stripped halves around the first '/' |
| N2Diagram.MapOfDomain | capella_tools/N2DiagramGenerator.py:38-44 | A key is in a loop-filled dictionary iff some entry carries it |
| N2Diagram.MapOfLastWins | capella_tools/N2DiagramGenerator.py:38-44 | A later entry with the same key overrides an earlier one |
| N2Diagram.EntityEntry | capella_tools/N2DiagramGenerator.py:39-43 | An object gives an entry iff its type is listed and its uuid and name are truthy; the entry is (uuid, name) |
| N2Diagram.PortEntry | capella_tools/N2DiagramGenerator.py:90-96 | A FunctionInputPort or FunctionOutputPort with a truthy uuid and a dict owner with a truthy name gives (uuid, owner name) |
| N2Diagram.Lookup | capella_tools/N2DiagramGenerator.py:59-60 | `d.get(key)`: present iff the key is given and in the map |
| N2Diagram.ExchangePair | capella_tools/N2DiagramGenerator.py:54-63 | An exchange is recorded iff it has the exchange type and both first endpoint refs resolve to truthy names; the pair is those names |
| N2Diagram.PresentMembers | capella_tools/N2DiagramGenerator.py:61-63 | The recorded pairs are exactly the present ones |
| N2Diagram.EndpointsMembers | capella_tools/N2DiagramGenerator.py:62 | `elements` holds exactly the names at either end of a recorded exchange |
| N2Diagram.SortedLabels | capella_tools/N2DiagramGenerator.py:77 | `sorted(elements)` is strictly ascending and has exactly the endpoint names |
| N2Diagram.LabelsCoverExchanges | capella_tools/N2DiagramGenerator.py:77-82 | Both ends of every recorded exchange are labels |
| N2Diagram.SortedNoDup | capella_tools/N2DiagramGenerator.py:77 | A strictly sorted label list has no repeated label |
| N2Diagram.EmptyMatrix | capella_tools/N2DiagramGenerator.py:79-80 | A size-by-size matrix of empty cells |
| N2Diagram.IndexMap | capella_tools/N2DiagramGenerator.py:78 | The index maps each label, and only labels, to its position |
| N2Diagram.MarkCell | capella_tools/N2DiagramGenerator.py:81-82 | Writing one check mark keeps the matrix that of the exchanges seen so far; a repeated exchange changes nothing |
| N2Diagram.N2DiagramGenerator.constructor | capella_tools/N2DiagramGenerator.py:19-32 | The name is the given one when truthy, else the capitalised mode followed by " Exchange Matrix". The mode is lowered, and labels and matrix start empty |
| N2Diagram.N2DiagramGenerator.ExtractEntityMap | capella_tools/N2DiagramGenerator.py:34-44 | The uuid-to-name map of the listed types; a uuid is a key iff some qualifying object carries it |
| N2Diagram.N2DiagramGenerator.ExtractPortToFunctionMap | capella_tools/N2DiagramGenerator.py:86-97 | The port-to-function map; a uuid is a key iff some qualifying port carries it |
| N2Diagram.N2DiagramGenerator.CollectFunctional | capella_tools/N2DiagramGenerator.py:51-63 | The functional exchanges whose first source and target ports resolve, in object order, with `elements` their endpoints |
| N2Diagram.N2DiagramGenerator.CollectComponent | capella_tools/N2DiagramGenerator.py:65-75 | The ComponentExchanges whose first endpoints resolve in the component map, in object order, with `elements` their endpoints |
| N2Diagram.N2DiagramGenerator.ExtractExchanges | capella_tools/N2DiagramGenerator.py:46-84 | The labels are strictly sorted and are exactly the endpoints of the recorded exchanges. The matrix is square over them, with a check mark exactly at the recorded pairs. Any other mode gives no labels and an empty matrix |
| N2Diagram.N2DiagramGenerator.CheckMarks | capella_tools/N2DiagramGenerator.py:78-82 | The filled matrix is the check-mark matrix of the exchanges over the labels |
| N2Diagram.N2DiagramGenerator.ExcelPath | capella_tools/N2DiagramGenerator.py:112-114 | The given path; otherwise the name with spaces turned into '_' followed by "_n2.xlsx" |
| N2Diagram.N2DiagramGenerator.HtmlPath | capella_tools/N2DiagramGenerator.py:118-120 | The given path when truthy; otherwise the name with spaces turned into '_' followed by "_n2.html" |
| Pub4C.AfterLastHashShape | capella_tools/Pub4C.py:67 | The text after the last '#', or the whole href when it has none; the result holds no '#' and ends the href |
| Pub4C.AfterLastHashSuffix | capella_tools/Pub4C.py:67 | The result holds no '#' and is a suffix of the href |
| Pub4C.AfterLastHashWhole | capella_tools/Pub4C.py:67 | An href without '#' is returned whole |
| Pub4C.AfterLastHashAfterHash | capella_tools/Pub4C.py:67 | For an href with a '#', the result is shorter and directly preceded by a '#' |
| Pub4C.FirstLinkType | capella_tools/Pub4C.py:73-75 | None iff no link type has the id; otherwise the first one that does |
| Pub4C.ModelElementUuid | capella_tools/Pub4C.py:66-70 | None iff there is no `modelObject` child; otherwise the text after the last '#' of its href |
| Pub4C.LinksOf | capella_tools/Pub4C.py:63-78 | One link per readable link element, in file order, each the link that element adds |
| Pub4C.LinksOfSnoc | capella_tools/Pub4C.py:63-78 | One more readable link element adds exactly its link at the end |
| Pub4C.ArtifactOf | capella_tools/Pub4C.py:52-78 | An artifact has one link per `ownedLinks` element, in file order, no property values and the element's id |
| Pub4C.Header | capella_tools/Pub4C.py:52-59 | Before any link is added, the artifact holds the element's title, identifier (as both id and identifier), url and id, with no links or property values |
| Pub4C.LoadedArtifacts | capella_tools/Pub4C.py:50-85 | The artifacts kept are those before the first unreadable element, in order, since its exception ends the load |
| Pub4C.LinkTypesOf | capella_tools/Pub4C.py:43-46 | The link types of a parsed file, in file order; none for a missing or unparsable file |
| Pub4C.ArtifactsOf | capella_tools/Pub4C.py:34-85 | No artifacts when the file is missing, unparsable or has no store |
| Pub4C.TraceabilityArtifact.constructor | capella_tools/Pub4C.py:121-128 | The given name, id and url, no uuid, empty identifier, no links, no property values |
| Pub4C.TraceabilityArtifact.AddLink | capella_tools/Pub4C.py:130-132 | Exactly one link with the given fields is appended, and nothing else changes |
| Pub4C.TraceabilityArtifact.AddLinkFrom | capella_tools/Pub4C.py:64-78 | For a readable link element, exactly its link, with the first link type carrying its type id, is appended |
| Pub4C.TraceabilityArtifact.AddLinks | capella_tools/Pub4C.py:63-78 | Succeeds iff every link element is readable. It then appends their links in file order |
| Pub4C.TraceabilityArtifact.AddPropertyValue | capella_tools/Pub4C.py:147-156 | Succeeds iff the first pair has a non-None value and a unit. It then appends the stripped value and the unit. A missing unit raises after the value has been appended, and any earlier failure changes nothing |
| Pub4C.Values | capella_tools/Pub4C.py:88-90 | The states of the stored artifacts, one per artifact |
| Pub4C.LinkedTo | capella_tools/Pub4C.py:23-27 | The artifacts, in order, that have a link to the model element, and all of them |
| Pub4C.TraceStore.constructor | capella_tools/Pub4C.py:8-12 | The store holds the file's link types and its loaded artifacts |
| Pub4C.TraceStore.LoadData | capella_tools/Pub4C.py:32-85 | Loading gives the file's link types and the artifacts before the first unreadable element |
| Pub4C.TraceStore.ReadArtifact | capella_tools/Pub4C.py:52-78 | A fresh artifact. The element is readable iff all its links are, and then the artifact equals the element's `ArtifactOf` |
| Pub4C.TraceStore.LoadEnds | capella_tools/Pub4C.py:50-85 | Whichever way the load ends, the artifacts kept are exactly the loaded prefix |
| Pub4C.TraceStore.GetArtifactsForModelElement | capella_tools/Pub4C.py:16-27 | In store order, exactly the artifacts that have at least one link to the element |
| Embeddings.SelectConfig | capella_tools/capella_embeddings_manager.py:33-49 | A named entry that is missing or empty in an existing file fails. Otherwise the named entry is used. With no name, no override and an existing file, the entry named by a truthy "_default" is used (empty when absent), and a falsy "_default" gives the empty entry. Without a file, or with an override, the entry is empty |
| Embeddings.FirstUsable | capella_tools/capella_embeddings_manager.py:51-56 | `nonempty(arg) or nonempty(config) or fallback`: the argument when not blank, else the config value when not blank, else the fallback |
| Embeddings.ResolveSettings | capella_tools/capella_embeddings_manager.py:31-56 | Fails exactly when the config selection fails; otherwise each value follows the argument, config, secrets order, skipping blank values |
| Embeddings.BlankArgumentFallsBack | capella_tools/capella_embeddings_manager.py:51-54 | A whitespace-only API key argument is passed over for the secrets value |
| Embeddings.BaseName | capella_tools/capella_embeddings_manager.py:82 | `Path.name` holds no separator |
| Embeddings.DirPart | capella_tools/capella_embeddings_manager.py:138 | The directory part is empty or ends with a separator |
| Embeddings.DirThenName | capella_tools/capella_embeddings_manager.py:138 | A path is its directory part followed by its name |
| Embeddings.SuffixDot | capella_tools/capella_embeddings_manager.py:138 | A suffix is found iff the last '.' of the name is neither its first nor its last character, and then it starts at that dot |
| Embeddings.StemOfName | capella_tools/capella_embeddings_manager.py:82 | The stem is a non-empty prefix of a non-empty name |
| Embeddings.SiblingAsWrittenLosesDottedStem | capella_tools/capella_embeddings_manager.py:138-140 | As written, "dir/m.v2.aird" gives "dir/m.capella"; the corrected derivation gives "dir/m.v2.capella" |
| Embeddings.SiblingsAgreeForPlainStem | capella_tools/capella_embeddings_manager.py:138-140 | For a stem without a dot, the derivation as written and the corrected one agree |
| Embeddings.ReplaceSuffix | capella_tools/capella_embeddings_manager.py:139 | `with_suffix` replaces a proper suffix and keeps the directory and stem |
| Embeddings.StemAt | capella_tools/capella_embeddings_manager.py:82 | The stem of a name is everything before its suffix dot |
| Embeddings.SuffixOfStemPlus | capella_tools/capella_embeddings_manager.py:82 | A stem followed by a proper suffix has that stem and that name |
| Embeddings.SiblingKeepsStem | capella_tools/capella_embeddings_manager.py:138-140 | The corrected sibling keeps the directory and stem of the .aird file and carries the requested suffix |
| Embeddings.WithSuffixShape | capella_tools/capella_embeddings_manager.py:138 | `with_suffix(s)` is the directory part, the stem and `s` |
| Embeddings.BaseNameOfJoin | capella_tools/capella_embeddings_manager.py:82 | The name of a directory joined with a separator-free name is that name |
| Embeddings.ReadEmbeddingFile | capella_tools/capella_embeddings_manager.py:107-120 | A legacy list gives no meta and the list as items. An object gives its meta and its items, which default to empty |
| Embeddings.SavedRoundTrip | capella_tools/capella_embeddings_manager.py:87-120 | Reading back what `save_embeddings` writes gives the saved meta and items |
| Embeddings.Field | capella_tools/capella_embeddings_manager.py:168-177 | `meta.get(key)` is present only for a key holding a value |
| Embeddings.ExpandZulu | capella_tools/capella_embeddings_manager.py:178 | The result holds no 'Z', and text without 'Z' is unchanged |
| Embeddings.ReadJson | capella_tools/capella_embeddings_manager.py:156-160 | A file reads only when it exists |
| Embeddings.LegacyNeverUpToDate | capella_tools/capella_embeddings_manager.py:162-165 | A legacy list file is never considered up to date |
| Embeddings.TouchedModelIsStale | capella_tools/capella_embeddings_manager.py:183-186 | Modifying the .aird file after the recorded creation time makes a fresh file stale |
| Embeddings.SavedFileIsUpToDate | capella_tools/capella_embeddings_manager.py:87-189 | What `save_embeddings` writes is up to date as long as no model file is newer than its timestamp |
| Embeddings.MetadataText | capella_tools/capella_embeddings_manager.py:228-229 | The metadata text holds no newline and is as long as the five fields joined by single spaces |
| Embeddings.MetadataTextSplits | capella_tools/capella_embeddings_manager.py:228-229 | For fields without newlines, the text is the five fields joined by single spaces, and a name without spaces is its first word |
| Embeddings.Uuids | capella_tools/capella_embeddings_manager.py:316 | The uuids of the objects, in order |
| Embeddings.UuidsAppend | capella_tools/capella_embeddings_manager.py:316-317 | Appending an object appends its uuid |
| Embeddings.AddUnique | capella_tools/capella_embeddings_manager.py:315-317 | The object is appended iff no listed object has its uuid (None matching None). Otherwise the list is unchanged. Uuids stay unique |
| Embeddings.AddAllFirstWins | capella_tools/capella_embeddings_manager.py:315-415 | Offering objects one by one keeps exactly one object per offered uuid, and it is the first object offered with that uuid |
| Embeddings.FirstOfferKept | capella_tools/capella_embeddings_manager.py:332-351 | The first object offered with a uuid is kept, so an OA requirement keeps its OA phase when offered again under SA |
| Embeddings.LaterOfferDropped | capella_tools/capella_embeddings_manager.py:349-351 | A later, different object with an already offered uuid is dropped |
| Embeddings.AddUniqueObject | capella_tools/capella_embeddings_manager.py:315-317 | The `any` scan and conditional append compute `AddUnique` |
| Embeddings.CollectUnique | capella_tools/capella_embeddings_manager.py:324-415 | The collected objects are every offer passed through `add_unique_object`, with unique uuids |
| Embeddings.EmbeddingManager.constructor | capella_tools/capella_embeddings_manager.py:54-74 | The chosen key and URL are kept. The model is overridden with "text-embedding-3-small", and the paths, items and meta start empty |
| Embeddings.EmbeddingManager.CapellaModelName | capella_tools/capella_embeddings_manager.py:78-82 | "" without a model file; otherwise the .aird stem |
| Embeddings.EmbeddingManager.SetFiles | capella_tools/capella_embeddings_manager.py:102-105 | Both paths are set and nothing else changes |
| Embeddings.EmbeddingManager.IsEmbeddingUpToDate | capella_tools/capella_embeddings_manager.py:122-189 | True iff both paths are set, all four files exist and the file parses. The meta must be present, name this model and the .aird stem, and carry a parsable creation time no model file is newer than |
| Embeddings.EmbeddingManager.CheckMeta | capella_tools/capella_embeddings_manager.py:162-189 | The meta checks and the loop over the related files decide `MetaCurrent` |
| Embeddings.EmbeddingManager.GetEmbeddingFileInfo | capella_tools/capella_embeddings_manager.py:191-207 | A missing file gives no meta and count 0. A legacy list gives a made-up meta with no time or model. Otherwise the file's meta and its item count |
| Embeddings.EmbeddingManager.LoadEmbeddings | capella_tools/capella_embeddings_manager.py:422-433 | On a file that reads, items and meta follow the same shape rule as `_read_embedding_file`; when reading raises nothing changes |
| Embeddings.EmbeddingManager.GenerateObjectEmbeddings | capella_tools/capella_embeddings_manager.py:225-237 | Every object gets the embedding of its metadata text, in order; the list is stored and returned |
| RagManager.FirstTruthy | capella_tools/Open_AI_RAG_manager.py:60-62 | `arg or config or fallback` with plain truthiness |
| RagManager.ResolveSettings | capella_tools/Open_AI_RAG_manager.py:40-62 | Fails exactly when a named entry is missing; otherwise each value follows the argument, config, secrets order by truthiness |
| RagManager.BlankArgumentKept | capella_tools/Open_AI_RAG_manager.py:60 | A whitespace-only argument is kept here, while the embedding manager passes over it |
| RagManager.SystemPrompt | capella_tools/Open_AI_RAG_manager.py:74 | The system text is the fixed prefix, the YAML and "\n---" |
| RagManager.InitialMessages | capella_tools/Open_AI_RAG_manager.py:68-75 | One system message holding the YAML iff the YAML is non-empty, else none |
| RagManager.PromptText | capella_tools/Open_AI_RAG_manager.py:79 | The HTML request is appended iff the prompt is initial |
| RagManager.AllowedIsCovered | capella_tools/Open_AI_RAG_manager.py:32-35 | The allowed extensions are exactly the text, PDF and DOCX ones, so the empty-content fallback is never taken |
| RagManager.SplitExt | capella_tools/Open_AI_RAG_manager.py:87 | `os.path.splitext` finds an extension iff the last component has a '.' after some character other than '.', and it is then the suffix from the last '.'; otherwise "" |
| RagManager.DotFileHasNoExtension | capella_tools/Open_AI_RAG_manager.py:87 | A dot file such as ".yaml" has no extension, so it is rejected |
| RagManager.PlainNameHasExtension | capella_tools/Open_AI_RAG_manager.py:87 | A name such as "a.yaml" has the extension ".yaml" |
| RagManager.DropPrefix | capella_tools/Open_AI_RAG_manager.py:128-133 | Slicing off a prefix the text starts with, and nothing otherwise |
| RagManager.DropSuffix | capella_tools/Open_AI_RAG_manager.py:130-131 | Slicing off a suffix the text ends with, and nothing otherwise |
| RagManager.HtmlFenceUnwrapped | capella_tools/Open_AI_RAG_manager.py:128-133 | An HTML block between fences comes out as its body |
| RagManager.PythonFenceUnwrapped | capella_tools/Open_AI_RAG_manager.py:128-133 | A Python block between fences comes out as its code |
| RagManager.UnfencedUnchanged | capella_tools/Open_AI_RAG_manager.py:128-133 | A reply without any of the three fences is unchanged |
| RagManager.RemoveFences | capella_tools/Open_AI_RAG_manager.py:218 | `replace("```", "")` never lengthens the text |
| RagManager.RemoveFencesNoFence | capella_tools/Open_AI_RAG_manager.py:218 | No "```" survives the replacement |
| RagManager.SecondAfterBacktick | capella_tools/Open_AI_RAG_manager.py:218 | After a backtick that does not start a fence, the rest never begins with two backticks |
| RagManager.NoFenceSlice | capella_tools/Open_AI_RAG_manager.py:218 | Any slice of fence-free text is fence-free |
| RagManager.StripKeepsNoFence | capella_tools/Open_AI_RAG_manager.py:218 | Stripping fence-free text keeps it fence-free |
| RagManager.LetterRunEnd | capella_tools/Open_AI_RAG_manager.py:217 | The end of the `[a-zA-Z]*` run |
| RagManager.DropFenceHeader | capella_tools/Open_AI_RAG_manager.py:217 | The substitution leaves the text or shortens it |
| RagManager.FenceHeaderDropped | capella_tools/Open_AI_RAG_manager.py:217 | An opening fence line naming a language is dropped whole |
| RagManager.CleanRelationsText | capella_tools/Open_AI_RAG_manager.py:217-218 | The cleaned relation text holds no "```" and has no whitespace at either end |
| RagManager.Endpoints | capella_tools/Open_AI_RAG_manager.py:194-195 | The nodes the relations mention, source before target, in list order |
| RagManager.EndpointsSnoc | capella_tools/Open_AI_RAG_manager.py:194-195 | One more relation adds its two ends at the end |
| RagManager.EdgesOf | capella_tools/Open_AI_RAG_manager.py:194-199 | One edge per relation, in list order, from its source to its target and labelled with its text |
| RagManager.EdgeEndsListed | capella_tools/Open_AI_RAG_manager.py:194-199 | Both ends of every relation are mentioned nodes |
| RagManager.GraphWellFormed | capella_tools/Open_AI_RAG_manager.py:193-199 | The network has no repeated node, and every edge joins two of its nodes |
| RagManager.ChatGPTAnalyzer.constructor | capella_tools/Open_AI_RAG_manager.py:60-75 | The chosen settings are kept, the YAML defaults to "", the chat is active and the messages are the initial ones |
| RagManager.ChatGPTAnalyzer.SubmitPrompt | capella_tools/Open_AI_RAG_manager.py:78-81 | Exactly one user message is appended, with the HTML request iff the prompt is initial |
| RagManager.ChatGPTAnalyzer.InitialPrompt | capella_tools/Open_AI_RAG_manager.py:83 | One user message with the HTML request |
| RagManager.ChatGPTAnalyzer.FollowUpPrompt | capella_tools/Open_AI_RAG_manager.py:84 | One user message, unchanged |
| RagManager.ChatGPTAnalyzer.AddTextFileToMessages | capella_tools/Open_AI_RAG_manager.py:86-108 | A lowered extension outside the allowed set, or a read that raises, is an error that leaves the messages unchanged. Otherwise exactly one user message with the file text is appended |
| RagManager.ChatGPTAnalyzer.GetResponse | capella_tools/Open_AI_RAG_manager.py:110-172 | The raw, unstripped reply is appended before the three fence steps and the clean-up. A failed call appends nothing and returns "Error: type – message". A reply without text is recorded and then ends in the AttributeError message |
| RagManager.ChatGPTAnalyzer.AddNodes | capella_tools/Open_AI_RAG_manager.py:195-198 | The nodes become the first-mention, duplicate-free list of everything seen so far plus the new ends, and the added set stays equal to that list |
| RagManager.ChatGPTAnalyzer.GeneratePyvisGraphFromRelations | capella_tools/Open_AI_RAG_manager.py:177-200 | Each distinct node is added once, at its first mention, and there is exactly one edge per relation with its ends and label |
| CredentialFile.Decode | capella_tools/teamcenter/teamcenter_authentication_manager.py:41-55 | No file raises FileNotFoundError. Text that strips and splits into other than two parts raises ValueError. Otherwise the two parts, which re-encode to the stripped text |
| CredentialFile.RoundTrip | capella_tools/teamcenter/teamcenter_authentication_manager.py:36-55 | Reading back what was written gives the same pair when neither field has a line break, the username has no leading whitespace and the password no trailing whitespace |
| CredentialFile.BlankUsernameRejected | capella_tools/teamcenter/teamcenter_authentication_manager.py:49-53 | A whitespace-only username is stripped away with its newline, so reading back raises ValueError |
| CredentialFile.BlankUsernameStripped | capella_tools/teamcenter/teamcenter_authentication_manager.py:50 | When the username is blank and the password has no newline, stripping the stored text leaves no line break |
| CredentialFile.NewlineInFieldRejected | capella_tools/teamcenter/teamcenter_authentication_manager.py:49-53 | A line break inside a field gives more than two parts, so reading back raises ValueError |
| TeamcenterAuthentication.TeamcenterAuthManager.constructor | capella_tools/teamcenter/teamcenter_authentication_manager.py:21-25 | The manager is attached to the fixed credentials file, whose contents (possibly saved by an earlier session, or absent) are what it stores |
| TeamcenterAuthentication.TeamcenterAuthManager.SetCredentials | capella_tools/teamcenter/teamcenter_authentication_manager.py:27-39 | Writes username + "\n" + password iff both are non-empty; otherwise nothing changes |
| TeamcenterAuthentication.TeamcenterAuthManager.GetCredentials | capella_tools/teamcenter/teamcenter_authentication_manager.py:41-55 | FileNotFoundError when nothing is stored; a returned pair re-encodes to the stripped stored text |
| TeamcenterAuthentication.TeamcenterAuthManager.SetThenGet | capella_tools/teamcenter/teamcenter_authentication_manager.py:27-55 | Setting a well-formed pair and reading it back returns that pair |
| PolarionAuthentication.PolarionAuthManager.constructor | capella_tools/polarion_authentication_manager.py:10-14 | The manager is attached to the fixed credentials file, whose contents (possibly saved by an earlier session, or absent) are what it stores |
| PolarionAuthentication.PolarionAuthManager.SetCredentials | capella_tools/polarion_authentication_manager.py:16-28 | Writes username + "\n" + password iff both are non-empty; otherwise nothing changes |
| PolarionAuthentication.PolarionAuthManager.GetCredentials | capella_tools/polarion_authentication_manager.py:30-44 | FileNotFoundError when nothing is stored; a returned pair re-encodes to the stripped stored text |
| PolarionAuthentication.PolarionAuthManager.SetThenGet | capella_tools/polarion_authentication_manager.py:16-44 | Setting a well-formed pair and reading it back returns that pair |

## Left out

- Jinja template texts and their rendering: `generate_yaml` takes the rendering as a function of the template name and the element.
- `sanitize_description_images`, with its file globbing, base64 decoding and regular expressions, is left out. The descriptions it rewrites are part of what the rendering function sees.
- `write_output_file` and `display` of the YAML handler are file and console output.
- CapellaYaml.CapellaYamlHandler.GenerateYaml: tracks with `Track`, the corrected tracker (see Findings). The tracker as written is `TrackAsWritten`, and `TrackAsWrittenAgrees` shows the two are equal for every class whose rules have no rebinding or link-target loop. The BEHAVIOR rule's loops nested inside its port loop are kept as written in both.
- CapellaYaml.CapellaYamlHandler.GetEntireModel: returns the corrected collector; the stale-variable version is `EntireModelAsWritten`. The `print` of the element count is left out.
- CapellaYaml.CapellaYamlHandler.GenerateTraceabilityRelatedObjects: `model.by_uuid` is a lookup of the uuid among the graph's elements. Its exception is the returned `false`, after which nothing more is appended.
- CapellaYaml.CapellaYamlHandler.GenerateYamlReferencedObjects: the rendering function must not raise. An exception inside a template is not modelled.
- CapellaYaml: a single-valued relation (`owner`, `type`, `abstract_type`, a link's `target`) that is None is modelled as an empty relation, so nothing is appended. The source appends `None` to `referenced_objects` for an untyped ExchangeItemElement or Part or an ownerless element, then `generate_yaml(None)` adds None to `primary_objects` and renders a "NoneType" fragment through the default branch. That extra fragment is not modelled.
- CapellaYaml: the `hasattr(dc, "name") and hasattr(dc, "uuid")` filter on the diagram contents is not modelled. Every graph element has both, so the filter always passes.
- Embeddings.BaseName, Embeddings.DirPart and RagManager.SplitExt: paths are POSIX paths, with '/' as the only separator. Windows drive letters and '\\' separators are not modelled.
- TcItemRevision.FindCapellaFile: `os.listdir(base_dir)` raises when the .aird path has no directory part or the directory cannot be listed. The listing is an input, so that exception is not modelled.
- XML parsing (ElementTree), YAML loading and `os.listdir` are left out. Their results are inputs: parsed elements, the loaded object list and the listing in the order the OS gives it.
- Pub4C.TraceStore.LoadData: the two exception handlers are modelled through the file's shape (absent, unparsable or parsed) and the first unreadable link. `__repr__`, `all_artifacts` and `all_link_types` are plain field reads. The first `add_property_value` is dead code, because the second definition replaces it.
- Pub4C.TraceabilityArtifact.AddPropertyValue: a value that is not a string (so `.strip()` raises) is not modelled; values are strings or None.
- Pandas, matplotlib and the HTML and Excel writers of the N² generator are left out, along with `display_n2_diagram` and `run_all`. The matrix is a sequence of rows, and only the output file names are modelled.
- N2Diagram.N2DiagramGenerator.ExtractExchanges: the `yaml_data.get("model", {}).get("objects", [])` navigation is taken as already done.
- Embeddings.EmbeddingManager.IsEmbeddingUpToDate: derives the .capella and .afm paths with the corrected `Sibling` rather than as written (see Findings). ISO timestamp parsing is a function parameter.
- `save_embeddings` writes a file and reads the clock. It is modelled only through the document it writes (`SavedDocument`, `SavedMeta`) and the lemmas `SavedRoundTrip` and `SavedFileIsUpToDate`. `retrieve_embedding_artifact` only repackages `get_embedding_file_info`.
- `create_model_embeddings` is left out except for its deduplication. The capellambse collections it walks and the per-type `get_*_info` dictionaries are not modelled, and the order of offers is an input to `CollectUnique`.
- The OpenAI client calls, the cosine similarity and its numpy ranking (`find_similar_objects`, `locate_possible_objects`, `query_and_select_top_objects`) are left out. So are BeautifulSoup (a function parameter), `ast.literal_eval`, pyvis rendering, PDF and DOCX extraction (the extracted text is an input), and the Word and CSV writers.
- All ipywidgets and `jupyter_ui_poll` loops, `input()` and `getpass()` prompts, `print` and `display` calls are left out. The prompted values are method parameters.
- RagManager.ChatGPTAnalyzer.GetResponse: token usage display and the hints chosen from the error text are console output only. They are not modelled.
- Text.Lower and Text.Capitalize: only ASCII letters change case, where Python maps all Unicode letters.
- CredentialFile.Decode: text-mode reading is modelled as turning "\r\n" and "\r" into "\n". Encodings and undecodable bytes are not modelled.
- capella_tools/requirement_helper.py, capella_tools/model_configurator.py, Open_AI_key_manager.py, the notebook checkpoint copy of the chat analyzer and setup.py are not part of this model.

## Findings

| source | as written | input that shows it | evidently intended | confidence | as-written member | corrected member |
|---|---|---|---|---|---|---|
| capella_tools/capellambse_yaml_manager.py:338-344 | For OperationalCapability `includes`/`extends`, the guard tests the link, `if this_obj not in self.referenced_objects`, but appends `this_obj.target` | a capability with two include links l1, l2 that both target t, with nothing referenced: `referenced_objects` becomes [t, t] | test and append the target, so it is appended once | high (not executed) | CapellaYaml.IncludeTargetAppendedTwice | CapellaYaml.IncludeTargetAppendedOnce |
| capella_tools/capellambse_yaml_manager.py:124-126 | `for component in model.la.all_components: add_unique_object(object_data, obj)` adds the previous loop's `obj` | a model with one logical capability c and one logical component k: the result is [c]. With no earlier `obj`, UnboundLocalError | add `component` | high (not executed) | CapellaYaml.StaleComponentLoop | CapellaYaml.EntireModelIsDedup |
| capella_tools/capellambse_yaml_manager.py:512-537 | `for obj in obj.exchanges` rebinds `obj`, so the PhysicalLink rule's later loops (and those of the rules checked after it) read the last exchange | a PhysicalLink with one exchange e: its own applied property values are never collected, and e's are collected instead | iterate the exchanges under a fresh name | high (not executed) | CapellaYaml.RebindReadsLastExchange | CapellaYaml.RebindIntendedCollectsLinkValues |
| capella_tools/capella_embeddings_manager.py:138-140 | `Path(aird).with_suffix("")` followed by `.with_suffix(".capella")` strips one suffix too many from a stem that holds a dot | "dir/m.v2.aird" checks "dir/m.capella" and "dir/m.afm" | the .aird file's siblings "dir/m.v2.capella" and "dir/m.v2.afm" | medium (not executed) | Embeddings.SiblingAsWrittenLosesDottedStem | Embeddings.SiblingKeepsStem |
