/**
 * The YAML exporter `CapellaYAMLHandler` (capella_tools/capellambse_yaml_manager.py):
 * the reference tracker, the primary-object bookkeeping of `generate_yaml`, the
 * work-list over referenced objects, the traceability pass, the whole-model
 * collector and the two small text builders. The Capella model is an abstract
 * graph, and Jinja rendering is a function given by the caller.
 */
module CapellaYaml {
  import opened Wrappers
  import opened Text
  import TcItemRevision

  // ------------------------------------------------------------------
  // The Capella model, abstractly

  /** A model element's identity (its uuid); Python's `in` on element lists compares these. */
  type ObjId = string

  /**
   * A model element: its Python class name, its `nature` (read only for
   * PhysicalComponent) and its attributes that hold elements, by name. A
   * single-valued attribute (`owner`, `type`, `abstract_type`, `target`) is a
   * relation with at most one member; an attribute the element lacks is empty.
   */
  datatype Node = Node(tag: string, nature: string, rel: map<string, seq<ObjId>>)

  type Graph = map<ObjId, Node>

  /** Every element some relation of the graph points to. */
  ghost function Mentioned(g: Graph): set<ObjId> {
    set y, name, x | y in g && name in g[y].rel && x in g[y].rel[name] :: x
  }

  /** The class name of `x`; an identifier without a node has no recognised class. */
  function Tag(g: Graph, x: ObjId): string {
    if x in g then g[x].tag else ""
  }

  function Nature(g: Graph, x: ObjId): string {
    if x in g then g[x].nature else ""
  }

  /** `x.<name>`: the members of one relation, in the model's order. */
  function Rel(g: Graph, x: ObjId, name: string): (r: seq<ObjId>)
    ensures forall y :: y in r ==> y in Mentioned(g)
  {
    if x in g && name in g[x].rel then
      var r := g[x].rel[name];
      assert forall y :: y in r ==> y in Mentioned(g) by {
        forall y | y in r ensures y in Mentioned(g) {
          assert x in g && name in g[x].rel && y in g[x].rel[name];
        }
      }
      r
    else []
  }

  /** The set of elements of a list. */
  ghost function Elems(s: seq<ObjId>): set<ObjId> {
    set x | x in s
  }

  // ------------------------------------------------------------------
  // The guarded append `if x not in lst: lst.append(x)`

  function Add(refs: seq<ObjId>, x: ObjId): seq<ObjId> {
    if x in refs then refs else refs + [x]
  }

  /** The guarded append applied to each of `xs` in turn: only grows the list, by members of `xs`. */
  function AddAll(refs: seq<ObjId>, xs: seq<ObjId>): (r: seq<ObjId>)
    ensures refs <= r
    ensures forall y :: y in r <==> y in refs || y in xs
  {
    if xs == [] then refs
    else
      var x := xs[|xs| - 1];
      assert xs == xs[..|xs| - 1] + [x];
      Add(AddAll(refs, xs[..|xs| - 1]), x)
  }

  /** The guarded append never introduces a duplicate. */
  lemma {:induction false} AddAllKeepsNoDup(refs: seq<ObjId>, xs: seq<ObjId>)
    requires NoDup(refs)
    ensures NoDup(AddAll(refs, xs))
  {
    if xs != [] {
      var r := AddAll(refs, xs[..|xs| - 1]);
      AddAllKeepsNoDup(refs, xs[..|xs| - 1]);
      if xs[|xs| - 1] !in r {
        NoDupAppend(r, xs[|xs| - 1]);
      }
    }
  }

  /** Appending the candidates in two batches is appending them in one. */
  lemma {:induction false} AddAllConcat(refs: seq<ObjId>, a: seq<ObjId>, b: seq<ObjId>)
    ensures AddAll(refs, a + b) == AddAll(AddAll(refs, a), b)
  {
    if b == [] {
      assert a + b == a;
    } else {
      var b0 := b[..|b| - 1];
      assert (a + b)[..|a + b| - 1] == a + b0;
      assert (a + b)[|a + b| - 1] == b[|b| - 1];
      AddAllConcat(refs, a, b0);
    }
  }

  /** From an empty list the guarded append is deduplication in first-occurrence order. */
  lemma {:induction false} AddAllIsDedup(xs: seq<ObjId>)
    ensures AddAll([], xs) == Dedup(xs)
  {
    if xs != [] {
      AddAllIsDedup(xs[..|xs| - 1]);
      DedupSnoc(xs[..|xs| - 1], xs[|xs| - 1]);
      assert xs == xs[..|xs| - 1] + [xs[|xs| - 1]];
    }
  }

  /** The kept elements appear in the order of their first occurrence among the candidates. */
  lemma {:induction false} AddAllFirstOccurrenceOrder(xs: seq<ObjId>, i: nat, j: nat)
    requires i < j < |AddAll([], xs)|
    ensures AddAll([], xs)[i] in xs && AddAll([], xs)[j] in xs
    ensures FirstIndex(xs, AddAll([], xs)[i]) < FirstIndex(xs, AddAll([], xs)[j])
  {
    var r := AddAll([], xs);
    assert r[i] in r && r[j] in r;
    var init := xs[..|xs| - 1];
    var x := xs[|xs| - 1];
    var r0 := AddAll([], init);
    assert xs == init + [x];
    if j < |r0| {
      assert r[i] == r0[i] && r[j] == r0[j];
      AddAllFirstOccurrenceOrder(init, i, j);
      FirstIndexAppend(init, x, r0[i]);
      FirstIndexAppend(init, x, r0[j]);
    } else {
      assert r == r0 + [x] && r[j] == x && x !in init;
      var fx := FirstIndex(xs, x);
      assert fx == |init|;
      assert r[i] == r0[i] && r0[i] in r0;
      FirstIndexAppend(init, x, r0[i]);
    }
  }

  // ------------------------------------------------------------------
  // The rule table of `_track_referenced_objects`

  /**
   * One loop of a tracking rule, acting on the element `obj` the rule looks at.
   * `Members(rel, addSelf, subs, own)`: `for x in obj.rel:` append `x` when
   * `addSelf`, then every member of `x.s` for each `s` in `subs`, then every member
   * of `obj.o` for each `o` in `own` (the loops the BEHAVIOR rule nests inside its
   * port loop). `Rebind(rel)`: `for obj in obj.rel:` appending each, which leaves
   * `obj` bound to the last member. `LinkTargets(rel)`: `for l in obj.rel: if l
   * not in refs: refs.append(l.target)`.
   */
  datatype Step =
    | Members(rel: string, addSelf: bool, subs: seq<string>, own: seq<string>)
    | Rebind(rel: string)
    | LinkTargets(rel: string)

  function Each(rel: string): Step {
    Members(rel, true, [], [])
  }

  function Nested(rel: string, sub: string): Step {
    Members(rel, true, [sub], [])
  }

  /** A rule: the class names it applies to, the `nature` it requires, if any, and its loops in order. */
  datatype Rule = Rule(tags: seq<string>, nature: Option<string>, steps: seq<Step>)

  predicate Keyed(g: Graph, x: ObjId, tags: seq<string>, nature: Option<string>) {
    Tag(g, x) in tags && (nature.None? || Nature(g, x) == nature.value)
  }

  predicate Matches(g: Graph, x: ObjId, r: Rule) {
    Keyed(g, x, r.tags, r.nature)
  }

  const PropertySteps: seq<Step> :=
    [Each("applied_property_value_groups"), Each("applied_property_values"), Each("constraints")]

  const GroupSteps: seq<Step> := [Each("property_value_groups"), Each("property_values")]

  /** The 24 rules, in the order the source tests them (lines 191-633). */
  const Rules: seq<Rule> := [
    Rule(["LogicalComponent", "SystemComponent"], None,
      [Each("components"), Nested("ports", "exchanges"), Each("allocated_functions"),
       Nested("applied_property_value_groups", "property_values"), Each("applied_property_values"),
       Each("constraints"), Each("state_machines")]),
    Rule(["Entity"], None,
      [Each("entities"), Each("activities"), Nested("applied_property_value_groups", "property_values"),
       Each("applied_property_values"), Each("constraints"), Each("state_machines")]),
    Rule(["PhysicalComponent"], Some("NODE"),
      [Each("deployed_components"), Each("components"), Nested("physical_ports", "links")] + PropertySteps),
    Rule(["PhysicalComponent"], Some("BEHAVIOR"),
      [Each("deployed_components"), Each("components"),
       Members("ports", true, ["exchanges"],
         ["allocated_functions", "applied_property_value_groups", "applied_property_values", "constraints"])]),
    Rule(["Requirement"], None, [Each("relations")]),
    Rule(["LogicalFunction", "SystemFunction", "PhysicalFunction"], None,
      [Each("owner"), Nested("inputs", "exchanges"), Nested("outputs", "exchanges")] + PropertySteps),
    Rule(["OperationalActivity"], None, [Each("owner"), Each("inputs"), Each("outputs")] + PropertySteps),
    Rule(["OperationalCapability"], None,
      [LinkTargets("includes"), LinkTargets("extends"), Each("involved_entities"),
       Each("involved_activities"), Each("involved_processes")] + PropertySteps),
    Rule(["FunctionalChain", "OperationalProcess"], None, [Each("involved")] + PropertySteps),
    Rule(["StateTransition"], None, [Each("effects"), Each("triggers")] + PropertySteps),
    Rule(["State"], None,
      [Each("outgoing_transitions"), Each("incoming_transitions"), Each("do_activity"),
       Each("entries"), Each("exits")] + PropertySteps),
    Rule(["InitialPseudoState"], None, [Each("outgoing_transitions")] + PropertySteps),
    Rule(["StateMachine"], None, [Members("regions", false, ["states", "transitions"], [])] + PropertySteps),
    Rule(["PropertyValueGroup"], None, PropertySteps + GroupSteps),
    Rule(["FunctionalExchange"], None, [Each("exchange_items")] + PropertySteps + GroupSteps),
    Rule(["Interaction"], None, [Each("exchange_items")] + PropertySteps + GroupSteps),
    Rule(["PhysicalLink"], None, [Rebind("exchanges"), Each("physical_paths")] + PropertySteps + GroupSteps),
    Rule(["PhysicalPath"], None, [Each("involved_items"), Rebind("exchanges")] + PropertySteps + GroupSteps),
    Rule(["ComponentExchange"], None,
      [Each("exchange_items"), Each("allocated_functional_exchanges")] + PropertySteps + GroupSteps),
    Rule(["ExchangeItem"], None, [Each("elements")] + PropertySteps + GroupSteps),
    Rule(["ExchangeItemElement"], None, [Each("abstract_type")] + PropertySteps + GroupSteps),
    Rule(["Diagram"], None, [Each("nodes")]),
    Rule(["Part"], None, [Each("type")]),
    Rule(["FunctionInputPort", "FunctionOutputPort", "PhysicalPort", "ComponentPort"], None, [Each("owner")])
  ]

  // ------------------------------------------------------------------
  // The candidates a rule visits, with each loop doing what it evidently means

  /** The members of `y.n` for each `n` of `names`, in order. */
  function RelsOf(g: Graph, y: ObjId, names: seq<string>): (r: seq<ObjId>)
    ensures forall z :: z in r ==> z in Mentioned(g)
  {
    if names == [] then [] else RelsOf(g, y, names[..|names| - 1]) + Rel(g, y, names[|names| - 1])
  }

  /** What one pass of a `Members` loop visits for the member `x` of `cur`. */
  function Piece(g: Graph, cur: ObjId, s: Step, x: ObjId): seq<ObjId>
    requires s.Members?
  {
    (if s.addSelf then [x] else []) + RelsOf(g, x, s.subs) + RelsOf(g, cur, s.own)
  }

  /** What a `Members` loop visits over the members `xs`, in order. */
  function MembersCands(g: Graph, cur: ObjId, s: Step, xs: seq<ObjId>): (r: seq<ObjId>)
    requires s.Members?
    requires forall x :: x in xs ==> x in Mentioned(g)
    ensures forall z :: z in r ==> z in Mentioned(g)
  {
    if xs == [] then []
    else MembersCands(g, cur, s, xs[..|xs| - 1]) + Piece(g, cur, s, xs[|xs| - 1])
  }

  /**
   * The intended reading of a loop: `Rebind` iterates under a fresh name, and
   * `LinkTargets` tests the target it appends, so both are plain `Members` loops.
   */
  function Intended(s: Step): (t: Step)
    ensures t.Members?
    ensures s.Members? ==> t == s
  {
    match s
    case Members(_, _, _, _) => s
    case Rebind(r) => Each(r)
    case LinkTargets(r) => Members(r, false, ["target"], [])
  }

  function StepCands(g: Graph, x: ObjId, s: Step): (r: seq<ObjId>)
    ensures forall z :: z in r ==> z in Mentioned(g)
  {
    var t := Intended(s);
    MembersCands(g, x, t, Rel(g, x, t.rel))
  }

  function StepsCands(g: Graph, x: ObjId, steps: seq<Step>): (r: seq<ObjId>)
    ensures forall z :: z in r ==> z in Mentioned(g)
  {
    if steps == [] then []
    else StepsCands(g, x, steps[..|steps| - 1]) + StepCands(g, x, steps[|steps| - 1])
  }

  /** Everything the rules that apply to `x` visit, in the order they visit it. */
  function RulesCands(g: Graph, x: ObjId, rules: seq<Rule>): (r: seq<ObjId>)
    ensures forall z :: z in r ==> z in Mentioned(g)
  {
    if rules == [] then []
    else
      var last := rules[|rules| - 1];
      RulesCands(g, x, rules[..|rules| - 1]) + (if Matches(g, x, last) then StepsCands(g, x, last.steps) else [])
  }

  /**
   * `_track_referenced_objects(x)` with its loops read as intended: every visited
   * element not yet referenced is appended once, in visiting order. The list only
   * grows, and only by elements the graph points to.
   */
  function Track(g: Graph, refs: seq<ObjId>, x: ObjId): (r: seq<ObjId>)
    ensures refs <= r
    ensures forall y :: y in r ==> y in refs || y in Mentioned(g)
  {
    AddAll(refs, RulesCands(g, x, Rules))
  }

  /** Tracking keeps `referenced_objects` free of duplicates. */
  lemma TrackKeepsNoDup(g: Graph, refs: seq<ObjId>, x: ObjId)
    requires NoDup(refs)
    ensures NoDup(Track(g, refs, x))
  {
    AddAllKeepsNoDup(refs, RulesCands(g, x, Rules));
  }

  /** An element is referenced afterwards iff it was before or some applicable loop visits it. */
  lemma TrackMembers(g: Graph, refs: seq<ObjId>, x: ObjId, y: ObjId)
    ensures y in Track(g, refs, x) <==> y in refs || y in RulesCands(g, x, Rules)
  {
  }

  // ------------------------------------------------------------------
  // The tracker as written

  /** The tracker's state: the list so far and the element Python's `obj` names now. */
  datatype TrackState = TrackState(refs: seq<ObjId>, cur: ObjId)

  /** `for l in links: if l not in refs: refs.append(l.target)`: the test is on the link. */
  function TargetsAsWritten(g: Graph, refs: seq<ObjId>, links: seq<ObjId>): seq<ObjId> {
    if links == [] then refs
    else
      var r := TargetsAsWritten(g, refs, links[..|links| - 1]);
      var l := links[|links| - 1];
      if l in r then r else r + Rel(g, l, "target")
  }

  function StepAsWritten(g: Graph, st: TrackState, s: Step): TrackState {
    match s
    case Members(rel, _, _, _) =>
      TrackState(AddAll(st.refs, MembersCands(g, st.cur, s, Rel(g, st.cur, rel))), st.cur)
    case Rebind(rel) =>
      var xs := Rel(g, st.cur, rel);
      TrackState(AddAll(st.refs, xs), if xs == [] then st.cur else xs[|xs| - 1])
    case LinkTargets(rel) =>
      TrackState(TargetsAsWritten(g, st.refs, Rel(g, st.cur, rel)), st.cur)
  }

  function StepsAsWritten(g: Graph, st: TrackState, steps: seq<Step>): TrackState {
    if steps == [] then st
    else StepAsWritten(g, StepsAsWritten(g, st, steps[..|steps| - 1]), steps[|steps| - 1])
  }

  /** Each rule tests the class of whatever `obj` names after the rules before it. */
  function RulesAsWritten(g: Graph, st: TrackState, rules: seq<Rule>): TrackState {
    if rules == [] then st
    else
      var s := RulesAsWritten(g, st, rules[..|rules| - 1]);
      var last := rules[|rules| - 1];
      if Matches(g, s.cur, last) then StepsAsWritten(g, s, last.steps) else s
  }

  /** `_track_referenced_objects(x)` exactly as the source runs it. */
  function TrackAsWritten(g: Graph, refs: seq<ObjId>, x: ObjId): seq<ObjId> {
    RulesAsWritten(g, TrackState(refs, x), Rules).refs
  }

  /** Loops that are all plain `Members` loops. */
  predicate PlainSteps(steps: seq<Step>) {
    forall k :: 0 <= k < |steps| ==> steps[k].Members?
  }

  lemma {:induction false} StepsAsWrittenPlain(g: Graph, st: TrackState, steps: seq<Step>)
    requires PlainSteps(steps)
    ensures StepsAsWritten(g, st, steps) == TrackState(AddAll(st.refs, StepsCands(g, st.cur, steps)), st.cur)
  {
    if steps != [] {
      var init := steps[..|steps| - 1];
      assert PlainSteps(init) by {
        forall k | 0 <= k < |init| ensures init[k].Members? { assert init[k] == steps[k]; }
      }
      StepsAsWrittenPlain(g, st, init);
      AddAllConcat(st.refs, StepsCands(g, st.cur, init), StepCands(g, st.cur, steps[|steps| - 1]));
    }
  }

  lemma {:induction false} RulesAsWrittenPlain(g: Graph, refs: seq<ObjId>, x: ObjId, rules: seq<Rule>)
    requires forall k :: 0 <= k < |rules| && Matches(g, x, rules[k]) ==> PlainSteps(rules[k].steps)
    ensures RulesAsWritten(g, TrackState(refs, x), rules) == TrackState(AddAll(refs, RulesCands(g, x, rules)), x)
  {
    if rules != [] {
      var init := rules[..|rules| - 1];
      var last := rules[|rules| - 1];
      assert forall k :: 0 <= k < |init| ==> init[k] == rules[k];
      RulesAsWrittenPlain(g, refs, x, init);
      LastRulePlain(g, refs, x, RulesCands(g, x, init), last);
    }
  }

  lemma LastRulePlain(g: Graph, refs: seq<ObjId>, x: ObjId, c: seq<ObjId>, last: Rule)
    requires Matches(g, x, last) ==> PlainSteps(last.steps)
    ensures (var s := TrackState(AddAll(refs, c), x);
             if Matches(g, x, last) then StepsAsWritten(g, s, last.steps) else s)
      == TrackState(AddAll(refs, c + (if Matches(g, x, last) then StepsCands(g, x, last.steps) else [])), x)
  {
    if Matches(g, x, last) {
      StepsAsWrittenPlain(g, TrackState(AddAll(refs, c), x), last.steps);
      AddAllConcat(refs, c, StepsCands(g, x, last.steps));
    } else {
      assert c + [] == c;
    }
  }

  /**
   * For an element whose applicable rules have no rebinding loop and no link-target
   * loop (every class but OperationalCapability, PhysicalLink and PhysicalPath, as
   * far as the table goes), the source's tracker and the intended one agree.
   */
  lemma TrackAsWrittenAgrees(g: Graph, refs: seq<ObjId>, x: ObjId)
    requires forall k :: 0 <= k < |Rules| && Matches(g, x, Rules[k]) ==> PlainSteps(Rules[k].steps)
    ensures TrackAsWritten(g, refs, x) == Track(g, refs, x)
  {
    RulesAsWrittenPlain(g, refs, x, Rules);
  }

  /**
   * Lines 339-341 test whether the include LINK is referenced but append its
   * TARGET: two include links of a capability to one target append that target
   * twice.
   */
  lemma IncludeTargetAppendedTwice(g: Graph, refs: seq<ObjId>, cap: ObjId, l1: ObjId, l2: ObjId, t: ObjId)
    requires Rel(g, cap, "includes") == [l1, l2]
    requires Rel(g, l1, "target") == [t] && Rel(g, l2, "target") == [t]
    requires l1 !in refs && l2 !in refs && l1 != t && l2 != t
    ensures StepAsWritten(g, TrackState(refs, cap), LinkTargets("includes")).refs == refs + [t, t]
    ensures !NoDup(refs + [t, t])
  {
    var links := [l1, l2];
    assert links[..1] == [l1];
    assert [l1][..0] == [];
    assert TargetsAsWritten(g, refs, [l1]) == refs + [t];
    assert (refs + [t, t])[|refs|] == (refs + [t, t])[|refs| + 1];
  }

  /** Read as intended, the same two include links append their common target once. */
  lemma IncludeTargetAppendedOnce(g: Graph, refs: seq<ObjId>, cap: ObjId, l1: ObjId, l2: ObjId, t: ObjId)
    requires Rel(g, cap, "includes") == [l1, l2]
    requires Rel(g, l1, "target") == [t] && Rel(g, l2, "target") == [t]
    requires t !in refs
    ensures AddAll(refs, StepCands(g, cap, LinkTargets("includes"))) == refs + [t]
  {
    var m := Members("includes", false, ["target"], []);
    assert ["target"][..0] == [];
    assert RelsOf(g, l1, ["target"]) == [t];
    assert RelsOf(g, l2, ["target"]) == [t];
    assert [l1, l2][..1] == [l1];
    assert [l1][..0] == [];
    assert MembersCands(g, cap, m, [l1]) == [t];
    assert MembersCands(g, cap, m, [l1, l2]) == [t, t];
    assert [t, t][..1] == [t];
    assert [t][..0] == [];
    assert Intended(LinkTargets("includes")) == m;
    assert StepCands(g, cap, LinkTargets("includes")) == [t, t];
    assert AddAll(refs, [t]) == refs + [t];
  }

  /**
   * Lines 514 and 542 iterate with `for obj in obj.exchanges`, so the loops after
   * it read the last exchange's attributes instead of the link's: a link with the
   * single exchange `e` collects `e` and `e`'s property values, and the link is no
   * longer the element the later loops look at. Read as intended, the link's own
   * property values are collected.
   */
  lemma RebindReadsLastExchange(g: Graph, refs: seq<ObjId>, link: ObjId, e: ObjId)
    requires Rel(g, link, "exchanges") == [e]
    ensures StepsAsWritten(g, TrackState(refs, link), [Rebind("exchanges"), Each("applied_property_values")])
      == TrackState(AddAll(refs, [e] + Rel(g, e, "applied_property_values")), e)
    ensures StepsCands(g, link, [Rebind("exchanges"), Each("applied_property_values")])
      == [e] + Rel(g, link, "applied_property_values")
  {
    var steps := [Rebind("exchanges"), Each("applied_property_values")];
    assert steps[..1] == [Rebind("exchanges")];
    assert [Rebind("exchanges")][..0] == [];
    assert StepsAsWritten(g, TrackState(refs, link), steps[..1]) == TrackState(AddAll(refs, [e]), e);
    var pv := Rel(g, e, "applied_property_values");
    MembersCandsOfEach(g, e, "applied_property_values", pv);
    AddAllConcat(refs, [e], pv);
    var lp := Rel(g, link, "applied_property_values");
    MembersCandsOfEach(g, link, "exchanges", [e]);
    MembersCandsOfEach(g, link, "applied_property_values", lp);
    assert StepsCands(g, link, steps[..1]) == [e];
  }

  /**
   * Read as intended, the same two loops over a link with the single exchange
   * `e` reference `e` and every property value applied to the link itself.
   */
  lemma RebindIntendedCollectsLinkValues(g: Graph, refs: seq<ObjId>, link: ObjId, e: ObjId)
    requires Rel(g, link, "exchanges") == [e]
    ensures var r := AddAll(refs, StepsCands(g, link, [Rebind("exchanges"), Each("applied_property_values")]));
            e in r && forall v :: v in Rel(g, link, "applied_property_values") ==> v in r
  {
    RebindReadsLastExchange(g, refs, link, e);
  }

  /** A plain `for x in obj.rel: append x` visits exactly the members. */
  lemma {:induction false} MembersCandsOfEach(g: Graph, cur: ObjId, rel: string, xs: seq<ObjId>)
    requires forall x :: x in xs ==> x in Mentioned(g)
    ensures MembersCands(g, cur, Each(rel), xs) == xs
  {
    if xs != [] {
      MembersCandsOfEach(g, cur, rel, xs[..|xs| - 1]);
      assert xs == xs[..|xs| - 1] + [xs[|xs| - 1]];
    }
  }

  // ------------------------------------------------------------------
  // The dispatch of `generate_yaml`

  /**
   * One branch of `generate_yaml`'s if/elif chain: the class names it handles,
   * the `nature` it requires, the template it renders, whether it calls
   * `_track_referenced_objects`, and whether it appends the Teamcenter snippet.
   */
  datatype Branch = Branch(tags: seq<string>, nature: Option<string>, template: string, tracks: bool, snippet: bool)

  /** The branches before the physical components (lines 1706-2063). */
  const BranchesBefore: seq<Branch> := [
    Branch(["LogicalComponent", "SystemComponent"], None, "logical_component_template", true, true),
    Branch(["Entity"], None, "entity_template", true, true),
    Branch(["FunctionalChain", "OperationalProcess"], None, "functional_chain_template", true, true),
    Branch(["SystemFunction", "LogicalFunction", "PhysicalFunction"], None, "function_template", true, true),
    Branch(["OperationalActivity"], None, "activity_template", true, true),
    Branch(["OperationalCapability"], None, "oc_template", true, true),
    Branch(["Interaction"], None, "interaction_template", true, true),
    Branch(["FunctionalExchange"], None, "function_exchange_template", true, true),
    Branch(["ComponentExchange"], None, "component_exchange_template", true, true),
    Branch(["CommunicationMean"], None, "communication_mean_template", true, true),
    Branch(["PhysicalLink"], None, "physical_link_template", true, true),
    Branch(["PhysicalPath"], None, "physicalpath_template", true, true)
  ]

  /** Lines 2067-2098: a PhysicalComponent of nature NODE. */
  const NodeBranch := Branch(["PhysicalComponent"], Some("NODE"), "node_component_template", true, true)

  /** Lines 2102-2130: a PhysicalComponent of nature BEHAVIOR. */
  const BehaviorBranch := Branch(["PhysicalComponent"], Some("BEHAVIOR"), "logical_component_template", true, true)

  /** The branches after the physical components (lines 2134-2458). */
  const BranchesAfter: seq<Branch> := [
    Branch(["FunctionInputPort", "FunctionOutputPort", "PhysicalPort", "ComponentPort"], None, "port_template", true, true),
    Branch(["StringPropertyValue", "FloatPropertyValue"], None, "property_value_template", true, false),
    Branch(["PropertyValueGroup"], None, "property_value_group_template", true, true),
    Branch(["StateMachine"], None, "state_machine_template", true, false),
    Branch(["State"], None, "state_template", true, false),
    Branch(["InitialPseudoState"], None, "psusdo_state_template", true, false),
    Branch(["StateTransition"], None, "transition_template", true, false),
    Branch(["ExchangeItem"], None, "exchangeitem_template", true, true),
    Branch(["ExchangeItemElement"], None, "exchangeitemelement_template", true, false),
    Branch(["Traceability_Artifact"], None, "Traceability_artifact", false, false),
    Branch(["Diagram"], None, "diagram", true, false),
    Branch(["Part"], None, "part", true, false),
    Branch(["Requirement"], None, "Requirement_template", true, true),
    Branch(["CapellaOutgoingRelation"], None, "CapellaOutgoingRelation_template", true, false)
  ]

  /** The branches in source order. */
  const Branches: seq<Branch> := BranchesBefore + [NodeBranch, BehaviorBranch] + BranchesAfter

  /** The final `else` (lines 2460-2484): default properties only, no tracking, no snippet. */
  const DefaultBranch := Branch([], None, "default_template", false, false)

  predicate Selects(g: Graph, x: ObjId, b: Branch) {
    Keyed(g, x, b.tags, b.nature)
  }

  /** The first branch of `bs` that handles `x`, or the default branch when none does. */
  function FirstBranch(g: Graph, x: ObjId, bs: seq<Branch>): Branch {
    if bs == [] then DefaultBranch
    else if Selects(g, x, bs[0]) then bs[0]
    else FirstBranch(g, x, bs[1..])
  }

  /**
   * The chain falls through to the default branch exactly when no branch
   * handles `x`; otherwise it takes the earliest branch that does.
   */
  lemma {:induction false} FirstBranchSpec(g: Graph, x: ObjId, bs: seq<Branch>)
    ensures FirstBranch(g, x, bs) == DefaultBranch <==> forall k :: 0 <= k < |bs| ==> !Selects(g, x, bs[k])
    ensures FirstBranch(g, x, bs) != DefaultBranch ==>
      exists k :: 0 <= k < |bs| && bs[k] == FirstBranch(g, x, bs) && Selects(g, x, bs[k])
        && forall j :: 0 <= j < k ==> !Selects(g, x, bs[j])
  {
    if bs != [] {
      if Selects(g, x, bs[0]) {
        assert bs[0].tags != [];
      } else {
        FirstBranchSpec(g, x, bs[1..]);
        var b := FirstBranch(g, x, bs[1..]);
        assert forall k :: 1 <= k < |bs| ==> bs[k] == bs[1..][k - 1];
        if b != DefaultBranch {
          var k :| 0 <= k < |bs[1..]| && bs[1..][k] == b && Selects(g, x, b)
            && forall j :: 0 <= j < k ==> !Selects(g, x, bs[1..][j]);
          assert bs[k + 1] == b;
        }
      }
    }
  }

  function Dispatch(g: Graph, x: ObjId): Branch {
    FirstBranch(g, x, Branches)
  }

  /** The branch chosen is the first one that handles `x`. */
  lemma FirstBranchAt(g: Graph, x: ObjId, bs: seq<Branch>, n: nat)
    requires n < |bs| && Selects(g, x, bs[n])
    requires forall j :: 0 <= j < n ==> !Selects(g, x, bs[j])
    ensures FirstBranch(g, x, bs) == bs[n]
  {
    FirstBranchSpec(g, x, bs);
    var b := FirstBranch(g, x, bs);
    var k :| 0 <= k < |bs| && bs[k] == b && Selects(g, x, b) && forall j :: 0 <= j < k ==> !Selects(g, x, bs[j]);
    assert !(k < n) && !(n < k);
  }

  /** The other branches do not handle PhysicalComponent. */
  lemma OnlyPhysicalBranches(g: Graph, x: ObjId)
    requires Tag(g, x) == "PhysicalComponent"
    ensures forall k :: 0 <= k < |BranchesBefore| ==> !Selects(g, x, BranchesBefore[k])
    ensures forall k :: 0 <= k < |BranchesAfter| ==> !Selects(g, x, BranchesAfter[k])
  {
    forall k | 0 <= k < |BranchesBefore| ensures !Selects(g, x, BranchesBefore[k]) {
      assert "PhysicalComponent" !in BranchesBefore[k].tags;
    }
    forall k | 0 <= k < |BranchesAfter| ensures !Selects(g, x, BranchesAfter[k]) {
      assert "PhysicalComponent" !in BranchesAfter[k].tags;
    }
  }

  /**
   * A PhysicalComponent is rendered as a node when its nature is "NODE", as a
   * behaviour component when it is "BEHAVIOR", and with the default branch
   * otherwise, which neither tracks references nor adds the Teamcenter snippet.
   */
  lemma PhysicalComponentByNature(g: Graph, x: ObjId)
    requires Tag(g, x) == "PhysicalComponent"
    ensures Nature(g, x) == "NODE" ==> Dispatch(g, x) == NodeBranch
    ensures Nature(g, x) == "BEHAVIOR" ==> Dispatch(g, x) == BehaviorBranch
    ensures Nature(g, x) != "NODE" && Nature(g, x) != "BEHAVIOR" ==>
      Dispatch(g, x) == DefaultBranch && !Dispatch(g, x).tracks && !Dispatch(g, x).snippet
  {
    OnlyPhysicalBranches(g, x);
    var n := |BranchesBefore|;
    assert forall j :: 0 <= j < n ==> Branches[j] == BranchesBefore[j];
    assert Branches[n] == NodeBranch && Branches[n + 1] == BehaviorBranch;
    assert forall j :: n + 2 <= j < |Branches| ==> Branches[j] == BranchesAfter[j - n - 2];
    if Nature(g, x) == "NODE" {
      FirstBranchAt(g, x, Branches, n);
    } else if Nature(g, x) == "BEHAVIOR" {
      FirstBranchAt(g, x, Branches, n + 1);
    } else {
      assert forall j :: 0 <= j < |Branches| ==> !Selects(g, x, Branches[j]);
      FirstBranchSpec(g, x, Branches);
    }
  }

  // ------------------------------------------------------------------
  // `generate_teamcenter_yaml_snippet` and `get_yaml_content`

  /** The indentation every call site of the snippet uses. */
  const SnippetIndent := "      "

  /** The snippet's lines: item id, revision id and url, in that order, each only when truthy. */
  function SnippetLines(item: TcItemRevision.TcItem, indent: string): (lines: seq<string>)
    ensures |lines| <= 3
    ensures forall k :: 0 <= k < |lines| ==> StartsWith(lines[k], indent)
  {
    (if Truthy(item.itemId) then [indent + "teamcenter item id: " + item.itemId.value] else [])
    + (if Truthy(item.revisionId) then [indent + "teamcenter revision id: " + item.revisionId.value] else [])
    + (if Truthy(item.url) then [indent + "teamcenter url: " + item.url.value] else [])
  }

  /** The snippet for a looked-up entry: nothing for a missing one, else its lines joined by "\n". */
  function TeamcenterSnippetOf(item: Option<TcItemRevision.TcItem>, indent: string): string {
    if item.None? then "" else Join("\n", SnippetLines(item.value, indent))
  }

  /**
   * The snippet is empty exactly when the entry is missing or has none of the
   * three fields; otherwise, when the fields and the indent hold no newline, it
   * splits on "\n" into exactly its lines, so it ends without a newline.
   */
  lemma SnippetShape(item: Option<TcItemRevision.TcItem>, indent: string)
    requires '\n' !in indent
    requires item.Some? ==> forall o :: o in [item.value.itemId, item.value.revisionId, item.value.url] && o.Some? ==> '\n' !in o.value
    ensures TeamcenterSnippetOf(item, indent) == "" <==>
      item.None? || (!Truthy(item.value.itemId) && !Truthy(item.value.revisionId) && !Truthy(item.value.url))
    ensures item.Some? && SnippetLines(item.value, indent) != [] ==>
      Split(TeamcenterSnippetOf(item, indent), '\n') == SnippetLines(item.value, indent)
  {
    if item.Some? {
      var it := item.value;
      var lines := SnippetLines(it, indent);
      SnippetLinesShape(it, indent);
      if lines != [] {
        SplitJoin(lines, '\n');
        assert Join("\n", lines) != [] by {
          if |lines| > 1 { assert |Join("\n", lines)| >= |lines[0]|; }
        }
      }
    }
  }

  /** Each snippet line is a labelled field on one line, so none is empty and none holds a newline. */
  lemma SnippetLinesShape(it: TcItemRevision.TcItem, indent: string)
    requires '\n' !in indent
    requires forall o :: o in [it.itemId, it.revisionId, it.url] && o.Some? ==> '\n' !in o.value
    ensures forall k :: 0 <= k < |SnippetLines(it, indent)| ==>
      SnippetLines(it, indent)[k] != [] && '\n' !in SnippetLines(it, indent)[k]
  {
    var lines := SnippetLines(it, indent);
    assert Truthy(it.itemId) ==> '\n' !in indent + "teamcenter item id: " + it.itemId.value;
    assert Truthy(it.revisionId) ==> '\n' !in indent + "teamcenter revision id: " + it.revisionId.value;
    assert Truthy(it.url) ==> '\n' !in indent + "teamcenter url: " + it.url.value;
    assert forall k :: 0 <= k < |lines| ==> |lines[k]| >= 15;
  }

  /** The lines that `line.strip()` keeps: the non-blank ones, in order. */
  function NonBlank(lines: seq<string>): (r: seq<string>)
    ensures forall k :: 0 <= k < |r| ==> !IsBlank(r[k])
    ensures forall x :: x in r <==> x in lines && !IsBlank(x)
    ensures (forall k :: 0 <= k < |lines| ==> !IsBlank(lines[k])) ==> r == lines
  {
    if lines == [] then []
    else
      var init := lines[..|lines| - 1];
      var x := lines[|lines| - 1];
      assert lines == init + [x];
      NonBlank(init) + (if IsBlank(x) then [] else [x])
  }

  /** `get_yaml_content`: the accumulated text without whitespace-only lines, joined by "\n". */
  function YamlContentOf(text: string): string {
    Join("\n", NonBlank(SplitLines(text)))
  }

  /**
   * The result's lines are exactly the non-blank lines of the text, in order
   * (and there are none when the result is empty); no line of it is blank.
   */
  lemma YamlContentLines(text: string)
    ensures NonBlank(SplitLines(text)) == [] ==> YamlContentOf(text) == ""
    ensures NonBlank(SplitLines(text)) != [] ==> SplitLines(YamlContentOf(text)) == NonBlank(SplitLines(text))
  {
    var kept := NonBlank(SplitLines(text));
    if kept != [] {
      assert kept[|kept| - 1] in kept;
      assert forall k :: 0 <= k < |kept| ==> NoLineBreak(kept[k]) by {
        forall k | 0 <= k < |kept| ensures NoLineBreak(kept[k]) {
          assert kept[k] in SplitLines(text);
        }
      }
      SplitLinesJoin(kept);
    }
  }

  /** Removing blank lines twice is removing them once. */
  lemma YamlContentIdempotent(text: string)
    ensures YamlContentOf(YamlContentOf(text)) == YamlContentOf(text)
  {
    YamlContentLines(text);
    var kept := NonBlank(SplitLines(text));
    if kept == [] {
      assert SplitLines("") == [];
    }
  }

  /** The header `__init__` starts `yaml_content` with (lines 14-22). */
  const Header := "\n---  \n# YAML file for system model relationships\nmodel:\n  schema:\n"
    + "    primary_uuid: Unique identifier for the primary object\n"
    + "    ref_uuid: Unique identifier for a referenced object\n  objects:\n"

  // ------------------------------------------------------------------
  // `generate_traceability_related_objects`

  /** An artifact of the traceability store: its identity and, per link in order, the linked element's uuid. */
  datatype StoredArtifact = StoredArtifact(id: ObjId, linkUuids: seq<Option<string>>)

  /** The pass's state: the referenced list and whether `model.by_uuid` has not raised yet. */
  datatype Scan = Scan(refs: seq<ObjId>, ok: bool)

  /**
   * One link: `model.by_uuid` raises for a missing or unknown uuid, and the
   * artifact is appended, without a membership test, when the element is
   * referenced or primary.
   */
  function ScanLink(g: Graph, primary: seq<ObjId>, s: Scan, art: ObjId, u: Option<string>): Scan {
    if !s.ok then s
    else if u.None? || u.value !in g then Scan(s.refs, false)
    else if u.value in s.refs || u.value in primary then Scan(s.refs + [art], true)
    else s
  }

  function ScanLinks(g: Graph, primary: seq<ObjId>, s: Scan, art: ObjId, us: seq<Option<string>>): Scan {
    if us == [] then s
    else ScanLink(g, primary, ScanLinks(g, primary, s, art, us[..|us| - 1]), art, us[|us| - 1])
  }

  function ScanArtifacts(g: Graph, primary: seq<ObjId>, s: Scan, store: seq<StoredArtifact>): Scan {
    if store == [] then s
    else
      var last := store[|store| - 1];
      ScanLinks(g, primary, ScanArtifacts(g, primary, s, store[..|store| - 1]), last.id, last.linkUuids)
  }

  /** `n` copies of `x`. */
  function Repeat(x: ObjId, n: nat): (r: seq<ObjId>)
    ensures |r| == n && forall k :: 0 <= k < n ==> r[k] == x
  {
    if n == 0 then [] else Repeat(x, n - 1) + [x]
  }

  /** Each artifact once per link, in store order. */
  function PerLink(store: seq<StoredArtifact>): seq<ObjId> {
    if store == [] then []
    else
      var last := store[|store| - 1];
      PerLink(store[..|store| - 1]) + Repeat(last.id, |last.linkUuids|)
  }

  /** A uuid that resolves to an element already primary. */
  predicate LinksPrimary(g: Graph, primary: seq<ObjId>, u: Option<string>) {
    u.Some? && u.value in g && u.value in primary
  }

  lemma {:induction false} ScanLinksAllPrimary(g: Graph, primary: seq<ObjId>, refs: seq<ObjId>, art: ObjId, us: seq<Option<string>>)
    requires forall k :: 0 <= k < |us| ==> LinksPrimary(g, primary, us[k])
    ensures ScanLinks(g, primary, Scan(refs, true), art, us) == Scan(refs + Repeat(art, |us|), true)
  {
    if us != [] {
      ScanLinksAllPrimary(g, primary, refs, art, us[..|us| - 1]);
      assert LinksPrimary(g, primary, us[|us| - 1]);
      assert refs + Repeat(art, |us| - 1) + [art] == refs + Repeat(art, |us|);
    }
  }

  /**
   * When every link points to a primary element, the pass appends each artifact
   * once per link, with no duplicate check, and does not raise.
   */
  lemma {:induction false} ScanAllPrimary(g: Graph, primary: seq<ObjId>, refs: seq<ObjId>, store: seq<StoredArtifact>)
    requires forall i, k :: 0 <= i < |store| && 0 <= k < |store[i].linkUuids| ==> LinksPrimary(g, primary, store[i].linkUuids[k])
    ensures ScanArtifacts(g, primary, Scan(refs, true), store) == Scan(refs + PerLink(store), true)
  {
    if store != [] {
      var init := store[..|store| - 1];
      var last := store[|store| - 1];
      ScanAllPrimary(g, primary, refs, init);
      ScanLinksAllPrimary(g, primary, refs + PerLink(init), last.id, last.linkUuids);
      assert refs + PerLink(init) + Repeat(last.id, |last.linkUuids|) == refs + PerLink(store);
    }
  }

  /** The pass only appends, and only artifacts of the store. */
  lemma {:induction false} ScanAppendsArtifacts(g: Graph, primary: seq<ObjId>, s: Scan, store: seq<StoredArtifact>)
    ensures s.refs <= ScanArtifacts(g, primary, s, store).refs
    ensures forall y :: y in ScanArtifacts(g, primary, s, store).refs ==>
      y in s.refs || exists i :: 0 <= i < |store| && store[i].id == y
  {
    if store != [] {
      var init := store[..|store| - 1];
      var last := store[|store| - 1];
      ScanAppendsArtifacts(g, primary, s, init);
      ScanLinksAppend(g, primary, ScanArtifacts(g, primary, s, init), last.id, last.linkUuids);
      forall y | y in ScanArtifacts(g, primary, s, store).refs
        ensures y in s.refs || exists i :: 0 <= i < |store| && store[i].id == y
      {
        if y != last.id {
          assert y in ScanArtifacts(g, primary, s, init).refs;
          if y !in s.refs {
            var i :| 0 <= i < |init| && init[i].id == y;
            assert store[i].id == y;
          }
        }
      }
    }
  }

  lemma {:induction false} ScanLinksAppend(g: Graph, primary: seq<ObjId>, s: Scan, art: ObjId, us: seq<Option<string>>)
    ensures s.refs <= ScanLinks(g, primary, s, art, us).refs
    ensures forall y :: y in ScanLinks(g, primary, s, art, us).refs ==> y in s.refs || y == art
  {
    if us != [] {
      ScanLinksAppend(g, primary, s, art, us[..|us| - 1]);
    }
  }

  // ------------------------------------------------------------------
  // `get_entire_model`

  /** The two loop variables of `get_entire_model`. */
  datatype LoopVar = ComponentVar | ObjVar

  /** `for <bound> in model.<collection>: add_unique_object(object_data, <appended>)`. */
  datatype Loop = Loop(collection: string, bound: LoopVar, appended: LoopVar)

  /** The loops before the logical layer's capabilities (lines 85-117). */
  const LoopsBefore: seq<Loop> := [
    Loop("oa.all_entities", ComponentVar, ComponentVar),
    Loop("oa.all_activities", ObjVar, ObjVar),
    Loop("oa.all_capabilities", ObjVar, ObjVar),
    Loop("oa.all_entity_exchanges", ObjVar, ObjVar),
    Loop("oa.all_processes", ObjVar, ObjVar),
    Loop("sa.all_components", ComponentVar, ComponentVar),
    Loop("sa.all_capabilities", ObjVar, ObjVar),
    Loop("sa.all_function_exchanges", ObjVar, ObjVar),
    Loop("sa.all_functions", ObjVar, ObjVar),
    Loop("sa.all_missions", ObjVar, ObjVar),
    Loop("sa.all_functional_chains", ObjVar, ObjVar)
  ]

  /** Lines 121-122: `for obj in model.la.all_capabilities`. */
  const LaCapabilities := Loop("la.all_capabilities", ObjVar, ObjVar)

  /** Lines 124-125: `for component in model.la.all_components`, which adds `obj`. */
  const LaComponents := Loop("la.all_components", ComponentVar, ObjVar)

  /** The loops after the logical layer's components (lines 127-163). */
  const LoopsAfter: seq<Loop> := [
    Loop("la.all_functions", ObjVar, ObjVar),
    Loop("la.all_functional_chains", ObjVar, ObjVar),
    Loop("la.all_interfaces", ObjVar, ObjVar),
    Loop("la.component_exchanges", ObjVar, ObjVar),
    Loop("la.actor_exchanges", ObjVar, ObjVar),
    Loop("pa.all_components", ComponentVar, ComponentVar),
    Loop("pa.all_functions", ObjVar, ObjVar),
    Loop("pa.all_functional_chains", ObjVar, ObjVar),
    Loop("pa.all_capabilities", ObjVar, ObjVar),
    Loop("pa.all_component_exchanges", ObjVar, ObjVar),
    Loop("pa.all_physical_exchanges", ObjVar, ObjVar),
    Loop("pa.all_physical_links", ObjVar, ObjVar),
    Loop("pa.all_physical_paths", ObjVar, ObjVar),
    Loop("pa.all_physical_exchanges", ObjVar, ObjVar)
  ]

  /** The 27 loops in source order. */
  const EntireModelLoops: seq<Loop> := LoopsBefore + [LaCapabilities, LaComponents] + LoopsAfter

  /** The model's element collections, by attribute path; a missing one is empty. */
  type ModelLists = map<string, seq<ObjId>>

  function Collection(m: ModelLists, name: string): seq<ObjId> {
    if name in m then m[name] else []
  }

  /** The locals of `get_entire_model`; `unbound` records the UnboundLocalError of reading an unset `obj`. */
  datatype Locals = Locals(data: seq<ObjId>, component: Option<ObjId>, obj: Option<ObjId>, unbound: bool)

  /** One iteration: bind the loop variable, then add whatever the appended variable names. */
  function Visit(st: Locals, l: Loop, x: ObjId): Locals {
    if st.unbound then st
    else
      var b := if l.bound == ComponentVar then st.(component := Some(x)) else st.(obj := Some(x));
      var v := if l.appended == ComponentVar then b.component else b.obj;
      if v.None? then b.(unbound := true) else b.(data := Add(b.data, v.value))
  }

  function VisitAll(st: Locals, l: Loop, xs: seq<ObjId>): Locals {
    if xs == [] then st else Visit(VisitAll(st, l, xs[..|xs| - 1]), l, xs[|xs| - 1])
  }

  function RunLoops(m: ModelLists, st: Locals, loops: seq<Loop>): Locals {
    if loops == [] then st
    else
      var l := loops[|loops| - 1];
      VisitAll(RunLoops(m, st, loops[..|loops| - 1]), l, Collection(m, l.collection))
  }

  /** `get_entire_model` as written: the collected list, or the error reading `obj` before any loop set it. */
  function EntireModelAsWritten(m: ModelLists): Result<seq<ObjId>, string> {
    var st := RunLoops(m, Locals([], None, None, false), EntireModelLoops);
    if st.unbound then Failure("UnboundLocalError") else Success(st.data)
  }

  /** Every element the loops visit, in order. */
  function ModelObjects(m: ModelLists, loops: seq<Loop>): seq<ObjId> {
    if loops == [] then []
    else ModelObjects(m, loops[..|loops| - 1]) + Collection(m, loops[|loops| - 1].collection)
  }

  /**
   * `get_entire_model` as intended, every loop adding its own element: the
   * visited elements without duplicates, in order of first occurrence.
   */
  function EntireModel(m: ModelLists): (r: seq<ObjId>)
    ensures NoDup(r)
    ensures forall y :: y in r <==> y in ModelObjects(m, EntireModelLoops)
  {
    AddAllKeepsNoDup([], ModelObjects(m, EntireModelLoops));
    AddAll([], ModelObjects(m, EntireModelLoops))
  }

  /** The intended collector is standard deduplication of the visited elements. */
  lemma EntireModelIsDedup(m: ModelLists)
    ensures EntireModel(m) == Dedup(ModelObjects(m, EntireModelLoops))
  {
    AddAllIsDedup(ModelObjects(m, EntireModelLoops));
  }

  /** None of the loops' collections holds an element. */
  predicate Untouched(m: ModelLists, loops: seq<Loop>) {
    forall k :: 0 <= k < |loops| ==> Collection(m, loops[k].collection) == []
  }

  lemma {:induction false} RunLoopsConcat(m: ModelLists, st: Locals, a: seq<Loop>, b: seq<Loop>)
    ensures RunLoops(m, st, a + b) == RunLoops(m, RunLoops(m, st, a), b)
  {
    if b != [] {
      assert (a + b)[..|a + b| - 1] == a + b[..|b| - 1];
      RunLoopsConcat(m, st, a, b[..|b| - 1]);
    } else {
      assert a + b == a;
    }
  }

  lemma {:induction false} ModelObjectsConcat(m: ModelLists, a: seq<Loop>, b: seq<Loop>)
    ensures ModelObjects(m, a + b) == ModelObjects(m, a) + ModelObjects(m, b)
  {
    if b != [] {
      assert (a + b)[..|a + b| - 1] == a + b[..|b| - 1];
      ModelObjectsConcat(m, a, b[..|b| - 1]);
    } else {
      assert a + b == a;
    }
  }

  /** Loops over empty collections change nothing and visit nothing. */
  lemma {:induction false} UntouchedLoops(m: ModelLists, st: Locals, loops: seq<Loop>)
    requires Untouched(m, loops)
    ensures RunLoops(m, st, loops) == st
    ensures ModelObjects(m, loops) == []
  {
    if loops != [] {
      UntouchedLoops(m, st, loops[..|loops| - 1]);
      assert Collection(m, loops[|loops| - 1].collection) == [];
    }
  }

  /** The loops around the two logical-layer ones visit nothing in such a model. */
  lemma OtherLoopsUntouched(m: ModelLists)
    requires forall name :: name in m ==> name == "la.all_capabilities" || name == "la.all_components"
    ensures Untouched(m, LoopsBefore) && Untouched(m, LoopsAfter)
  {
    forall k | 0 <= k < |LoopsBefore| ensures Collection(m, LoopsBefore[k].collection) == [] {
      assert LoopsBefore[k].collection !in m;
    }
    forall k | 0 <= k < |LoopsAfter| ensures Collection(m, LoopsAfter[k].collection) == [] {
      assert LoopsAfter[k].collection !in m;
    }
  }

  /** Only the two logical-layer loops matter for a model holding nothing but those two collections. */
  lemma LoopsAroundLogical(m: ModelLists, st: Locals)
    requires forall name :: name in m ==> name == "la.all_capabilities" || name == "la.all_components"
    ensures RunLoops(m, st, EntireModelLoops) == RunLoops(m, st, [LaCapabilities, LaComponents])
    ensures ModelObjects(m, EntireModelLoops) == ModelObjects(m, [LaCapabilities, LaComponents])
  {
    var mid := [LaCapabilities, LaComponents];
    OtherLoopsUntouched(m);
    RunLoopsConcat(m, st, LoopsBefore + mid, LoopsAfter);
    RunLoopsConcat(m, st, LoopsBefore, mid);
    ModelObjectsConcat(m, LoopsBefore + mid, LoopsAfter);
    ModelObjectsConcat(m, LoopsBefore, mid);
    UntouchedLoops(m, st, LoopsBefore);
    UntouchedLoops(m, RunLoops(m, st, mid), LoopsAfter);
  }

  /** Two loops, one after the other. */
  lemma TwoLoops(m: ModelLists, st: Locals, a: Loop, b: Loop)
    ensures RunLoops(m, st, [a, b]) == VisitAll(VisitAll(st, a, Collection(m, a.collection)), b, Collection(m, b.collection))
    ensures ModelObjects(m, [a, b]) == Collection(m, a.collection) + Collection(m, b.collection)
  {
    assert [a, b][..1] == [a];
    assert [a][..0] == [];
    assert RunLoops(m, st, [a]) == VisitAll(st, a, Collection(m, a.collection));
    assert ModelObjects(m, [a]) == Collection(m, a.collection);
  }

  /** The two logical-layer loops on one capability `c` and one component `k`: `c` is added twice over. */
  lemma LogicalLoopsStale(st: Locals, c: ObjId, k: ObjId)
    requires st == Locals([], None, None, false)
    ensures VisitAll(VisitAll(st, LaCapabilities, [c]), LaComponents, [k]) == Locals([c], Some(k), Some(c), false)
  {
    assert VisitAll(st, LaCapabilities, [c]) == Locals([c], None, Some(c), false);
  }

  /**
   * Lines 124-125 loop over `la.all_components` but add `obj`, still bound to the
   * last logical capability: with one capability `c` and one logical component
   * `k`, the component is missing from the result, while the intended collector
   * returns both.
   */
  lemma StaleComponentLoop(m: ModelLists, c: ObjId, k: ObjId)
    requires m == map["la.all_capabilities" := [c], "la.all_components" := [k]]
    requires c != k
    ensures EntireModelAsWritten(m) == Success([c])
    ensures EntireModel(m) == [c, k]
  {
    var st := Locals([], None, None, false);
    assert Collection(m, LaCapabilities.collection) == [c];
    assert Collection(m, LaComponents.collection) == [k];
    LoopsAroundLogical(m, st);
    TwoLoops(m, st, LaCapabilities, LaComponents);
    LogicalLoopsStale(st, c, k);
    assert RunLoops(m, st, EntireModelLoops) == Locals([c], Some(k), Some(c), false);
    assert ModelObjects(m, EntireModelLoops) == [c, k];
    assert AddAll([], [c, k]) == [c, k] by {
      AddAllConcat([], [c], [k]);
      assert [c] + [k] == [c, k];
      assert AddAll([], [c]) == [c];
      assert AddAll([c], [k]) == Add([c], k);
    }
  }

  /**
   * With no earlier loop binding `obj`, the `la.all_components` loop reads it
   * unset and the call raises, where the intended collector returns the component.
   */
  lemma UnboundObj(m: ModelLists, k: ObjId)
    requires m == map["la.all_components" := [k]]
    ensures EntireModelAsWritten(m).Failure?
    ensures EntireModel(m) == [k]
  {
    var st := Locals([], None, None, false);
    assert Collection(m, LaCapabilities.collection) == [];
    assert Collection(m, LaComponents.collection) == [k];
    LoopsAroundLogical(m, st);
    TwoLoops(m, st, LaCapabilities, LaComponents);
    assert VisitAll(st, LaCapabilities, []) == st;
    assert VisitAll(st, LaComponents, [k]).unbound;
    assert ModelObjects(m, EntireModelLoops) == [k];
    assert AddAll([], [k]) == [k];
  }

  // ------------------------------------------------------------------
  // Facts the handler's loops rely on

  /** The guarded append only adds elements that were absent, each once. */
  lemma {:induction false} AddAllFresh(refs: seq<ObjId>, xs: seq<ObjId>)
    ensures NoDup(AddAll(refs, xs)[|refs|..])
    ensures forall y :: y in AddAll(refs, xs)[|refs|..] ==> y !in refs
  {
    if xs != [] {
      var init := AddAll(refs, xs[..|xs| - 1]);
      var x := xs[|xs| - 1];
      AddAllFresh(refs, xs[..|xs| - 1]);
      if x !in init {
        var d := init[|refs|..];
        assert AddAll(refs, xs)[|refs|..] == d + [x];
        assert x !in d;
        NoDupAppend(d, x);
      }
    }
  }

  lemma NoDupConcat(a: seq<ObjId>, b: seq<ObjId>)
    requires NoDup(a) && NoDup(b)
    requires forall y :: y in b ==> y !in a
    ensures NoDup(a + b)
  {
    forall i, j | 0 <= i < j < |a + b| ensures (a + b)[i] != (a + b)[j] {
      if i < |a| && j >= |a| {
        assert (a + b)[j] == b[j - |a|] && b[j - |a|] in b;
        assert (a + b)[i] == a[i];
      } else if i >= |a| {
        assert (a + b)[i] == b[i - |a|] && (a + b)[j] == b[j - |a|];
      }
    }
  }

  /** A duplicate-free list drawn from a set is no longer than the set. */
  lemma NoDupBound(s: seq<ObjId>, u: set<ObjId>)
    requires NoDup(s)
    requires forall y :: y in s ==> y in u
    ensures |s| <= |u|
  {
    NoDupCard(s);
    var e := set y | y in s;
    assert e <= u;
    assert |u| == |e| + |u - e| by {
      assert u == e + (u - e);
    }
  }

  /** Once `by_uuid` has raised, the rest of the pass does nothing. */
  lemma {:induction false} ScanLinksFailed(g: Graph, primary: seq<ObjId>, refs: seq<ObjId>, art: ObjId, us: seq<Option<string>>)
    ensures ScanLinks(g, primary, Scan(refs, false), art, us) == Scan(refs, false)
  {
    if us != [] {
      ScanLinksFailed(g, primary, refs, art, us[..|us| - 1]);
    }
  }

  lemma {:induction false} ScanArtifactsFailed(g: Graph, primary: seq<ObjId>, refs: seq<ObjId>, store: seq<StoredArtifact>)
    ensures ScanArtifacts(g, primary, Scan(refs, false), store) == Scan(refs, false)
  {
    if store != [] {
      ScanArtifactsFailed(g, primary, refs, store[..|store| - 1]);
      ScanLinksFailed(g, primary, refs, store[|store| - 1].id, store[|store| - 1].linkUuids);
    }
  }

  lemma {:induction false} ScanArtifactsConcat(g: Graph, primary: seq<ObjId>, s: Scan, a: seq<StoredArtifact>, b: seq<StoredArtifact>)
    ensures ScanArtifacts(g, primary, s, a + b) == ScanArtifacts(g, primary, ScanArtifacts(g, primary, s, a), b)
  {
    if b != [] {
      assert (a + b)[..|a + b| - 1] == a + b[..|b| - 1];
      ScanArtifactsConcat(g, primary, s, a, b[..|b| - 1]);
    } else {
      assert a + b == a;
    }
  }

  lemma {:induction false} ScanLinksConcat(g: Graph, primary: seq<ObjId>, s: Scan, art: ObjId, a: seq<Option<string>>, b: seq<Option<string>>)
    ensures ScanLinks(g, primary, s, art, a + b) == ScanLinks(g, primary, ScanLinks(g, primary, s, art, a), art, b)
  {
    if b != [] {
      assert (a + b)[..|a + b| - 1] == a + b[..|b| - 1];
      ScanLinksConcat(g, primary, s, art, a, b[..|b| - 1]);
    } else {
      assert a + b == a;
    }
  }




  /** What the referenced list gained since `refs0`: duplicate-free, drawn from the graph, and new. */
  ghost predicate FreshTail(g: Graph, refs0: seq<ObjId>, refs: seq<ObjId>) {
    refs0 <= refs && NoDup(refs[|refs0|..])
      && forall y :: y in refs[|refs0|..] ==> y in Mentioned(g) && y !in refs0
  }

  /** Tracking keeps the gained part fresh. */
  lemma TrackFreshTail(g: Graph, refs0: seq<ObjId>, refs: seq<ObjId>, x: ObjId)
    requires FreshTail(g, refs0, refs)
    ensures FreshTail(g, refs0, Track(g, refs, x))
    ensures |refs| - |refs0| <= |Mentioned(g)|
  {
    AddAllFresh(refs, RulesCands(g, x, Rules));
    var t := Track(g, refs, x);
    var d := t[|refs|..];
    assert t == refs + d;
    assert t[|refs0|..] == refs[|refs0|..] + d;
    NoDupConcat(refs[|refs0|..], d);
    NoDupBound(refs[|refs0|..], Mentioned(g));
  }

  /** One more primary element that was not primary before. */
  lemma PrimaryTailStep(prim0: seq<ObjId>, prim: seq<ObjId>, r: ObjId)
    requires prim0 <= prim && NoDup(prim[|prim0|..]) && r !in prim
    ensures prim0 <= prim + [r]
    ensures (prim + [r])[|prim0|..] == prim[|prim0|..] + [r]
    ensures NoDup((prim + [r])[|prim0|..])
  {
    assert (prim + [r])[|prim0|..] == prim[|prim0|..] + [r];
    NoDupAppend(prim[|prim0|..], r);
  }

  /**
   * The two lists during `generate_yaml_referenced_objects` after its first
   * `i` entries, started from `refs0` and `prim0`.
   */
  ghost predicate WalkState(g: Graph, i: nat, refs0: seq<ObjId>, prim0: seq<ObjId>, refs: seq<ObjId>, prim: seq<ObjId>) {
    i <= |refs|
    && FreshTail(g, refs0, refs)
    && prim0 <= prim && NoDup(prim[|prim0|..])
    && (forall k :: 0 <= k < i ==> refs[k] in prim)
    && (forall y :: y in prim[|prim0|..] ==> y in refs && y !in prim0)
  }

  /** Generating entry `i`, not yet primary, keeps the walk's lists in shape. */
  lemma WalkStateStep(g: Graph, i: nat, refs0: seq<ObjId>, prim0: seq<ObjId>, refs: seq<ObjId>, prim: seq<ObjId>)
    requires WalkState(g, i, refs0, prim0, refs, prim) && i < |refs| && refs[i] !in prim
    ensures WalkState(g, i + 1, refs0, prim0,
      if Dispatch(g, refs[i]).tracks then Track(g, refs, refs[i]) else refs, prim + [refs[i]])
    ensures (prim + [refs[i]])[|prim0|..] == prim[|prim0|..] + [refs[i]]
  {
    var r := refs[i];
    PrimaryTailStep(prim0, prim, r);
    if Dispatch(g, r).tracks {
      TrackFreshTail(g, refs0, refs, r);
    }
    var refs1 := if Dispatch(g, r).tracks then Track(g, refs, r) else refs;
    assert refs <= refs1;
    forall k | 0 <= k < i + 1 ensures refs1[k] in prim + [r] {
      assert refs1[k] == refs[k];
    }
  }

  // ------------------------------------------------------------------
  // The handler

  /** `CapellaYAMLHandler`: the lists of primary and referenced elements and the accumulated YAML text. */
  class CapellaYamlHandler {
    var referencedObjects: seq<ObjId>
    var primaryObjects: seq<ObjId>
    var yamlContent: string
    /** `self.parser`, a Teamcenter parser or None. */
    const parser: TcItemRevision.TcItemRevisionParser?

    /** `__init__`: empty lists and the header. */
    constructor (parser: TcItemRevision.TcItemRevisionParser?)
      ensures this.parser == parser
      ensures referencedObjects == [] && primaryObjects == [] && yamlContent == Header
    {
      this.parser := parser;
      referencedObjects := [];
      primaryObjects := [];
      yamlContent := Header;
    }

    /**
     * `generate_teamcenter_yaml_snippet`: nothing without a parser or without an
     * entry for `uuid`; otherwise the entry's truthy fields, one line each.
     */
    function GenerateTeamcenterYamlSnippet(uuid: ObjId, indent: string): (r: string)
      reads parser
      ensures parser == null || uuid !in parser.items ==> r == ""
      ensures parser != null && uuid in parser.items ==> r == Join("\n", SnippetLines(parser.items[uuid], indent))
    {
      if parser == null then "" else TeamcenterSnippetOf(parser.GetById(uuid), indent)
    }

    /** `get_yaml_content`: the non-blank lines of the accumulated text. */
    function GetYamlContent(): (r: string)
      reads this
      ensures NonBlank(SplitLines(yamlContent)) == [] ==> r == ""
      ensures NonBlank(SplitLines(yamlContent)) != [] ==> SplitLines(r) == NonBlank(SplitLines(yamlContent))
      ensures forall line :: line in SplitLines(r) ==> !IsBlank(line)
    {
      YamlContentLines(yamlContent);
      YamlContentOf(yamlContent)
    }

    /** What `generate_yaml(x)` appends to the text: the rendered template, and the snippet where its branch adds one. */
    function Fragment(g: Graph, x: ObjId, render: (string, ObjId) -> string): string
      reads parser
    {
      var b := Dispatch(g, x);
      render(b.template, x) + (if b.snippet then "\n" + GenerateTeamcenterYamlSnippet(x, SnippetIndent) + "\n" else "")
    }

    function Fragments(g: Graph, xs: seq<ObjId>, render: (string, ObjId) -> string): string
      reads parser
    {
      if xs == [] then "" else Fragments(g, xs[..|xs| - 1], render) + Fragment(g, xs[|xs| - 1], render)
    }

    /** A run of `if e not in self.referenced_objects: self.referenced_objects.append(e)`. */
    method AddEach(xs: seq<ObjId>)
      modifies this`referencedObjects
      ensures referencedObjects == AddAll(old(referencedObjects), xs)
    {
      var i := 0;
      while i < |xs|
        invariant 0 <= i <= |xs|
        invariant referencedObjects == AddAll(old(referencedObjects), xs[..i])
      {
        assert xs[..i + 1][..i] == xs[..i];
        if xs[i] !in referencedObjects {
          referencedObjects := referencedObjects + [xs[i]];
        }
        i := i + 1;
      }
      assert xs[..i] == xs;
    }

    /**
     * `_track_referenced_objects(x)`: the loops of every rule that applies to
     * `x`, in order, each appending what it visits when not yet referenced.
     */
    method TrackReferencedObjects(g: Graph, x: ObjId)
      modifies this`referencedObjects
      ensures referencedObjects == Track(g, old(referencedObjects), x)
    {
      ApplyRules(g, x, Rules);
    }

    /** The rules of `rules` that apply to `x`, one after the other. */
    method ApplyRules(g: Graph, x: ObjId, rules: seq<Rule>)
      modifies this`referencedObjects
      ensures referencedObjects == AddAll(old(referencedObjects), RulesCands(g, x, rules))
    {
      ghost var start := referencedObjects;
      var i := 0;
      while i < |rules|
        invariant 0 <= i <= |rules|
        invariant referencedObjects == AddAll(start, RulesCands(g, x, rules[..i]))
      {
        var rule := rules[i];
        assert rules[..i + 1][..i] == rules[..i];
        ghost var before := RulesCands(g, x, rules[..i]);
        assert rules[..i + 1][i] == rule;
        if Matches(g, x, rule) {
          ApplySteps(g, x, rule.steps);
          AddAllConcat(start, before, StepsCands(g, x, rule.steps));
          assert RulesCands(g, x, rules[..i + 1]) == before + StepsCands(g, x, rule.steps);
          assert referencedObjects == AddAll(start, RulesCands(g, x, rules[..i + 1]));
        } else {
          assert RulesCands(g, x, rules[..i + 1]) == before + [] == before;
          assert referencedObjects == AddAll(start, RulesCands(g, x, rules[..i + 1]));
        }
        i := i + 1;
      }
      assert rules[..i] == rules;
    }

    /** The loops of one rule, one after the other. */
    method ApplySteps(g: Graph, x: ObjId, steps: seq<Step>)
      modifies this`referencedObjects
      ensures referencedObjects == AddAll(old(referencedObjects), StepsCands(g, x, steps))
    {
      ghost var start := referencedObjects;
      var j := 0;
      while j < |steps|
        invariant 0 <= j <= |steps|
        invariant referencedObjects == AddAll(start, StepsCands(g, x, steps[..j]))
      {
        assert steps[..j + 1][..j] == steps[..j];
        AddAllConcat(start, StepsCands(g, x, steps[..j]), StepCands(g, x, steps[j]));
        AddEach(StepCands(g, x, steps[j]));
        j := j + 1;
      }
      assert steps[..j] == steps;
    }

    /**
     * `generate_yaml(x)`: `x` becomes primary unless it already is, its branch
     * tracks what it points to (when that branch tracks), and its fragment is
     * appended to the text.
     */
    method GenerateYaml(g: Graph, x: ObjId, render: (string, ObjId) -> string)
      modifies this`primaryObjects, this`referencedObjects, this`yamlContent
      ensures primaryObjects == Add(old(primaryObjects), x)
      ensures referencedObjects == if Dispatch(g, x).tracks then Track(g, old(referencedObjects), x) else old(referencedObjects)
      ensures yamlContent == old(yamlContent) + Fragment(g, x, render)
    {
      if x !in primaryObjects {
        primaryObjects := primaryObjects + [x];
      }
      var b := Dispatch(g, x);
      if b.tracks {
        TrackReferencedObjects(g, x);
      }
      AppendFragment(g, x, b, render);
    }

    /** The text part of `generate_yaml(x)` once its branch `b` is known. */
    method AppendFragment(g: Graph, x: ObjId, b: Branch, render: (string, ObjId) -> string)
      requires b == Dispatch(g, x)
      modifies this`yamlContent
      ensures yamlContent == old(yamlContent) + Fragment(g, x, render)
    {
      ghost var text0 := yamlContent;
      var rendered := render(b.template, x);
      yamlContent := yamlContent + rendered;
      if b.snippet {
        var snippet := "\n" + GenerateTeamcenterYamlSnippet(x, SnippetIndent) + "\n";
        yamlContent := yamlContent + snippet;
        assert yamlContent == text0 + (rendered + snippet);
      } else {
        assert yamlContent == text0 + (rendered + "");
      }
    }

    /**
     * The state of `generate_yaml_referenced_objects` after its first `i`
     * entries, started from `refs0`, `prim0` and `text0`.
     */
    ghost predicate WalkInv(g: Graph, render: (string, ObjId) -> string, i: nat,
                            refs0: seq<ObjId>, prim0: seq<ObjId>, text0: string)
      reads this, parser
    {
      WalkState(g, i, refs0, prim0, referencedObjects, primaryObjects)
      && yamlContent == text0 + Fragments(g, primaryObjects[|prim0|..], render)
    }

    /** One pass of the walk: entry `i` is generated unless it is already primary. */
    method WalkStep(g: Graph, render: (string, ObjId) -> string, i: nat,
                    ghost refs0: seq<ObjId>, ghost prim0: seq<ObjId>, ghost text0: string)
      requires WalkInv(g, render, i, refs0, prim0, text0) && i < |referencedObjects|
      modifies this`primaryObjects, this`referencedObjects, this`yamlContent
      ensures WalkInv(g, render, i + 1, refs0, prim0, text0)
    {
      var r := referencedObjects[i];
      if r !in primaryObjects {
        ghost var refs1, prim1 := referencedObjects, primaryObjects;
        ghost var done := prim1[|prim0|..];
        ghost var text1 := Fragments(g, done, render);
        WalkStateStep(g, i, refs0, prim0, refs1, prim1);
        GenerateYaml(g, r, render);
        assert primaryObjects == prim1 + [r];
        assert WalkState(g, i + 1, refs0, prim0, referencedObjects, primaryObjects);
        assert Fragments(g, done, render) == text1;
        FragmentsSnoc(g, text0, done, r, render);
      }
    }

    /** One more generated element appends its fragment after those of the earlier ones. */
    lemma FragmentsSnoc(g: Graph, text0: string, done: seq<ObjId>, x: ObjId, render: (string, ObjId) -> string)
      ensures text0 + Fragments(g, done + [x], render) == (text0 + Fragments(g, done, render)) + Fragment(g, x, render)
    {
      assert (done + [x])[..|done|] == done;
    }

    /**
     * `generate_yaml_referenced_objects`: walks `referenced_objects` while it
     * grows and generates every entry not yet primary. Afterwards every
     * referenced element is primary, each element generated here was referenced,
     * none was generated twice or had been primary before, and the text has
     * grown by their fragments in that order.
     */
    method GenerateYamlReferencedObjects(g: Graph, render: (string, ObjId) -> string)
      modifies this`primaryObjects, this`referencedObjects, this`yamlContent
      ensures old(referencedObjects) <= referencedObjects
      ensures forall y :: y in referencedObjects ==> y in old(referencedObjects) || y in Mentioned(g)
      ensures old(primaryObjects) <= primaryObjects
      ensures forall y :: y in referencedObjects ==> y in primaryObjects
      ensures forall y :: y in primaryObjects[|old(primaryObjects)|..] ==> y in referencedObjects && y !in old(primaryObjects)
      ensures NoDup(primaryObjects[|old(primaryObjects)|..])
      ensures yamlContent == old(yamlContent) + Fragments(g, primaryObjects[|old(primaryObjects)|..], render)
    {
      ghost var refs0, prim0, text0 := referencedObjects, primaryObjects, yamlContent;
      var i := 0;
      while i < |referencedObjects|
        invariant WalkInv(g, render, i, refs0, prim0, text0)
        decreases |refs0| + |Mentioned(g)| - i
      {
        NoDupBound(referencedObjects[|refs0|..], Mentioned(g));
        WalkStep(g, render, i, refs0, prim0, text0);
        i := i + 1;
      }
      forall y | y in referencedObjects ensures y in refs0 || y in Mentioned(g) {
        var k :| 0 <= k < |referencedObjects| && referencedObjects[k] == y;
        if k >= |refs0| {
          assert referencedObjects[|refs0|..][k - |refs0|] == y;
        }
      }
    }

    /**
     * `generate_traceability_related_objects`: for each artifact link, the
     * linked element is looked up (`ok` is false once a lookup raised), and the
     * artifact is appended when the element is referenced or primary.
     */
    method GenerateTraceabilityRelatedObjects(g: Graph, store: seq<StoredArtifact>) returns (ok: bool)
      modifies this`referencedObjects
      ensures Scan(referencedObjects, ok) == ScanArtifacts(g, primaryObjects, Scan(old(referencedObjects), true), store)
    {
      ghost var s0 := Scan(referencedObjects, true);
      var i := 0;
      while i < |store|
        invariant 0 <= i <= |store|
        invariant Scan(referencedObjects, true) == ScanArtifacts(g, primaryObjects, s0, store[..i])
      {
        var art := store[i];
        assert store[..i + 1][..i] == store[..i];
        var linked := ScanArtifactLinks(g, art);
        if !linked {
          ScanArtifactsConcat(g, primaryObjects, s0, store[..i + 1], store[i + 1..]);
          assert store[..i + 1] + store[i + 1..] == store;
          ScanArtifactsFailed(g, primaryObjects, referencedObjects, store[i + 1..]);
          return false;
        }
        i := i + 1;
      }
      assert store[..i] == store;
      return true;
    }

    /**
     * The inner loop of `generate_traceability_related_objects` for one
     * artifact: its links in order, `ok` false once a lookup raised.
     */
    method ScanArtifactLinks(g: Graph, art: StoredArtifact) returns (ok: bool)
      modifies this`referencedObjects
      ensures Scan(referencedObjects, ok) == ScanLinks(g, primaryObjects, Scan(old(referencedObjects), true), art.id, art.linkUuids)
    {
      ghost var before := Scan(referencedObjects, true);
      var j := 0;
      while j < |art.linkUuids|
        invariant 0 <= j <= |art.linkUuids|
        invariant Scan(referencedObjects, true) == ScanLinks(g, primaryObjects, before, art.id, art.linkUuids[..j])
      {
        var u := art.linkUuids[j];
        assert art.linkUuids[..j + 1][..j] == art.linkUuids[..j];
        if u.None? || u.value !in g {
          ScanLinksConcat(g, primaryObjects, before, art.id, art.linkUuids[..j + 1], art.linkUuids[j + 1..]);
          assert art.linkUuids[..j + 1] + art.linkUuids[j + 1..] == art.linkUuids;
          ScanLinksFailed(g, primaryObjects, referencedObjects, art.id, art.linkUuids[j + 1..]);
          return false;
        }
        if u.value in referencedObjects || u.value in primaryObjects {
          referencedObjects := referencedObjects + [art.id];
        }
        j := j + 1;
      }
      assert art.linkUuids[..j] == art.linkUuids;
      return true;
    }

    /**
     * `get_entire_model` with every loop adding its own element: each element
     * of the 27 collections once, in order of first occurrence.
     */
    method GetEntireModel(m: ModelLists) returns (r: seq<ObjId>)
      ensures r == EntireModel(m)
      ensures NoDup(r) && forall y :: y in r <==> y in ModelObjects(m, EntireModelLoops)
    {
      r := CollectLoops(m, EntireModelLoops);
    }

    /** The loops of `loops` in turn, each `add_unique_object` of its own element. */
    method CollectLoops(m: ModelLists, loops: seq<Loop>) returns (data: seq<ObjId>)
      ensures data == AddAll([], ModelObjects(m, loops))
    {
      data := [];
      var li := 0;
      while li < |loops|
        invariant 0 <= li <= |loops|
        invariant data == AddAll([], ModelObjects(m, loops[..li]))
      {
        var xs := Collection(m, loops[li].collection);
        assert loops[..li + 1][..li] == loops[..li];
        ghost var before := ModelObjects(m, loops[..li]);
        assert before + xs[..0] == before;
        var j := 0;
        while j < |xs|
          invariant 0 <= j <= |xs|
          invariant data == AddAll([], before + xs[..j])
        {
          assert (before + xs[..j + 1])[..|before + xs[..j]|] == before + xs[..j];
          assert before + xs[..j + 1] == before + xs[..j] + [xs[j]];
          if xs[j] !in data {
            data := data + [xs[j]];
          }
          j := j + 1;
        }
        assert xs[..j] == xs;
        assert ModelObjects(m, loops[..li + 1]) == before + xs;
        li := li + 1;
      }
      assert loops[..li] == loops;
    }
  }
}
