/**
 * `N2DiagramGenerator`: from the objects of an exported YAML model, the N²
 * matrix of functional exchanges (between the functions owning the ports) or
 * of component exchanges (between components), over the sorted names of the
 * elements involved.
 *
 * The YAML document is given already loaded, as its list `model.objects`.
 */
module N2Diagram {
  import opened Wrappers
  import opened Text

  /** A `{ref_uuid: ...}` entry of a reference list. */
  datatype Ref = Ref(refUuid: Option<string>)

  /** The `owner` of an object: a mapping (possibly without `name`; a missing owner reads as `{}`) or some other value. */
  datatype Owner = OwnerDict(name: Option<string>) | OwnerOther

  /**
   * One object of `model.objects`, with the keys the generator reads. A
   * missing or empty reference list is the empty sequence.
   */
  datatype YamlObject = YamlObject(
    objectType: Option<string>,
    primaryUuid: Option<string>,
    name: Option<string>,
    owner: Owner,
    sourcePorts: seq<Ref>,
    targetPorts: seq<Ref>,
    sourceComponents: seq<Ref>,
    targetComponents: seq<Ref>)

  const CheckMark := "✔"
  const ComponentTypes := ["Component", "LogicalComponent", "PhysicalComponent"]

  /** A dictionary filled by `d[key] = value` for each present entry, in order. */
  function MapOf(entries: seq<Option<(string, string)>>): map<string, string> {
    if entries == [] then map[]
    else
      var m := MapOf(entries[..|entries| - 1]);
      var e := entries[|entries| - 1];
      if e.Some? then m[e.value.0 := e.value.1] else m
  }

  /** A key is in the dictionary iff some entry carries it. */
  lemma {:induction false} MapOfDomain(entries: seq<Option<(string, string)>>, k: string)
    ensures k in MapOf(entries) <==> exists i :: 0 <= i < |entries| && entries[i].Some? && entries[i].value.0 == k
  {
    if entries != [] {
      var init := entries[..|entries| - 1];
      MapOfDomain(init, k);
      assert forall i :: 0 <= i < |init| ==> init[i] == entries[i];
    }
  }

  /** The value kept under a key is the one of the last entry carrying that key. */
  lemma {:induction false} MapOfLastWins(entries: seq<Option<(string, string)>>, i: nat)
    requires i < |entries| && entries[i].Some?
    requires forall j :: i < j < |entries| ==> !(entries[j].Some? && entries[j].value.0 == entries[i].value.0)
    ensures entries[i].value.0 in MapOf(entries) && MapOf(entries)[entries[i].value.0] == entries[i].value.1
  {
    if i < |entries| - 1 {
      MapOfLastWins(entries[..|entries| - 1], i);
    }
  }

  /** The entry `extract_entity_map` makes of an object: one of the listed types, with a non-empty uuid and name. */
  function EntityEntry(types: seq<string>, o: YamlObject): (e: Option<(string, string)>)
    ensures e.Some? <==> o.objectType.Some? && o.objectType.value in types && Truthy(o.primaryUuid) && Truthy(o.name)
    ensures e.Some? ==> e.value == (o.primaryUuid.value, o.name.value)
  {
    if o.objectType.Some? && o.objectType.value in types && Truthy(o.primaryUuid) && Truthy(o.name)
    then Some((o.primaryUuid.value, o.name.value)) else None
  }

  /** The entry `extract_port_to_function_map` makes: a function port with a uuid and an owner mapping with a name. */
  function PortEntry(o: YamlObject): (e: Option<(string, string)>)
    ensures e.Some? <==> ((o.objectType == Some("FunctionInputPort") || o.objectType == Some("FunctionOutputPort"))
      && Truthy(o.primaryUuid) && o.owner.OwnerDict? && Truthy(o.owner.name))
    ensures e.Some? ==> e.value == (o.primaryUuid.value, o.owner.name.value)
  {
    if (o.objectType == Some("FunctionInputPort") || o.objectType == Some("FunctionOutputPort"))
      && Truthy(o.primaryUuid) && o.owner.OwnerDict? && Truthy(o.owner.name)
    then Some((o.primaryUuid.value, o.owner.name.value)) else None
  }

  /** `refs[0].get("ref_uuid") if refs else None`. */
  function FirstRef(refs: seq<Ref>): Option<string> {
    if refs == [] then None else refs[0].refUuid
  }

  /** `d.get(key)` where the key itself may be None. */
  function Lookup(m: map<string, string>, key: Option<string>): (r: Option<string>)
    ensures r.Some? <==> key.Some? && key.value in m
    ensures r.Some? ==> r.value == m[key.value]
  {
    if key.Some? && key.value in m then Some(m[key.value]) else None
  }

  /** The pair recorded for an object of the given exchange type whose two endpoints resolve to non-empty names. */
  function ExchangePair(exchangeType: string, m: map<string, string>, o: YamlObject, src: seq<Ref>, tgt: seq<Ref>): (p: Option<(string, string)>)
    ensures p.Some? <==> (o.objectType == Some(exchangeType)
      && Truthy(Lookup(m, FirstRef(src))) && Truthy(Lookup(m, FirstRef(tgt))))
    ensures p.Some? ==> p.value == (Lookup(m, FirstRef(src)).value, Lookup(m, FirstRef(tgt)).value)
  {
    var s := Lookup(m, FirstRef(src));
    var t := Lookup(m, FirstRef(tgt));
    if o.objectType == Some(exchangeType) && Truthy(s) && Truthy(t) then Some((s.value, t.value)) else None
  }

  /** The pair a FunctionalExchange contributes, resolved through the port map. */
  function FunctionalPair(portMap: map<string, string>, o: YamlObject): Option<(string, string)> {
    ExchangePair("FunctionalExchange", portMap, o, o.sourcePorts, o.targetPorts)
  }

  /** The pair a ComponentExchange contributes, resolved through the component map. */
  function ComponentPair(componentMap: map<string, string>, o: YamlObject): Option<(string, string)> {
    ExchangePair("ComponentExchange", componentMap, o, o.sourceComponents, o.targetComponents)
  }

  /** The present values, in order. */
  function Present(ps: seq<Option<(string, string)>>): seq<(string, string)> {
    if ps == [] then []
    else
      var init := Present(ps[..|ps| - 1]);
      if ps[|ps| - 1].Some? then init + [ps[|ps| - 1].value] else init
  }

  /** The recorded pairs are exactly the present ones. */
  lemma {:induction false} PresentMembers(ps: seq<Option<(string, string)>>)
    ensures forall x :: x in Present(ps) <==> Some(x) in ps
  {
    if ps != [] {
      PresentMembers(ps[..|ps| - 1]);
      assert ps == ps[..|ps| - 1] + [ps[|ps| - 1]];
    }
  }

  /** The names at either end of the recorded exchanges: the `elements` set. */
  function Endpoints(pairs: seq<(string, string)>): set<string> {
    if pairs == [] then {}
    else Endpoints(pairs[..|pairs| - 1]) + {pairs[|pairs| - 1].0, pairs[|pairs| - 1].1}
  }

  /** `elements` holds exactly the names at either end of a recorded exchange. */
  lemma {:induction false} EndpointsMembers(pairs: seq<(string, string)>)
    ensures forall x :: x in Endpoints(pairs) <==> exists p :: p in pairs && (x == p.0 || x == p.1)
  {
    if pairs != [] {
      var init := pairs[..|pairs| - 1];
      EndpointsMembers(init);
      assert pairs == init + [pairs[|pairs| - 1]];
    }
  }

  /** `sorted(elements)`, computed by inserting the endpoints one after another. */
  function SortedLabels(pairs: seq<(string, string)>): (r: seq<string>)
    ensures StrictlySorted(r)
    ensures forall x :: x in r <==> x in Endpoints(pairs)
  {
    if pairs == [] then []
    else
      var p := pairs[|pairs| - 1];
      Insert(Insert(SortedLabels(pairs[..|pairs| - 1]), p.0), p.1)
  }

  /** Both ends of every recorded exchange are labels. */
  lemma LabelsCoverExchanges(pairs: seq<(string, string)>)
    ensures forall k :: 0 <= k < |pairs| ==> pairs[k].0 in SortedLabels(pairs) && pairs[k].1 in SortedLabels(pairs)
  {
    EndpointsMembers(pairs);
    forall k | 0 <= k < |pairs| ensures pairs[k].0 in SortedLabels(pairs) && pairs[k].1 in SortedLabels(pairs) {
      assert pairs[k] in pairs;
    }
  }

  /** A strictly sorted list has no repeated element. */
  lemma SortedNoDup(s: seq<string>)
    requires StrictlySorted(s)
    ensures NoDup(s)
  {
    forall i, j | 0 <= i < j < |s| ensures s[i] != s[j] {
      LexLessIrreflexive(s[i]);
    }
  }

  /** An n-by-n matrix of empty cells. */
  function EmptyMatrix(n: nat): (m: seq<seq<string>>)
    ensures |m| == n && forall i :: 0 <= i < n ==> |m[i]| == n && forall j :: 0 <= j < n ==> m[i][j] == ""
  {
    seq(n, _ => seq(n, _ => ""))
  }

  /** `m` is the check-mark matrix of `pairs` over `labels`. */
  predicate IsMatrixOf(m: seq<seq<string>>, labels: seq<string>, pairs: seq<(string, string)>) {
    |m| == |labels|
    && (forall i :: 0 <= i < |labels| ==> |m[i]| == |labels|)
    && forall i, j :: 0 <= i < |labels| && 0 <= j < |labels| ==>
      m[i][j] == if (labels[i], labels[j]) in pairs then CheckMark else ""
  }

  /** `{name: i for i, name in enumerate(labels)}` for distinct labels. */
  function IndexMap(labels: seq<string>): (index: map<string, nat>)
    requires NoDup(labels)
    ensures forall x :: x in index <==> x in labels
    ensures forall x :: x in index ==> index[x] < |labels| && labels[index[x]] == x
  {
    map i | 0 <= i < |labels| :: labels[i] := i
  }

  /** Writing the check mark of one more exchange keeps the matrix that of the exchanges seen so far. */
  lemma MarkCell(cells: seq<seq<string>>, labels: seq<string>, done: seq<(string, string)>, a: nat, b: nat)
    requires NoDup(labels) && a < |labels| && b < |labels|
    requires IsMatrixOf(cells, labels, done)
    ensures IsMatrixOf(cells[a := cells[a][b := CheckMark]], labels, done + [(labels[a], labels[b])])
  {
    var next := cells[a := cells[a][b := CheckMark]];
    forall i, j | 0 <= i < |labels| && 0 <= j < |labels|
      ensures next[i][j] == if (labels[i], labels[j]) in done + [(labels[a], labels[b])] then CheckMark else ""
    {
      if (i, j) != (a, b) {
        assert (labels[i], labels[j]) != (labels[a], labels[b]);
      }
    }
  }

  class N2DiagramGenerator {
    const objects: seq<YamlObject>
    var diagramName: string
    var mode: string
    var labels: seq<string>
    var matrix: Option<seq<seq<string>>>

    /** `__init__`: the name defaults to the capitalised mode (as given) followed by " Exchange Matrix"; the mode is lowered. */
    constructor (objects: seq<YamlObject>, diagramName: Option<string>, mode: string)
      ensures this.objects == objects
      ensures this.diagramName == if Truthy(diagramName) then diagramName.value else Capitalize(mode) + " Exchange Matrix"
      ensures this.mode == Lower(mode) && labels == [] && matrix == None
    {
      this.objects := objects;
      this.diagramName := if Truthy(diagramName) then diagramName.value else Capitalize(mode) + " Exchange Matrix";
      this.mode := Lower(mode);
      labels := [];
      matrix := None;
    }

    /** `extract_entity_map`: component uuid to name, a later object overriding an earlier one. */
    method ExtractEntityMap(types: seq<string>) returns (m: map<string, string>)
      ensures m == MapOf(seq(|objects|, i requires 0 <= i < |objects| => EntityEntry(types, objects[i])))
      ensures forall u :: u in m <==> exists i :: 0 <= i < |objects| && EntityEntry(types, objects[i]).Some? && objects[i].primaryUuid == Some(u)
    {
      ghost var es := seq(|objects|, i requires 0 <= i < |objects| => EntityEntry(types, objects[i]));
      m := map[];
      var k := 0;
      while k < |objects|
        invariant 0 <= k <= |objects|
        invariant m == MapOf(es[..k])
      {
        var obj := objects[k];
        if obj.objectType.Some? && obj.objectType.value in types {
          var uuid := obj.primaryUuid;
          var name := obj.name;
          if Truthy(uuid) && Truthy(name) {
            m := m[uuid.value := name.value];
          }
        }
        assert es[..k + 1][..k] == es[..k];
        k := k + 1;
      }
      assert es[..k] == es;
      forall u ensures u in m <==> exists i :: 0 <= i < |objects| && EntityEntry(types, objects[i]).Some? && objects[i].primaryUuid == Some(u) {
        MapOfDomain(es, u);
        assert forall i :: 0 <= i < |objects| ==> es[i] == EntityEntry(types, objects[i]);
      }
    }

    /** `extract_port_to_function_map`: function port uuid to owning function name, later objects overriding. */
    method ExtractPortToFunctionMap() returns (m: map<string, string>)
      ensures m == MapOf(seq(|objects|, i requires 0 <= i < |objects| => PortEntry(objects[i])))
      ensures forall u :: u in m <==> exists i :: 0 <= i < |objects| && PortEntry(objects[i]).Some? && objects[i].primaryUuid == Some(u)
    {
      ghost var es := seq(|objects|, i requires 0 <= i < |objects| => PortEntry(objects[i]));
      m := map[];
      var k := 0;
      while k < |objects|
        invariant 0 <= k <= |objects|
        invariant m == MapOf(es[..k])
      {
        var obj := objects[k];
        if obj.objectType == Some("FunctionInputPort") || obj.objectType == Some("FunctionOutputPort") {
          var portUuid := obj.primaryUuid;
          if obj.owner.OwnerDict? {
            var functionName := obj.owner.name;
            if Truthy(portUuid) && Truthy(functionName) {
              m := m[portUuid.value := functionName.value];
            }
          }
        }
        assert es[..k + 1][..k] == es[..k];
        k := k + 1;
      }
      assert es[..k] == es;
      forall u ensures u in m <==> exists i :: 0 <= i < |objects| && PortEntry(objects[i]).Some? && objects[i].primaryUuid == Some(u) {
        MapOfDomain(es, u);
        assert forall i :: 0 <= i < |objects| ==> es[i] == PortEntry(objects[i]);
      }
    }

    /** The exchanges the current mode records, in object order. */
    function RecordedExchanges(): seq<(string, string)>
      reads this
    {
      if mode == "functional" then
        var pm := MapOf(seq(|objects|, i requires 0 <= i < |objects| => PortEntry(objects[i])));
        Present(seq(|objects|, i requires 0 <= i < |objects| => FunctionalPair(pm, objects[i])))
      else if mode == "component" then
        var cm := MapOf(seq(|objects|, i requires 0 <= i < |objects| => EntityEntry(ComponentTypes, objects[i])));
        Present(seq(|objects|, i requires 0 <= i < |objects| => ComponentPair(cm, objects[i])))
      else []
    }

    /** The functional-mode loop of `extract_exchanges`: exchanges whose first source and target ports resolve. */
    method CollectFunctional(portToFunction: map<string, string>) returns (elements: set<string>, exchanges: seq<(string, string)>)
      ensures exchanges == Present(seq(|objects|, i requires 0 <= i < |objects| => FunctionalPair(portToFunction, objects[i])))
      ensures elements == Endpoints(exchanges)
    {
      ghost var ps := seq(|objects|, i requires 0 <= i < |objects| => FunctionalPair(portToFunction, objects[i]));
      elements, exchanges := {}, [];
      var k := 0;
      while k < |objects|
        invariant 0 <= k <= |objects|
        invariant exchanges == Present(ps[..k]) && elements == Endpoints(exchanges)
      {
        var obj := objects[k];
        if obj.objectType == Some("FunctionalExchange") {
          var src := Lookup(portToFunction, FirstRef(obj.sourcePorts));
          var tgt := Lookup(portToFunction, FirstRef(obj.targetPorts));
          if Truthy(src) && Truthy(tgt) {
            elements := elements + {src.value, tgt.value};
            exchanges := exchanges + [(src.value, tgt.value)];
          }
        }
        assert ps[..k + 1][..k] == ps[..k];
        k := k + 1;
      }
      assert ps[..k] == ps;
    }

    /** The component-mode loop of `extract_exchanges`: ComponentExchanges whose first endpoints resolve. */
    method CollectComponent(compMap: map<string, string>) returns (elements: set<string>, exchanges: seq<(string, string)>)
      ensures exchanges == Present(seq(|objects|, i requires 0 <= i < |objects| => ComponentPair(compMap, objects[i])))
      ensures elements == Endpoints(exchanges)
    {
      ghost var ps := seq(|objects|, i requires 0 <= i < |objects| => ComponentPair(compMap, objects[i]));
      elements, exchanges := {}, [];
      var k := 0;
      while k < |objects|
        invariant 0 <= k <= |objects|
        invariant exchanges == Present(ps[..k]) && elements == Endpoints(exchanges)
      {
        var obj := objects[k];
        if obj.objectType == Some("ComponentExchange") {
          var src := Lookup(compMap, FirstRef(obj.sourceComponents));
          var tgt := Lookup(compMap, FirstRef(obj.targetComponents));
          if Truthy(src) && Truthy(tgt) {
            elements := elements + {src.value, tgt.value};
            exchanges := exchanges + [(src.value, tgt.value)];
          }
        }
        assert ps[..k + 1][..k] == ps[..k];
        k := k + 1;
      }
      assert ps[..k] == ps;
    }

    /**
     * `extract_exchanges`: `labels` is the sorted list of distinct endpoint
     * names and `matrix` has a check mark exactly at the recorded pairs.
     */
    method ExtractExchanges()
      modifies this
      ensures mode == old(mode) && diagramName == old(diagramName)
      ensures StrictlySorted(labels)
      ensures forall x :: x in labels <==> x in Endpoints(RecordedExchanges())
      ensures matrix.Some? && IsMatrixOf(matrix.value, labels, RecordedExchanges())
      ensures mode != "functional" && mode != "component" ==> labels == [] && matrix == Some([])
    {
      var elements: set<string> := {};
      var exchanges: seq<(string, string)> := [];
      if mode == "functional" {
        var portToFunction := ExtractPortToFunctionMap();
        elements, exchanges := CollectFunctional(portToFunction);
      } else if mode == "component" {
        var compMap := ExtractEntityMap(ComponentTypes);
        elements, exchanges := CollectComponent(compMap);
      }
      assert exchanges == RecordedExchanges();
      var sorted := SortedLabels(exchanges);
      LabelsCoverExchanges(exchanges);
      SortedNoDup(sorted);
      var cells := CheckMarks(sorted, exchanges);
      labels := sorted;
      matrix := Some(cells);
    }

    /** The matrix part of `extract_exchanges`: one check mark written per recorded exchange. */
    static method CheckMarks(labels: seq<string>, exchanges: seq<(string, string)>) returns (cells: seq<seq<string>>)
      requires NoDup(labels)
      requires forall k :: 0 <= k < |exchanges| ==> exchanges[k].0 in labels && exchanges[k].1 in labels
      ensures IsMatrixOf(cells, labels, exchanges)
    {
      var size := |labels|;
      var index := IndexMap(labels);
      cells := EmptyMatrix(size);
      assert IsMatrixOf(cells, labels, exchanges[..0]);
      var k := 0;
      while k < |exchanges|
        invariant 0 <= k <= |exchanges|
        invariant IsMatrixOf(cells, labels, exchanges[..k])
      {
        var src, tgt := exchanges[k].0, exchanges[k].1;
        assert src in index && tgt in index;
        var a := index[src];
        var b := index[tgt];
        TakeNext(exchanges, k);
        MarkCell(cells, labels, exchanges[..k], a, b);
        cells := cells[a := cells[a][b := CheckMark]];
        k := k + 1;
      }
      assert exchanges[..k] == exchanges;
    }

    /** The Excel path: the given one, or the name with spaces turned into '_' followed by "_n2.xlsx". */
    function ExcelPath(outputPath: Option<string>): (r: string)
      reads this
      ensures outputPath.Some? ==> r == outputPath.value
      ensures outputPath.None? ==> (|r| == |diagramName| + 8 && EndsWith(r, "_n2.xlsx")
        && forall i :: 0 <= i < |diagramName| ==> r[i] == if diagramName[i] == ' ' then '_' else diagramName[i])
    {
      if outputPath.Some? then outputPath.value else ReplaceChar(diagramName, ' ', '_') + "_n2.xlsx"
    }

    /** The HTML path: the given one unless empty, else the name with spaces turned into '_' followed by "_n2.html". */
    function HtmlPath(outputPath: Option<string>): (r: string)
      reads this
      ensures Truthy(outputPath) ==> r == outputPath.value
      ensures !Truthy(outputPath) ==> (|r| == |diagramName| + 8 && EndsWith(r, "_n2.html")
        && forall i :: 0 <= i < |diagramName| ==> r[i] == if diagramName[i] == ' ' then '_' else diagramName[i])
    {
      if Truthy(outputPath) then outputPath.value else ReplaceChar(diagramName, ' ', '_') + "_n2.html"
    }
  }
}
