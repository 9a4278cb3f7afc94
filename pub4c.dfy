/**
 * The traceability store of Pub4C: link types and artifacts (with their links
 * to model elements) loaded from a traceability XML file, and the lookup of
 * the artifacts linked to one model element.
 *
 * The XML file is given already parsed, as the elements `findall` returns.
 */
module Pub4C {
  import opened Wrappers
  import opened Text

  /** An `ownedLinks` element: its attributes and, when present, the attributes of its `modelObject` child. */
  datatype LinkElem = LinkElem(attrs: map<string, string>, modelObject: Option<map<string, string>>)

  /** An `ownedArtifacts` element of the store, with its `ownedLinks` children. */
  datatype ArtifactElem = ArtifactElem(attrs: map<string, string>, links: seq<LinkElem>)

  /** The traceability file: absent, not well-formed XML, or parsed into its `ownedLinkTypes` and its first `store`. */
  datatype TraceFile =
    | Missing
    | Unparsable
    | Parsed(linkTypeElems: seq<map<string, string>>, store: Option<seq<ArtifactElem>>)

  datatype LinkType = LinkType(name: Option<string>, uuid: Option<string>)

  datatype ArtifactLink = ArtifactLink(
    linkType: Option<LinkType>, artifactUuid: Option<string>, modelElementUuid: Option<string>)

  /** One entry of `property_values`: a name and the value stored under it. */
  datatype NamedValue = NamedValue(name: string, value: Option<string>)

  /** The state of an artifact object, as a value. */
  datatype ArtifactValue = ArtifactValue(
    name: Option<string>, artifactId: Option<string>, url: Option<string>,
    uuid: Option<string>, identifier: Option<string>,
    links: seq<ArtifactLink>, propertyValues: seq<NamedValue>)

  /** `href.split("#")[-1]`: the text after the last '#', or the whole text without one. */
  function AfterLastHash(href: string): string {
    if href == [] then []
    else if href[|href| - 1] == '#' then []
    else AfterLastHash(href[..|href| - 1]) + [href[|href| - 1]]
  }

  /** The result holds no '#' and ends the href: all of it without a '#', else what follows the last one. */
  lemma AfterLastHashShape(href: string)
    ensures '#' !in AfterLastHash(href) && EndsWith(href, AfterLastHash(href))
    ensures '#' !in href ==> AfterLastHash(href) == href
    ensures '#' in href ==> |AfterLastHash(href)| < |href| && href[|href| - |AfterLastHash(href)| - 1] == '#'
  {
    AfterLastHashSuffix(href);
    if '#' in href {
      AfterLastHashAfterHash(href);
    } else {
      AfterLastHashWhole(href);
    }
  }

  /** The result ends the href and holds no '#'. */
  lemma {:induction false} AfterLastHashSuffix(href: string)
    ensures '#' !in AfterLastHash(href) && EndsWith(href, AfterLastHash(href))
  {
    if href != [] && href[|href| - 1] != '#' {
      var p, c := href[..|href| - 1], href[|href| - 1];
      AfterLastHashSuffix(p);
      var r := AfterLastHash(p);
      assert AfterLastHash(href) == r + [c];
      assert |r| <= |p| && p[|p| - |r|..] == r;
      assert href[|href| - |r| - 1..] == p[|p| - |r|..] + [c];
    }
  }

  /** Without a '#', `split("#")[-1]` is the whole href. */
  lemma {:induction false} AfterLastHashWhole(href: string)
    requires '#' !in href
    ensures AfterLastHash(href) == href
  {
    if href != [] {
      var p := href[..|href| - 1];
      assert '#' !in p;
      AfterLastHashWhole(p);
      assert href == p + [href[|href| - 1]];
    }
  }

  /** With a '#', the result starts right after the last one. */
  lemma {:induction false} AfterLastHashAfterHash(href: string)
    requires '#' in href
    ensures |AfterLastHash(href)| < |href| && href[|href| - |AfterLastHash(href)| - 1] == '#'
  {
    if href[|href| - 1] != '#' {
      var p := href[..|href| - 1];
      assert href == p + [href[|href| - 1]];
      assert '#' in p;
      AfterLastHashAfterHash(p);
      var r := AfterLastHash(p);
      assert href[|href| - |r| - 2] == p[|p| - |r| - 1];
    }
  }

  /** `next((lt for lt in link_types if lt.uuid == link_type_id), None)`; None matches a link type without id. */
  function FirstLinkType(types: seq<LinkType>, id: Option<string>): (r: Option<LinkType>)
    ensures r.None? <==> forall i :: 0 <= i < |types| ==> types[i].uuid != id
    ensures r.Some? ==> exists i :: (0 <= i < |types| && types[i] == r.value && types[i].uuid == id
      && forall j :: 0 <= j < i ==> types[j].uuid != id)
  {
    if types == [] then None
    else if types[0].uuid == id then Some(types[0])
    else
      var r := FirstLinkType(types[1..], id);
      assert forall i :: 1 <= i < |types| ==> types[i] == types[1..][i - 1];
      if r.Some? then
        var i :| 0 <= i < |types[1..]| && types[1..][i] == r.value && types[1..][i].uuid == id
          && forall j :: 0 <= j < i ==> types[1..][j].uuid != id;
        assert types[i + 1] == r.value;
        r
      else r
  }

  /** Reading the link's href fails only when a `modelObject` child has no `href` attribute. */
  predicate LinkReadable(l: LinkElem) {
    l.modelObject.None? || "href" in l.modelObject.value
  }

  /** The model element id of a readable link: after the last '#' of its href, or None without `modelObject`. */
  function ModelElementUuid(l: LinkElem): (r: Option<string>)
    requires LinkReadable(l)
    ensures r.None? <==> l.modelObject.None?
    ensures r.Some? ==> r.value == AfterLastHash(l.modelObject.value["href"])
  {
    if l.modelObject.None? then None else Some(AfterLastHash(l.modelObject.value["href"]))
  }

  /** The link that lines 64-78 add for a readable link element. */
  function LinkOf(types: seq<LinkType>, l: LinkElem): ArtifactLink
    requires LinkReadable(l)
  {
    ArtifactLink(FirstLinkType(types, Get(l.attrs, "type")), Get(l.attrs, "artifact"), ModelElementUuid(l))
  }

  predicate LinksReadable(links: seq<LinkElem>) {
    forall j :: 0 <= j < |links| ==> LinkReadable(links[j])
  }

  /** One more readable link element adds its link at the end. */
  lemma LinksOfSnoc(types: seq<LinkType>, elems: seq<LinkElem>, n: nat)
    requires n < |elems| && LinksReadable(elems[..n]) && LinkReadable(elems[n])
    ensures LinksReadable(elems[..n + 1])
    ensures LinksOf(types, elems[..n + 1]) == LinksOf(types, elems[..n]) + [LinkOf(types, elems[n])]
  {
    assert elems[..n + 1][..n] == elems[..n];
  }

  /** An artifact element loads only if every one of its links is readable. */
  predicate ArtifactReadable(a: ArtifactElem) {
    LinksReadable(a.links)
  }

  /** The links that lines 63-78 add for readable link elements, in file order. */
  function LinksOf(types: seq<LinkType>, links: seq<LinkElem>): (r: seq<ArtifactLink>)
    requires LinksReadable(links)
    ensures |r| == |links| && forall j :: 0 <= j < |links| ==> r[j] == LinkOf(types, links[j])
  {
    if links == [] then []
    else
      var n := |links| - 1;
      assert LinksReadable(links[..n]);
      LinksOf(types, links[..n]) + [LinkOf(types, links[n])]
  }

  /** The artifact object built for a readable element, with its links in file order. */
  function ArtifactOf(types: seq<LinkType>, a: ArtifactElem): (v: ArtifactValue)
    requires ArtifactReadable(a)
    ensures |v.links| == |a.links| && forall j :: 0 <= j < |a.links| ==> v.links[j] == LinkOf(types, a.links[j])
    ensures v.propertyValues == [] && v.uuid == Get(a.attrs, "id")
  {
    Header(a).(links := LinksOf(types, a.links))
  }

  /** Lines 52-59: the artifact built from the element's attributes, before any link is added. */
  function Header(a: ArtifactElem): (v: ArtifactValue)
    ensures v.links == [] && v.propertyValues == []
    ensures v.name == Get(a.attrs, "title") && v.artifactId == v.identifier == Get(a.attrs, "identifier")
    ensures v.url == Get(a.attrs, "url") && v.uuid == Get(a.attrs, "id")
  {
    ArtifactValue(
      Get(a.attrs, "title"), Get(a.attrs, "identifier"), Get(a.attrs, "url"),
      Get(a.attrs, "id"), Get(a.attrs, "identifier"), [], [])
  }

  /**
   * The artifacts that `_load_data` keeps: those before the first unreadable
   * element, whose exception ends the load (it is caught by the generic handler).
   */
  function LoadedArtifacts(types: seq<LinkType>, elems: seq<ArtifactElem>): (r: seq<ArtifactValue>)
    ensures |r| <= |elems|
    ensures forall j :: 0 <= j < |r| ==> ArtifactReadable(elems[j]) && r[j] == ArtifactOf(types, elems[j])
    ensures |r| < |elems| ==> !ArtifactReadable(elems[|r|])
  {
    if elems == [] || !ArtifactReadable(elems[0]) then []
    else
      var rest := LoadedArtifacts(types, elems[1..]);
      assert forall j :: 1 <= j < |elems| ==> elems[j] == elems[1..][j - 1];
      [ArtifactOf(types, elems[0])] + rest
  }

  /** The link types of a parsed file, in file order. */
  function LinkTypesOf(f: TraceFile): (r: seq<LinkType>)
    ensures f.Parsed? ==> (|r| == |f.linkTypeElems|
      && forall i :: 0 <= i < |r| ==> r[i] == LinkType(Get(f.linkTypeElems[i], "name"), Get(f.linkTypeElems[i], "id")))
    ensures !f.Parsed? ==> r == []
  {
    if f.Parsed? then
      seq(|f.linkTypeElems|, i requires 0 <= i < |f.linkTypeElems| =>
        LinkType(Get(f.linkTypeElems[i], "name"), Get(f.linkTypeElems[i], "id")))
    else []
  }

  /** The artifacts a file yields: none when it is missing, unparsable or has no store. */
  function ArtifactsOf(f: TraceFile): (r: seq<ArtifactValue>)
    ensures !f.Parsed? || f.store.None? ==> r == []
  {
    if f.Parsed? && f.store.Some? then LoadedArtifacts(LinkTypesOf(f), f.store.value) else []
  }

  /** `Traceability_Artifact`: its links and property values grow in place. */
  class TraceabilityArtifact {
    var name: Option<string>
    var artifactId: Option<string>
    var url: Option<string>
    var uuid: Option<string>
    var identifier: Option<string>
    var links: seq<ArtifactLink>
    var propertyValues: seq<NamedValue>

    constructor (name: Option<string>, artifactId: Option<string>, url: Option<string>)
      ensures Value() == ArtifactValue(name, artifactId, url, None, Some(""), [], [])
    {
      this.name := name;
      this.artifactId := artifactId;
      this.url := url;
      uuid := None;
      identifier := Some("");
      links := [];
      propertyValues := [];
    }

    function Value(): ArtifactValue
      reads this
    {
      ArtifactValue(name, artifactId, url, uuid, identifier, links, propertyValues)
    }

    /** `add_link`: exactly one link with the given fields is appended. */
    method AddLink(linkType: Option<LinkType>, artifactUuid: Option<string>, modelElementUuid: Option<string>)
      modifies this
      ensures Value() == old(Value()).(links := old(links) + [ArtifactLink(linkType, artifactUuid, modelElementUuid)])
    {
      links := links + [ArtifactLink(linkType, artifactUuid, modelElementUuid)];
    }

    /** Lines 64-78 for one readable link element: its link, with the link type it names, is appended. */
    method AddLinkFrom(types: seq<LinkType>, link: LinkElem)
      requires LinkReadable(link)
      modifies this
      ensures Value() == old(Value()).(links := old(links) + [LinkOf(types, link)])
    {
      var modelElementUuid := ModelElementUuid(link);
      var linkType := FirstLinkType(types, Get(link.attrs, "type"));
      AddLink(linkType, Get(link.attrs, "artifact"), modelElementUuid);
    }

    /**
     * Lines 63-78: each link element in turn has its link appended. A link
     * that cannot be read raises, and `readable` is false.
     */
    method AddLinks(types: seq<LinkType>, elems: seq<LinkElem>) returns (readable: bool)
      modifies this
      ensures readable == LinksReadable(elems)
      ensures readable ==> Value() == old(Value()).(links := old(links) + LinksOf(types, elems))
    {
      var n := 0;
      while n < |elems|
        invariant 0 <= n <= |elems| && LinksReadable(elems[..n])
        invariant Value() == old(Value()).(links := old(links) + LinksOf(types, elems[..n]))
      {
        var link := elems[n];
        if link.modelObject.Some? && "href" !in link.modelObject.value {
          // None.split("#") raises; the handler at lines 84-85 ends the load here.
          assert !LinkReadable(elems[n]);
          return false;
        }
        ghost var done := LinksOf(types, elems[..n]);
        AddLinkFrom(types, link);
        LinksOfSnoc(types, elems, n);
        assert old(links) + done + [LinkOf(types, link)] == old(links) + (done + [LinkOf(types, link)]);
        n := n + 1;
      }
      assert elems[..n] == elems;
      readable := true;
    }

    /**
     * The effective (second) `add_property_value`: the stripped value of the
     * first pair under "value", then its unit under "unit". An empty list, a
     * missing or None value, or a missing unit raises; a missing unit raises
     * after the first entry has been appended.
     */
    method AddPropertyValue(title: string, pairs: seq<map<string, Option<string>>>) returns (ok: bool)
      modifies this
      ensures ok <==> |pairs| > 0 && "value" in pairs[0] && pairs[0]["value"].Some? && "unit" in pairs[0]
      ensures ok ==> Value() == old(Value()).(propertyValues := old(propertyValues)
        + [NamedValue("value", Some(Strip(pairs[0]["value"].value))), NamedValue("unit", pairs[0]["unit"])])
      ensures !ok && |pairs| > 0 && "value" in pairs[0] && pairs[0]["value"].Some? ==>
        Value() == old(Value()).(propertyValues := old(propertyValues)
          + [NamedValue("value", Some(Strip(pairs[0]["value"].value)))])
      ensures !ok && !(|pairs| > 0 && "value" in pairs[0] && pairs[0]["value"].Some?) ==> Value() == old(Value())
    {
      if |pairs| == 0 || "value" !in pairs[0] || pairs[0]["value"].None? {
        return false;
      }
      propertyValues := propertyValues + [NamedValue("value", Some(Strip(pairs[0]["value"].value)))];
      if "unit" !in pairs[0] {
        return false;
      }
      propertyValues := propertyValues + [NamedValue("unit", pairs[0]["unit"])];
      return true;
    }
  }

  /** The states of a sequence of artifact objects. */
  function Values(arts: seq<TraceabilityArtifact>): (r: seq<ArtifactValue>)
    reads set a | a in arts
    ensures |r| == |arts| && forall i :: 0 <= i < |arts| ==> r[i] == arts[i].Value()
  {
    if arts == [] then [] else [arts[0].Value()] + Values(arts[1..])
  }

  /** Some link of the artifact points at the model element. */
  predicate LinksTo(v: ArtifactValue, modelElementUuid: Option<string>) {
    exists l :: l in v.links && l.modelElementUuid == modelElementUuid
  }

  /** The artifacts of `arts` linked to the model element, in their order. */
  function LinkedTo(arts: seq<TraceabilityArtifact>, modelElementUuid: Option<string>): (r: seq<TraceabilityArtifact>)
    reads set a | a in arts
    ensures SubseqOf(r, arts)
    ensures forall i :: 0 <= i < |r| ==> r[i] in arts && LinksTo(r[i].Value(), modelElementUuid)
    ensures forall i :: 0 <= i < |arts| && LinksTo(arts[i].Value(), modelElementUuid) ==> arts[i] in r
  {
    if arts == [] then []
    else
      var rest := LinkedTo(arts[1..], modelElementUuid);
      assert forall i :: 1 <= i < |arts| ==> arts[i] == arts[1..][i - 1];
      if LinksTo(arts[0].Value(), modelElementUuid) then [arts[0]] + rest else rest
  }

  /** `Traceability_Store`. */
  class TraceStore {
    var linkTypes: seq<LinkType>
    var artifacts: seq<TraceabilityArtifact>

    /** `__init__`: starts empty and runs `_load_data`. */
    constructor (file: TraceFile)
      ensures linkTypes == LinkTypesOf(file)
      ensures Values(artifacts) == ArtifactsOf(file)
    {
      linkTypes := [];
      artifacts := [];
      new;
      LoadData(file);
    }

    /** `_load_data` on empty lists: link types first, then the store's artifacts with their links. */
    method LoadData(file: TraceFile)
      requires linkTypes == [] && artifacts == []
      modifies this
      ensures linkTypes == LinkTypesOf(file)
      ensures Values(artifacts) == ArtifactsOf(file)
    {
      if file.Missing? || file.Unparsable? {
        return;
      }
      var i := 0;
      while i < |file.linkTypeElems|
        invariant 0 <= i <= |file.linkTypeElems| && artifacts == []
        invariant linkTypes == LinkTypesOf(file)[..i]
      {
        var lt := file.linkTypeElems[i];
        linkTypes := linkTypes + [LinkType(Get(lt, "name"), Get(lt, "id"))];
        i := i + 1;
      }
      assert LinkTypesOf(file)[..i] == LinkTypesOf(file);
      if file.store.None? {
        return;
      }
      var elems := file.store.value;
      var k := 0;
      while k < |elems|
        invariant 0 <= k <= |elems| && |artifacts| == k
        invariant linkTypes == LinkTypesOf(file)
        invariant forall j :: 0 <= j < k ==> ArtifactReadable(elems[j]) && artifacts[j].Value() == ArtifactOf(linkTypes, elems[j])
      {
        var artifact, readable := ReadArtifact(linkTypes, elems[k]);
        if !readable {
          LoadEnds(elems, k);
          return;
        }
        artifacts := artifacts + [artifact];
        k := k + 1;
      }
      LoadEnds(elems, k);
    }

    /**
     * One pass of `_load_data`'s artifact loop: a fresh artifact carrying the
     * element's attributes and its links in file order, or `readable` false
     * when one of the links cannot be read.
     */
    static method ReadArtifact(types: seq<LinkType>, elem: ArtifactElem) returns (artifact: TraceabilityArtifact, readable: bool)
      ensures fresh(artifact)
      ensures readable == ArtifactReadable(elem)
      ensures readable ==> artifact.Value() == ArtifactOf(types, elem)
    {
      artifact := new TraceabilityArtifact(Get(elem.attrs, "title"), Get(elem.attrs, "identifier"), Get(elem.attrs, "url"));
      artifact.uuid := Get(elem.attrs, "id");
      artifact.identifier := Get(elem.attrs, "identifier");
      assert artifact.Value() == Header(elem);
      readable := artifact.AddLinks(types, elem.links);
      if readable {
        assert [] + LinksOf(types, elem.links) == LinksOf(types, elem.links);
      }
    }

    /** Whichever way the load ends, the artifacts kept are exactly the loaded prefix. */
    lemma LoadEnds(elems: seq<ArtifactElem>, k: nat)
      requires k <= |elems| && |artifacts| == k
      requires forall j :: 0 <= j < k ==> ArtifactReadable(elems[j]) && artifacts[j].Value() == ArtifactOf(linkTypes, elems[j])
      requires k < |elems| ==> !ArtifactReadable(elems[k])
      ensures Values(artifacts) == LoadedArtifacts(linkTypes, elems)
    {
      var r := LoadedArtifacts(linkTypes, elems);
      assert |r| == k;
    }

    /** `get_artifacts_for_model_element`: the artifacts, in store order, with a link to the element. */
    function GetArtifactsForModelElement(modelElementUuid: Option<string>): (r: seq<TraceabilityArtifact>)
      reads this, set a | a in artifacts
      ensures SubseqOf(r, artifacts)
      ensures forall i :: 0 <= i < |r| ==> r[i] in artifacts && LinksTo(r[i].Value(), modelElementUuid)
      ensures forall i :: 0 <= i < |artifacts| && LinksTo(artifacts[i].Value(), modelElementUuid) ==> artifacts[i] in r
    {
      LinkedTo(artifacts, modelElementUuid)
    }
  }
}
