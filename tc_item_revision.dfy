/**
 * `TcItemRevisionParser`: collects the smw:TcItemRevision extensions of a
 * .capella file into a dictionary keyed by the id of the owning model object,
 * and answers lookups by Teamcenter item and revision id.
 *
 * The XML tree is given as the sequence of elements `root.iter()` visits, each
 * with its attributes and its direct children.
 */
module TcItemRevision {
  import opened Wrappers
  import opened Text

  /** A direct child of a visited element: its tag and attributes. */
  datatype XmlChild = XmlChild(tag: string, attrs: map<string, string>)

  /** One element visited by `root.iter()`, with its direct children in document order. */
  datatype XmlParent = XmlParent(attrs: map<string, string>, children: seq<XmlChild>)

  /** The dictionary built for one TcItemRevision; `url` is the key that may be missing. */
  datatype TcItem = TcItem(
    id: Option<string>,
    tcuid: Option<string>,
    stableTcId: Option<string>,
    itemId: Option<string>,
    revisionId: Option<string>,
    url: Option<string>)

  const XsiType := "{http://www.w3.org/2001/XMLSchema-instance}type"
  const ShowObjectPath := "/#/com.siemens.splm.clientfx.tcui.xrt.showObject?uid="

  /** `os.path.join(base_dir, file)` for a file name taken from a directory listing. */
  function PathJoin(dir: string, name: string): (r: string)
    ensures EndsWith(r, name)
  {
    if dir == [] || dir[|dir| - 1] == '/' then dir + name else dir + "/" + name
  }

  /** The base URL kept by `__init__`: trailing '/' removed, None when not given or empty. */
  function TrimUrl(url: Option<string>): (r: Option<string>)
    ensures r.None? <==> !Truthy(url)
    ensures r.Some? ==> |r.value| <= |url.value| && r.value == url.value[..|r.value|]
    ensures r.Some? ==> forall i :: |r.value| <= i < |url.value| ==> url.value[i] == '/'
    ensures r.Some? && r.value != [] ==> r.value[|r.value| - 1] != '/'
  {
    if Truthy(url) then Some(RStripChar(url.value, '/')) else None
  }

  /** `i` is the first entry of the directory listing that ends in ".capella". */
  predicate FirstCapellaIndex(listing: seq<string>, i: int) {
    0 <= i < |listing| && EndsWith(listing[i], ".capella")
    && forall j :: 0 <= j < i ==> !EndsWith(listing[j], ".capella")
  }

  /** `_find_capella_file` over the listing of the .aird file's directory. */
  method FindCapellaFile(baseDir: string, listing: seq<string>) returns (r: Option<string>)
    ensures r.None? <==> forall j :: 0 <= j < |listing| ==> !EndsWith(listing[j], ".capella")
    ensures r.Some? ==> exists i :: FirstCapellaIndex(listing, i) && r.value == PathJoin(baseDir, listing[i])
  {
    var i := 0;
    while i < |listing|
      invariant 0 <= i <= |listing|
      invariant forall j :: 0 <= j < i ==> !EndsWith(listing[j], ".capella")
    {
      if EndsWith(listing[i], ".capella") {
        assert FirstCapellaIndex(listing, i);
        return Some(PathJoin(baseDir, listing[i]));
      }
      i := i + 1;
    }
    return None;
  }

  /** The child tests of line 94: an `ownedExtensions` element of xsi:type smw:TcItemRevision. */
  predicate IsTcItemRevision(c: XmlChild) {
    c.tag == "ownedExtensions" && Get(c.attrs, XsiType) == Some("smw:TcItemRevision")
  }

  /** The item built for a TcItemRevision child of `parent`, given the trimmed base URL. */
  function MakeItem(url: Option<string>, parent: XmlParent, c: XmlChild): (item: TcItem)
    ensures item.id == Get(parent.attrs, "id") && item.tcuid == Get(c.attrs, "tcuid")
    ensures item.stableTcId == Get(c.attrs, "stableTcId")
    ensures item.itemId == Get(c.attrs, "itemId") && item.revisionId == Get(c.attrs, "revisionId")
    ensures item.url.Some? <==> Truthy(url) && Truthy(item.tcuid)
    ensures item.url.Some? ==> item.url.value == url.value + ShowObjectPath + item.tcuid.value
  {
    var tcuid := Get(c.attrs, "tcuid");
    TcItem(
      Get(parent.attrs, "id"), tcuid, Get(c.attrs, "stableTcId"),
      Get(c.attrs, "itemId"), Get(c.attrs, "revisionId"),
      if Truthy(url) && Truthy(tcuid) then Some(url.value + ShowObjectPath + tcuid.value) else None)
  }

  /** The items the inner loop builds for one parent, in child order. */
  function ChildEntries(url: Option<string>, p: XmlParent, children: seq<XmlChild>): seq<TcItem> {
    if children == [] then []
    else
      var init := ChildEntries(url, p, children[..|children| - 1]);
      var c := children[|children| - 1];
      if IsTcItemRevision(c) then init + [MakeItem(url, p, c)] else init
  }

  /** The items both loops build, in visiting order. */
  function Entries(url: Option<string>, ps: seq<XmlParent>): seq<TcItem> {
    if ps == [] then []
    else
      var p := ps[|ps| - 1];
      Entries(url, ps[..|ps| - 1]) + ChildEntries(url, p, p.children)
  }

  /** An entry is built exactly for each TcItemRevision child. */
  lemma {:induction false} ChildEntriesSource(url: Option<string>, p: XmlParent, children: seq<XmlChild>, e: TcItem)
    ensures e in ChildEntries(url, p, children) <==>
      exists c :: c in children && IsTcItemRevision(c) && e == MakeItem(url, p, c)
  {
    if children != [] {
      var init := children[..|children| - 1];
      ChildEntriesSource(url, p, init, e);
      assert children == init + [children[|children| - 1]];
    }
  }

  /** Every entry comes from a TcItemRevision child of some visited element. */
  lemma {:induction false} EntriesSource(url: Option<string>, ps: seq<XmlParent>, e: TcItem)
    ensures e in Entries(url, ps) <==>
      exists p :: p in ps && e in ChildEntries(url, p, p.children)
  {
    if ps != [] {
      var init := ps[..|ps| - 1];
      EntriesSource(url, init, e);
      assert ps == init + [ps[|ps| - 1]];
    }
  }

  /** The dictionary as its insertion-ordered keys and its key-to-item map. */
  datatype Table = Table(keys: seq<string>, items: map<string, TcItem>)

  /** Keys are distinct and are exactly the map's domain. */
  predicate TableValid(t: Table) {
    NoDup(t.keys) && (forall k :: k in t.items ==> k in t.keys)
    && (forall i :: 0 <= i < |t.keys| ==> t.keys[i] in t.items)
  }

  /** `if parent_id: items[parent_id] = item`: a new key goes last, an existing key keeps its place. */
  function Record(t: Table, e: TcItem): Table {
    if !Truthy(e.id) then t
    else if e.id.value in t.items then Table(t.keys, t.items[e.id.value := e])
    else Table(t.keys + [e.id.value], t.items[e.id.value := e])
  }

  /** Recording the entries one after another. */
  function RecordAll(t: Table, es: seq<TcItem>): Table {
    if es == [] then t else Record(RecordAll(t, es[..|es| - 1]), es[|es| - 1])
  }

  /** Recording keeps the table well formed and only adds keys at the end. */
  lemma {:induction false} RecordAllValid(t: Table, es: seq<TcItem>)
    requires TableValid(t)
    ensures TableValid(RecordAll(t, es))
    ensures |t.keys| <= |RecordAll(t, es).keys| && RecordAll(t, es).keys[..|t.keys|] == t.keys
  {
    if es != [] {
      var u := RecordAll(t, es[..|es| - 1]);
      RecordAllValid(t, es[..|es| - 1]);
      var e := es[|es| - 1];
      if Truthy(e.id) && e.id.value !in u.items {
        NoDupAppend(u.keys, e.id.value);
      }
    }
  }

  /** A key is present iff it was present before or some entry carries it as a non-empty id. */
  lemma {:induction false} RecordAllDomain(t: Table, es: seq<TcItem>, k: string)
    ensures k in RecordAll(t, es).items <==>
      k in t.items || (k != "" && exists i :: 0 <= i < |es| && es[i].id == Some(k))
  {
    if es != [] {
      var init := es[..|es| - 1];
      RecordAllDomain(t, init, k);
      assert forall i :: 0 <= i < |init| ==> init[i] == es[i];
      if k != "" && (exists i :: 0 <= i < |es| && es[i].id == Some(k)) {
        var i :| 0 <= i < |es| && es[i].id == Some(k);
        if i < |init| { assert init[i].id == Some(k); }
      }
    }
  }

  /** When the same id occurs more than once, the last entry with it is the one stored. */
  lemma {:induction false} RecordAllLastWins(t: Table, es: seq<TcItem>, i: nat)
    requires i < |es| && Truthy(es[i].id)
    requires forall j :: i < j < |es| ==> es[j].id != es[i].id
    ensures es[i].id.value in RecordAll(t, es).items
    ensures RecordAll(t, es).items[es[i].id.value] == es[i]
  {
    var init := es[..|es| - 1];
    if i < |init| {
      RecordAllLastWins(t, init, i);
    }
  }

  /** `TcItemRevisionParser`, after `__init__` has run. */
  class TcItemRevisionParser {
    var capellaFilePath: Option<string>
    var teamcenterUrl: Option<string>
    /** `self.items`: keys in insertion order and the key-to-item map. */
    var keys: seq<string>
    var items: map<string, TcItem>

    ghost predicate Valid()
      reads this
    {
      TableValid(Table(keys, items))
    }

    /**
     * `__init__`: the .capella file is looked up in the .aird file's directory
     * listing, the URL is trimmed, and the items are parsed from `document`
     * (the parsed .capella file) only when a .capella file was found.
     */
    constructor (airdDir: string, listing: seq<string>, url: Option<string>, document: seq<XmlParent>)
      ensures Valid()
      ensures teamcenterUrl == TrimUrl(url)
      ensures capellaFilePath.None? <==> forall j :: 0 <= j < |listing| ==> !EndsWith(listing[j], ".capella")
      ensures capellaFilePath.Some? ==> exists i :: FirstCapellaIndex(listing, i) && capellaFilePath.value == PathJoin(airdDir, listing[i])
      ensures Table(keys, items) ==
        if capellaFilePath.Some? then RecordAll(Table([], map[]), Entries(TrimUrl(url), document))
        else Table([], map[])
    {
      var found := FindCapellaFile(airdDir, listing);
      capellaFilePath := found;
      keys := [];
      items := map[];
      teamcenterUrl := TrimUrl(url);
      new;
      if capellaFilePath.Some? {
        ParseCapellaFile(document);
      }
    }

    /** `_parse_capella_file`: the two nested loops over visited elements and their children. */
    method ParseCapellaFile(document: seq<XmlParent>)
      requires Valid()
      modifies this
      ensures Valid()
      ensures capellaFilePath == old(capellaFilePath) && teamcenterUrl == old(teamcenterUrl)
      ensures Table(keys, items) == RecordAll(old(Table(keys, items)), Entries(teamcenterUrl, document))
    {
      ghost var start := Table(keys, items);
      var i := 0;
      while i < |document|
        invariant 0 <= i <= |document|
        invariant capellaFilePath == old(capellaFilePath) && teamcenterUrl == old(teamcenterUrl)
        invariant Table(keys, items) == RecordAll(start, Entries(teamcenterUrl, document[..i]))
      {
        var parent := document[i];
        ParseChildren(parent, start, Entries(teamcenterUrl, document[..i]));
        assert document[..i + 1][..i] == document[..i];
        i := i + 1;
      }
      assert document[..i] == document;
      RecordAllValid(start, Entries(teamcenterUrl, document));
    }

    /** The inner loop of `_parse_capella_file`: each TcItemRevision child of `parent`, in order, is recorded. */
    method ParseChildren(parent: XmlParent, ghost start: Table, ghost before: seq<TcItem>)
      requires Table(keys, items) == RecordAll(start, before)
      modifies this`keys, this`items
      ensures Table(keys, items) == RecordAll(start, before + ChildEntries(teamcenterUrl, parent, parent.children))
    {
      var j := 0;
      assert parent.children[..0] == [];
      assert before + [] == before;
      while j < |parent.children|
        invariant 0 <= j <= |parent.children|
        invariant Table(keys, items) == RecordAll(start, before + ChildEntries(teamcenterUrl, parent, parent.children[..j]))
      {
        var elem := parent.children[j];
        ghost var done := before + ChildEntries(teamcenterUrl, parent, parent.children[..j]);
        assert parent.children[..j + 1][..j] == parent.children[..j];
        if IsTcItemRevision(elem) {
          var item := MakeItem(teamcenterUrl, parent, elem);
          assert (done + [item])[..|done|] == done;
          assert before + ChildEntries(teamcenterUrl, parent, parent.children[..j + 1]) == done + [item];
          if Truthy(item.id) {
            if item.id.value !in items {
              keys := keys + [item.id.value];
            }
            items := items[item.id.value := item];
          }
        }
        j := j + 1;
      }
      assert parent.children[..j] == parent.children;
    }

    /** `get_by_id`: the stored entry, or None. */
    function GetById(id: string): (r: Option<TcItem>)
      reads this
      ensures r.Some? <==> id in items
      ensures r.Some? ==> r.value == items[id]
    {
      Get(items, id)
    }

    /** `all_items`: the stored values, in key insertion order. */
    function AllItems(): (r: seq<TcItem>)
      reads this
      requires Valid()
      ensures |r| == |keys|
      ensures forall v :: v in r <==> exists k :: k in items && items[k] == v
    {
      var ks, m := keys, items;
      var r := seq(|ks|, i requires 0 <= i < |ks| && ks[i] in m => m[ks[i]]);
      assert forall i :: 0 <= i < |r| ==> r[i] == items[keys[i]];
      assert forall v :: v in r ==> exists k :: k in items && items[k] == v by {
        forall v | v in r ensures exists k :: k in items && items[k] == v {
          var i :| 0 <= i < |r| && r[i] == v;
          assert items[keys[i]] == v;
        }
      }
      assert forall k :: k in items ==> items[k] in r by {
        forall k | k in items ensures items[k] in r {
          var i :| 0 <= i < |keys| && keys[i] == k;
          assert r[i] == items[k];
        }
      }
      r
    }

    /** The test of line 142: `data.get` on both ids compared with the arguments. */
    static predicate Matches(item: TcItem, itemId: Option<string>, revisionId: Option<string>) {
      item.itemId == itemId && item.revisionId == revisionId
    }

    /** `find_uuid_by_teamcenter_key`: the first key, in insertion order, whose entry matches. */
    method FindUuidByTeamcenterKey(itemId: Option<string>, revisionId: Option<string>) returns (r: Option<string>)
      requires Valid()
      ensures r.None? <==> forall k :: k in items ==> !Matches(items[k], itemId, revisionId)
      ensures r.Some? ==>
        exists i :: (0 <= i < |keys| && keys[i] == r.value
          && Matches(items[keys[i]], itemId, revisionId)
          && forall l :: 0 <= l < i ==> !Matches(items[keys[l]], itemId, revisionId))
    {
      var i := 0;
      while i < |keys|
        invariant 0 <= i <= |keys|
        invariant forall l :: 0 <= l < i ==> !Matches(items[keys[l]], itemId, revisionId)
      {
        if Matches(items[keys[i]], itemId, revisionId) {
          return Some(keys[i]);
        }
        i := i + 1;
      }
      assert forall k :: k in items ==> exists l :: 0 <= l < |keys| && keys[l] == k;
      return None;
    }

    /**
     * `find_uuid_by_teamcenter_string`: None without a '/'; otherwise the text
     * is split at the first '/' and both halves are stripped before the key lookup.
     */
    method FindUuidByTeamcenterString(s: string) returns (r: Option<string>)
      requires Valid()
      ensures '/' !in s ==> r.None?
      ensures '/' in s ==>
        var i := IndexOf(s, '/');
        (r.None? <==> forall k :: k in items ==> !Matches(items[k], Some(Strip(s[..i])), Some(Strip(s[i + 1..]))))
        && (r.Some? ==> r.value in items && Matches(items[r.value], Some(Strip(s[..i])), Some(Strip(s[i + 1..]))))
    {
      if '/' !in s {
        return None;
      }
      var i := IndexOf(s, '/');
      r := FindUuidByTeamcenterKey(Some(Strip(s[..i])), Some(Strip(s[i + 1..])));
    }
  }
}
