/**
 * The embedding manager of the Capella tools: choosing the API settings,
 * reading and normalising the embedding file, deciding whether that file is
 * still fresh compared with the model files, collecting the objects to embed
 * without repeated uuids, and the text each object is embedded from.
 *
 * The file system is a value (`Disk`): the paths that exist with their
 * modification times, and the parsed JSON of each readable file. Parsing an
 * ISO timestamp and calling the embedding service are function parameters.
 */
module Embeddings {
  import opened Wrappers
  import opened Text

  // ---------------------------------------------------------------------
  // Settings
  // ---------------------------------------------------------------------

  /** One named entry of the model-configuration file. */
  type ConfigEntry = map<string, string>

  /** The model-configuration file: its named entries and its "_default" name. */
  datatype ConfigFile = ConfigFile(defaultName: Option<string>, named: map<string, ConfigEntry>)

  datatype ConfigError = NoConfigNamed(name: string)

  /** The values the secrets store supplies when nothing else does. */
  datatype Secrets = Secrets(apiKey: Option<string>, baseUrl: Option<string>, model: Option<string>)

  /** The API key, base URL and model chosen at construction. */
  datatype Settings = Settings(apiKey: Option<string>, llmUrl: Option<string>, model: Option<string>)

  /** The model every embedding manager ends up using. */
  const EmbeddingModel: string := "text-embedding-3-small"

  /**
   * The configuration entry in force. A non-empty `configName` selects that
   * entry and fails when the file exists but the entry is missing or empty;
   * with no name and no override argument the "_default" entry is used;
   * otherwise (and whenever the file is absent) the entry is empty.
   */
  function SelectConfig(configName: Option<string>, anyOverride: bool, file: Option<ConfigFile>): (r: Result<ConfigEntry, ConfigError>)
    ensures r.Failure? <==> (Truthy(configName) && file.Some?
                              && (configName.value !in file.value.named || file.value.named[configName.value] == map[]))
    ensures r.Failure? ==> r.error == NoConfigNamed(configName.value)
    ensures Truthy(configName) && r.Success? && file.Some? ==> r.value == file.value.named[configName.value]
    ensures r.Success? && r.value != map[] ==> file.Some? && r.value in file.value.named.Values
    ensures !Truthy(configName) && anyOverride ==> r == Success(map[])
    ensures file.None? ==> r == Success(map[])
    ensures !Truthy(configName) && !anyOverride && file.Some? && Truthy(file.value.defaultName) ==>
              r == Success(if file.value.defaultName.value in file.value.named
                           then file.value.named[file.value.defaultName.value] else map[])
    ensures !Truthy(configName) && !anyOverride && file.Some? && !Truthy(file.value.defaultName) ==> r == Success(map[])
  {
    if Truthy(configName) then
      if file.None? then Success(map[])
      else
        var c := if configName.value in file.value.named then file.value.named[configName.value] else map[];
        if c == map[] then Failure(NoConfigNamed(configName.value)) else Success(c)
    else if !anyOverride && file.Some? && Truthy(file.value.defaultName) then
      var n := file.value.defaultName.value;
      Success(if n in file.value.named then file.value.named[n] else map[])
    else
      Success(map[])
  }

  /** The `nonempty` helper's test: present, non-empty and not only whitespace. */
  predicate Usable(v: Option<string>) {
    v.Some? && !IsBlank(v.value)
  }

  /** `nonempty(arg) or nonempty(config) or fallback`. */
  function FirstUsable(arg: Option<string>, config: Option<string>, fallback: Option<string>): (r: Option<string>)
    ensures r == arg || r == config || r == fallback
    ensures r == fallback || Usable(r)
    ensures Usable(arg) ==> r == arg
    ensures !Usable(arg) && Usable(config) ==> r == config
  {
    if Usable(arg) then arg else if Usable(config) then config else fallback
  }

  /**
   * The settings chosen by the constructor before it overrides the model: for
   * each of the three values the argument, else the configuration entry, else
   * the secrets store, where blank values do not count.
   */
  function ResolveSettings(model: Option<string>, baseUrl: Option<string>, apiKey: Option<string>,
                           configName: Option<string>, file: Option<ConfigFile>, secrets: Secrets): (r: Result<Settings, ConfigError>)
    ensures r.Failure? <==> SelectConfig(configName, model.Some? || baseUrl.Some? || apiKey.Some?, file).Failure?
    ensures r.Success? ==>
      var c := SelectConfig(configName, model.Some? || baseUrl.Some? || apiKey.Some?, file).value;
      && r.value.apiKey == FirstUsable(apiKey, Get(c, "api_key"), secrets.apiKey)
      && r.value.llmUrl == FirstUsable(baseUrl, Get(c, "base_url"), secrets.baseUrl)
      && r.value.model == FirstUsable(model, Get(c, "model"), secrets.model)
  {
    var sel := SelectConfig(configName, model.Some? || baseUrl.Some? || apiKey.Some?, file);
    if sel.Failure? then Failure(sel.error)
    else
      var c := sel.value;
      Success(Settings(FirstUsable(apiKey, Get(c, "api_key"), secrets.apiKey),
                       FirstUsable(baseUrl, Get(c, "base_url"), secrets.baseUrl),
                       FirstUsable(model, Get(c, "model"), secrets.model)))
  }

  /** A blank argument is passed over: with nothing usable in the config, the secrets value is taken. */
  lemma BlankArgumentFallsBack(secrets: Secrets)
    ensures var r := ResolveSettings(None, None, Some("   "), None, None, secrets);
            r.Success? && r.value.apiKey == secrets.apiKey
  {
    assert IsBlank("   ");
  }

  // ---------------------------------------------------------------------
  // Paths
  // ---------------------------------------------------------------------

  /** `Path.name`: the text after the last '/'. */
  function BaseName(p: string): (r: string)
    ensures '/' !in r
  {
    p[RFind(p, '/') + 1..]
  }

  /** Everything up to and including the last '/'. */
  function DirPart(p: string): (r: string)
    ensures r == "" || r[|r| - 1] == '/'
  {
    p[..RFind(p, '/') + 1]
  }

  /** A path is its directory part followed by its name. */
  lemma DirThenName(p: string)
    ensures p == DirPart(p) + BaseName(p)
  {
  }

  /** Where `PurePath.suffix` starts: the last '.' when it is neither the first nor the last character of the name, else -1. */
  function SuffixDot(name: string): (i: int)
    ensures -1 <= i < |name|
    ensures i >= 0 ==> 0 < i < |name| - 1 && name[i] == '.'
    ensures i >= 0 ==> forall k :: i < k < |name| ==> name[k] != '.'
    ensures i >= 0 <==> exists k :: 0 < k < |name| - 1 && name[k] == '.' && forall j :: k < j < |name| ==> name[j] != '.'
  {
    var i := RFind(name, '.');
    if 0 < i < |name| - 1 then i else -1
  }

  /** `PurePath.stem` of a name: the name without its suffix. */
  function StemOfName(name: string): (r: string)
    ensures name != "" ==> r != ""
    ensures StartsWith(name, r)
  {
    var i := SuffixDot(name);
    if i >= 0 then name[..i] else name
  }

  /** `Path(p).stem`. */
  function Stem(p: string): string {
    StemOfName(BaseName(p))
  }

  /** `Path(p).with_suffix(s)`: the name's suffix (if any) replaced by `s`. */
  function WithSuffix(p: string, s: string): string {
    DirPart(p) + StemOfName(BaseName(p)) + s
  }

  /** A suffix `with_suffix` accepts and `suffix` gives back: a dot, then at least one character, no other dot or separator. */
  predicate ProperSuffix(s: string) {
    |s| >= 2 && s[0] == '.' && '.' !in s[1..] && '/' !in s
  }

  /** The related model file as the source derives it: strip the suffix, then add another one. */
  function SiblingAsWritten(aird: string, ext: string): string {
    WithSuffix(WithSuffix(aird, ""), ext)
  }

  /** The related model file with the same stem as the .aird file. */
  function Sibling(aird: string, ext: string): string {
    WithSuffix(aird, ext)
  }

  /**
   * For a name with a dot inside its stem, such as "m.v2.aird", the
   * derivation as written loses the part after that dot ("m.capella"), and
   * the corrected one keeps it ("m.v2.capella").
   */
  lemma SiblingAsWrittenLosesDottedStem(dir: string, a: string, inner: string, ext: string)
    requires dir == "" || dir[|dir| - 1] == '/'
    requires a != "" && '/' !in a && ProperSuffix(inner) && ProperSuffix(ext)
    ensures SiblingAsWritten(dir + ((a + inner) + ".aird"), ext) == dir + a + ext
    ensures Sibling(dir + ((a + inner) + ".aird"), ext) == dir + (a + inner) + ext
  {
    var stem := a + inner;
    assert '/' !in stem by {
      assert forall k :: 0 <= k < |stem| ==> stem[k] == (if k < |a| then a[k] else inner[k - |a|]);
    }
    assert ProperSuffix(".aird");
    ReplaceSuffix(dir, stem, ".aird", "");
    assert dir + stem + "" == dir + (a + inner);
    ReplaceSuffix(dir, a, inner, ext);
    ReplaceSuffix(dir, stem, ".aird", ext);
  }

  /** For a stem without a dot the two derivations agree, so the correction changes nothing there. */
  lemma SiblingsAgreeForPlainStem(dir: string, stem: string, ext: string)
    requires dir == "" || dir[|dir| - 1] == '/'
    requires stem != "" && '/' !in stem && '.' !in stem && ProperSuffix(ext)
    ensures SiblingAsWritten(dir + (stem + ".aird"), ext) == Sibling(dir + (stem + ".aird"), ext)
  {
    assert ProperSuffix(".aird");
    ReplaceSuffix(dir, stem, ".aird", "");
    assert dir + stem + "" == dir + stem;
    BaseNameOfJoin(dir, stem);
    assert RFind(stem, '.') == -1;
    WithSuffixShape(dir + stem, ext);
    ReplaceSuffix(dir, stem, ".aird", ext);
  }

  /** Replacing the proper suffix of a name in a directory. */
  lemma ReplaceSuffix(dir: string, stem: string, oldExt: string, newExt: string)
    requires dir == "" || dir[|dir| - 1] == '/'
    requires stem != "" && '/' !in stem && ProperSuffix(oldExt)
    ensures WithSuffix(dir + (stem + oldExt), newExt) == dir + stem + newExt
  {
    SuffixOfStemPlus(stem, oldExt);
    BaseNameOfJoin(dir, stem + oldExt);
    WithSuffixShape(dir + (stem + oldExt), newExt);
  }

  /** The stem of a name whose last '.' is at `i`, neither its first nor its last character. */
  lemma StemAt(name: string, i: nat)
    requires 0 < i < |name| - 1 && name[i] == '.'
    requires forall k :: i < k < |name| ==> name[k] != '.'
    ensures StemOfName(name) == name[..i]
  {
    var j := RFind(name, '.');
    assert j == i;
  }

  /** A name ending in a proper suffix has that suffix. */
  lemma SuffixOfStemPlus(stem: string, ext: string)
    requires stem != "" && '/' !in stem && ProperSuffix(ext)
    ensures BaseName(stem + ext) == stem + ext
    ensures StemOfName(stem + ext) == stem
  {
    var n := stem + ext;
    assert '/' !in n by {
      assert forall k :: 0 <= k < |n| ==> n[k] == (if k < |stem| then stem[k] else ext[k - |stem|]);
    }
    assert "" + n == n;
    BaseNameOfJoin("", n);
    assert n[|stem|] == '.';
    assert forall k :: |stem| < k < |n| ==> n[k] == ext[1..][k - |stem| - 1];
    StemAt(n, |stem|);
    assert n[..|stem|] == stem;
  }

  /** The corrected derivation keeps the stem and puts the requested suffix on it. */
  lemma SiblingKeepsStem(aird: string, ext: string)
    requires BaseName(aird) != "" && ProperSuffix(ext)
    ensures DirPart(Sibling(aird, ext)) == DirPart(aird)
    ensures Stem(Sibling(aird, ext)) == Stem(aird)
    ensures BaseName(Sibling(aird, ext)) == Stem(aird) + ext
  {
    var stem := Stem(aird);
    var name := BaseName(aird);
    assert StartsWith(name, stem);
    assert '/' !in stem by {
      assert forall k :: 0 <= k < |stem| ==> stem[k] == name[k];
    }
    SuffixOfStemPlus(stem, ext);
    BaseNameOfJoin(DirPart(aird), stem + ext);
    WithSuffixShape(aird, ext);
  }

  lemma WithSuffixShape(p: string, s: string)
    ensures WithSuffix(p, s) == DirPart(p) + (Stem(p) + s)
  {
  }

  /** The name of a directory joined with a separator-free name is that name. */
  lemma BaseNameOfJoin(dir: string, name: string)
    requires '/' !in name
    requires dir == "" || dir[|dir| - 1] == '/'
    ensures BaseName(dir + name) == name
    ensures DirPart(dir + name) == dir
  {
    var p := dir + name;
    assert forall k :: |dir| <= k < |p| ==> p[k] == name[k - |dir|];
    var i := RFind(p, '/');
    assert i < |dir|;
    assert dir != "" ==> p[|dir| - 1] == '/';
    assert i == |dir| - 1;
    assert p[i + 1..] == name;
  }

  // ---------------------------------------------------------------------
  // The embedding file
  // ---------------------------------------------------------------------

  /** The metadata object of an embedding file; JSON null is None. */
  type Meta = map<string, Option<string>>

  /** One object to embed, as the collection helpers build it; absent text values are None. */
  datatype EmbeddingObject = EmbeddingObject(
    uuid: Option<string>,
    name: Option<string>,
    typeName: Option<string>,
    phase: Option<string>,
    sourceComponent: Option<string>,
    targetComponent: Option<string>,
    embedding: Option<seq<real>>)

  /** The two shapes of an embedding file: the legacy bare list, or an object with optional "meta" and "items". */
  datatype EmbeddingJson =
    | LegacyList(list: seq<EmbeddingObject>)
    | Document(meta: Option<Meta>, items: Option<seq<EmbeddingObject>>)

  /** What `_read_embedding_file` returns. */
  datatype FileContents = FileContents(meta: Option<Meta>, items: seq<EmbeddingObject>)

  /** What `save_embeddings` writes. */
  function SavedDocument(meta: Meta, items: seq<EmbeddingObject>): EmbeddingJson {
    Document(Some(meta), Some(items))
  }

  /** The shape normalisation: a list has no meta, an object's items default to empty. */
  function ReadEmbeddingFile(data: EmbeddingJson): (r: FileContents)
    ensures data.LegacyList? ==> r.meta == None && r.items == data.list
    ensures data.Document? ==> r.meta == data.meta
    ensures data.Document? && data.items.Some? ==> r.items == data.items.value
    ensures data.Document? && data.items.None? ==> r.items == []
  {
    match data
    case LegacyList(list) => FileContents(None, list)
    case Document(meta, items) => FileContents(meta, if items.Some? then items.value else [])
  }

  /** Reading back what was saved gives the saved meta and items. */
  lemma SavedRoundTrip(meta: Meta, items: seq<EmbeddingObject>)
    ensures ReadEmbeddingFile(SavedDocument(meta, items)) == FileContents(Some(meta), items)
  {
  }

  /** `meta.get(key)` where a missing key and JSON null both give None. */
  function Field(meta: Meta, key: string): (r: Option<string>)
    ensures r.Some? ==> key in meta && meta[key] == r
  {
    if key in meta then meta[key] else None
  }

  /** The meta `save_embeddings` writes. */
  function SavedMeta(createdAt: string, model: string, capellaModelName: string): Meta {
    map["created_at" := Some(createdAt), "llm_model" := Some(model), "capella_model_name" := Some(capellaModelName)]
  }

  /** The meta `get_embedding_file_info` makes up for a file without one. */
  function LegacyMeta(capellaModelName: string): Meta {
    map["created_at" := None, "llm_model" := None, "capella_model_name" := Some(capellaModelName)]
  }

  /** `created.replace("Z", "+00:00")`. */
  function ExpandZulu(s: string): (r: string)
    ensures 'Z' !in r
    ensures 'Z' !in s ==> r == s
  {
    if s == [] then []
    else (if s[0] == 'Z' then "+00:00" else [s[0]]) + ExpandZulu(s[1..])
  }

  /** The disk as the manager sees it: existing paths with their modification times, and the JSON of the files that parse. */
  datatype Disk = Disk(mtime: map<string, real>, json: map<string, EmbeddingJson>)

  /** `os.path.exists(p)`; the empty path never exists. */
  predicate Exists(d: Disk, p: string) {
    p != "" && p in d.mtime
  }

  /** Opening and parsing `p`: None when either raises. */
  function ReadJson(d: Disk, p: string): (r: Option<EmbeddingJson>)
    ensures r.Some? ==> Exists(d, p)
  {
    if Exists(d, p) && p in d.json then Some(d.json[p]) else None
  }

  /** No file of `files` was modified after `t`. */
  predicate NotNewerThan(d: Disk, files: seq<string>, t: real)
    requires forall i :: 0 <= i < |files| ==> files[i] in d.mtime
  {
    forall i :: 0 <= i < |files| ==> d.mtime[files[i]] <= t
  }

  /** The .aird file followed by its .capella and .afm siblings, in the order they are compared. */
  function RelatedFiles(aird: string): seq<string> {
    [aird, Sibling(aird, ".capella"), Sibling(aird, ".afm")]
  }

  /** The timestamp the meta records, when it has one that parses. */
  function CreatedAt(meta: Meta, parseIso: string -> Option<real>): Option<real> {
    var created := Field(meta, "created_at");
    if created.Some? then parseIso(ExpandZulu(created.value)) else None
  }

  /** Both paths are set, and the embedding file and the three model files exist. */
  predicate FilesPresent(embeddingFile: string, modelFile: string, d: Disk) {
    && embeddingFile != "" && modelFile != ""
    && Exists(d, embeddingFile) && Exists(d, modelFile)
    && Exists(d, Sibling(modelFile, ".afm")) && Exists(d, Sibling(modelFile, ".capella"))
  }

  /**
   * The meta allows reuse: it is present and non-empty, names `model` and the
   * Capella model `name`, has a creation time that parses, and no file of
   * `related` is newer than that time.
   */
  predicate MetaCurrent(meta: Option<Meta>, model: string, name: string, d: Disk, related: seq<string>,
                        parseIso: string -> Option<real>)
    requires forall i :: 0 <= i < |related| ==> related[i] in d.mtime
  {
    && meta.Some? && meta.value != map[]
    && Field(meta.value, "llm_model") == Some(model)
    && Field(meta.value, "capella_model_name") == Some(name)
    && CreatedAt(meta.value, parseIso).Some?
    && NotNewerThan(d, related, CreatedAt(meta.value, parseIso).value)
  }

  /**
   * When the embedding file may be reused: the files are present, the
   * embedding file parses, and its meta is current for the model and the
   * .aird stem.
   */
  predicate UpToDate(embeddingFile: string, modelFile: string, model: string, d: Disk, parseIso: string -> Option<real>) {
    && FilesPresent(embeddingFile, modelFile, d)
    && ReadJson(d, embeddingFile).Some?
    && MetaCurrent(ReadEmbeddingFile(ReadJson(d, embeddingFile).value).meta, model, Stem(modelFile), d,
                   RelatedFiles(modelFile), parseIso)
  }

  /** A legacy list file is never considered fresh. */
  lemma LegacyNeverUpToDate(embeddingFile: string, modelFile: string, model: string, d: Disk, parseIso: string -> Option<real>)
    requires ReadJson(d, embeddingFile).Some? && ReadJson(d, embeddingFile).value.LegacyList?
    ensures !UpToDate(embeddingFile, modelFile, model, d, parseIso)
  {
  }

  /** Touching the .aird file after the recorded creation time makes the file stale. */
  lemma TouchedModelIsStale(embeddingFile: string, modelFile: string, model: string, d: Disk,
                            parseIso: string -> Option<real>, t: real)
    requires UpToDate(embeddingFile, modelFile, model, d, parseIso)
    requires t > CreatedAt(ReadEmbeddingFile(ReadJson(d, embeddingFile).value).meta.value, parseIso).value
    requires modelFile != embeddingFile
    ensures !UpToDate(embeddingFile, modelFile, model, d.(mtime := d.mtime[modelFile := t]), parseIso)
  {
    var d' := d.(mtime := d.mtime[modelFile := t]);
    assert ReadJson(d', embeddingFile) == ReadJson(d, embeddingFile);
    assert RelatedFiles(modelFile)[0] == modelFile;
  }

  /** What a save leaves behind is fresh, as long as no model file changes afterwards. */
  lemma SavedFileIsUpToDate(embeddingFile: string, modelFile: string, d: Disk, parseIso: string -> Option<real>,
                            createdAt: string, items: seq<EmbeddingObject>, t: real)
    requires embeddingFile != "" && modelFile != ""
    requires ReadJson(d, embeddingFile) == Some(SavedDocument(SavedMeta(createdAt, EmbeddingModel, Stem(modelFile)), items))
    requires parseIso(ExpandZulu(createdAt)) == Some(t)
    requires forall f :: f in RelatedFiles(modelFile) ==> Exists(d, f) && d.mtime[f] <= t
    ensures UpToDate(embeddingFile, modelFile, EmbeddingModel, d, parseIso)
  {
    var fs := RelatedFiles(modelFile);
    assert fs[0] in fs && fs[1] in fs && fs[2] in fs;
    var meta := SavedMeta(createdAt, EmbeddingModel, Stem(modelFile));
    assert "llm_model" in meta;
  }

  /** What `get_embedding_file_info` reports. */
  datatype FileInfo = FileInfo(path: string, meta: Option<Meta>, count: nat)

  // ---------------------------------------------------------------------
  // Objects to embed
  // ---------------------------------------------------------------------

  /** An f-string field: the text, or "None" for an absent value. */
  function Shown(v: Option<string>): string {
    if v.Some? then v.value else "None"
  }

  /** The five fields the metadata text is made of, in order. */
  function MetadataFields(o: EmbeddingObject): seq<string> {
    [Shown(o.name), Shown(o.typeName), Shown(o.phase), Shown(o.sourceComponent), Shown(o.targetComponent)]
  }

  /** The text an object is embedded from: its five fields joined by single spaces, newlines turned into spaces. */
  function MetadataText(o: EmbeddingObject): (r: string)
    ensures '\n' !in r
    ensures |r| == |Join(" ", MetadataFields(o))|
  {
    var r := ReplaceChar(Join(" ", MetadataFields(o)), '\n', ' ');
    assert forall i :: 0 <= i < |r| ==> r[i] != '\n';
    r
  }

  /**
   * When no field holds a newline, the text is the five fields joined by
   * single spaces; a name without spaces is then the text's first word.
   */
  lemma MetadataTextSplits(o: EmbeddingObject)
    requires forall k :: 0 <= k < 5 ==> '\n' !in MetadataFields(o)[k]
    ensures MetadataText(o) == Join(" ", MetadataFields(o))
    ensures ' ' !in Shown(o.name) ==> Split(MetadataText(o), ' ')[0] == Shown(o.name)
  {
    var f := MetadataFields(o);
    JoinAvoids(" ", f, '\n');
    ReplaceAbsent(Join(" ", f), '\n', ' ');
    assert [' '] == " ";
    assert Join(" ", f) == f[0] + [' '] + Join(" ", f[1..]);
    if ' ' !in Shown(o.name) {
      SplitCons(f[0], ' ', Join(" ", f[1..]));
    }
  }

  /** The uuids of a list of objects, in order. */
  function Uuids(l: seq<EmbeddingObject>): (r: seq<Option<string>>)
    ensures |r| == |l| && forall i :: 0 <= i < |l| ==> r[i] == l[i].uuid
  {
    seq(|l|, i requires 0 <= i < |l| => l[i].uuid)
  }

  lemma UuidsAppend(l: seq<EmbeddingObject>, o: EmbeddingObject)
    ensures Uuids(l + [o]) == Uuids(l) + [o.uuid]
  {
  }

  /** `add_unique_object` on values: append unless an object with the same uuid (None matching None) is listed. */
  function AddUnique(l: seq<EmbeddingObject>, o: EmbeddingObject): (r: seq<EmbeddingObject>)
    ensures o.uuid in Uuids(r)
    ensures |l| <= |r| <= |l| + 1 && r[..|l|] == l
    ensures |r| == |l| + 1 <==> o.uuid !in Uuids(l)
    ensures |r| == |l| + 1 ==> r[|l|] == o
    ensures NoDup(Uuids(l)) ==> NoDup(Uuids(r))
  {
    if o.uuid in Uuids(l) then l
    else
      UuidsAppend(l, o);
      NoDupAppendIf(Uuids(l), o.uuid);
      l + [o]
  }

  lemma NoDupAppendIf<T>(s: seq<T>, x: T)
    requires x !in s
    ensures NoDup(s) ==> NoDup(s + [x])
  {
    if NoDup(s) {
      NoDupAppend(s, x);
    }
  }

  /** The object list after offering `offers` one by one, starting from an empty list. */
  function AddAll(offers: seq<EmbeddingObject>): seq<EmbeddingObject>
    decreases |offers|
  {
    if offers == [] then [] else AddUnique(AddAll(offers[..|offers| - 1]), offers[|offers| - 1])
  }

  /**
   * Offering objects one by one keeps one object per uuid offered, and that
   * object is the first one offered with its uuid.
   */
  lemma {:induction false} AddAllFirstWins(offers: seq<EmbeddingObject>)
    ensures NoDup(Uuids(AddAll(offers)))
    ensures forall u :: u in Uuids(AddAll(offers)) <==> u in Uuids(offers)
    ensures forall x :: x in AddAll(offers) ==> x.uuid in Uuids(offers) && x == offers[FirstIndex(Uuids(offers), x.uuid)]
    decreases |offers|
  {
    if offers != [] {
      var n := |offers|;
      var p := offers[..n - 1];
      var o := offers[n - 1];
      assert offers == p + [o];
      AddAllFirstWins(p);
      var prev := AddAll(p);
      UuidsAppend(p, o);
      assert Uuids(offers) == Uuids(p) + [o.uuid];
      var r := AddAll(offers);
      assert r == AddUnique(prev, o);
      forall x | x in r
        ensures x.uuid in Uuids(offers) && x == offers[FirstIndex(Uuids(offers), x.uuid)]
      {
        if x in prev {
          FirstIndexAppend(Uuids(p), o.uuid, x.uuid);
        } else {
          assert x == o && o.uuid !in Uuids(p);
          var i := FirstIndex(Uuids(offers), o.uuid);
          assert Uuids(offers)[n - 1] == o.uuid;
          assert i == n - 1;
        }
      }
      if o.uuid !in Uuids(prev) {
        UuidsAppend(prev, o);
      }
    }
  }

  /** The first object offered with a uuid is the one kept: a requirement first offered in one phase keeps that phase. */
  lemma FirstOfferKept(offers: seq<EmbeddingObject>, k: nat)
    requires k < |offers|
    requires forall j :: 0 <= j < k ==> offers[j].uuid != offers[k].uuid
    ensures offers[k] in AddAll(offers)
  {
    AddAllFirstWins(offers);
    var u := offers[k].uuid;
    assert Uuids(offers)[k] == u;
    var i := FirstIndex(Uuids(offers), u);
    assert i == k;
    var l := AddAll(offers);
    var m :| 0 <= m < |l| && Uuids(l)[m] == u;
    assert l[m] in l;
  }

  /** A later offer whose uuid was already offered by a different object is dropped. */
  lemma LaterOfferDropped(offers: seq<EmbeddingObject>, j: nat, k: nat)
    requires j < k < |offers|
    requires offers[j].uuid == offers[k].uuid && offers[FirstIndex(Uuids(offers), offers[k].uuid)] != offers[k]
    ensures offers[k] !in AddAll(offers)
  {
    AddAllFirstWins(offers);
    assert Uuids(offers)[k] == offers[k].uuid;
  }

  /** `add_unique_object(obj_list, new_obj)`: the `any` scan, then the conditional append. */
  method AddUniqueObject(objList: seq<EmbeddingObject>, newObj: EmbeddingObject) returns (r: seq<EmbeddingObject>)
    ensures r == AddUnique(objList, newObj)
  {
    var found := false;
    var i := 0;
    while i < |objList| && !found
      invariant 0 <= i <= |objList|
      invariant found <==> newObj.uuid in Uuids(objList)[..i]
    {
      assert Uuids(objList)[..i + 1] == Uuids(objList)[..i] + [objList[i].uuid];
      found := objList[i].uuid == newObj.uuid;
      i := i + 1;
    }
    assert found ==> newObj.uuid in Uuids(objList) by {
      assert found ==> Uuids(objList)[..i] <= Uuids(objList);
    }
    assert !found ==> Uuids(objList)[..i] == Uuids(objList);
    r := objList;
    if !found {
      r := r + [newObj];
    }
  }

  /** The object list `create_model_embeddings` builds: every offer passed through `add_unique_object`, in order. */
  method CollectUnique(offers: seq<EmbeddingObject>) returns (data: seq<EmbeddingObject>)
    ensures data == AddAll(offers)
    ensures NoDup(Uuids(data))
  {
    data := [];
    for k := 0 to |offers|
      invariant data == AddAll(offers[..k])
    {
      assert offers[..k + 1][..k] == offers[..k];
      data := AddUniqueObject(data, offers[k]);
    }
    assert offers[..|offers|] == offers;
    AddAllFirstWins(offers);
  }

  // ---------------------------------------------------------------------
  // The manager
  // ---------------------------------------------------------------------

  class EmbeddingManager {
    var apiKey: Option<string>
    var llmUrl: Option<string>
    var model: string
    var embeddingFile: string
    var modelFile: string
    var embeddings: seq<EmbeddingObject>
    var lastLoadedMeta: Option<Meta>

    /** The constructor once `ResolveSettings` has succeeded; the model is then overridden. */
    constructor (settings: Settings)
      ensures apiKey == settings.apiKey && llmUrl == settings.llmUrl
      ensures model == EmbeddingModel
      ensures embeddingFile == "" && modelFile == ""
      ensures embeddings == [] && lastLoadedMeta == None
    {
      apiKey := settings.apiKey;
      llmUrl := settings.llmUrl;
      model := EmbeddingModel;
      embeddingFile := "";
      modelFile := "";
      embeddings := [];
      lastLoadedMeta := None;
    }

    /** `_capella_model_name_from_aird`: the .aird stem, or "" when no model file is set. */
    function CapellaModelName(): (r: string)
      reads this
      ensures modelFile == "" ==> r == ""
      ensures modelFile != "" ==> r == Stem(modelFile)
    {
      if modelFile == "" then "" else Stem(modelFile)
    }

    method SetFiles(modelFile: string, embeddingFile: string)
      modifies this
      ensures this.modelFile == modelFile && this.embeddingFile == embeddingFile
      ensures apiKey == old(apiKey) && llmUrl == old(llmUrl) && model == old(model)
      ensures embeddings == old(embeddings) && lastLoadedMeta == old(lastLoadedMeta)
    {
      this.modelFile := modelFile;
      this.embeddingFile := embeddingFile;
    }

    /** `is_embedding_up_to_date`: the early-return chain over paths and files, then the checks on the meta. */
    method IsEmbeddingUpToDate(d: Disk, parseIso: string -> Option<real>) returns (b: bool)
      ensures b == UpToDate(embeddingFile, modelFile, model, d, parseIso)
    {
      var aird := modelFile;
      if embeddingFile == "" || aird == "" {
        return false;
      }
      var capellaFile := Sibling(aird, ".capella");
      var afmFile := Sibling(aird, ".afm");
      if !Exists(d, embeddingFile) || !Exists(d, aird) || !Exists(d, afmFile) || !Exists(d, capellaFile) {
        return false;
      }
      var data := ReadJson(d, embeddingFile);
      if data.None? {
        return false;
      }
      var meta := ReadEmbeddingFile(data.value).meta;
      b := CheckMeta(meta, model, CapellaModelName(), d, [aird, capellaFile, afmFile], parseIso);
    }

    /** The part of `is_embedding_up_to_date` after the file has been read: the meta checks and the loop over the model files. */
    static method CheckMeta(meta: Option<Meta>, model: string, expectedName: string, d: Disk, related: seq<string>,
                            parseIso: string -> Option<real>) returns (b: bool)
      requires forall i :: 0 <= i < |related| ==> related[i] in d.mtime
      ensures b == MetaCurrent(meta, model, expectedName, d, related, parseIso)
    {
      if meta.None? || meta.value == map[] {
        return false;
      }
      if Field(meta.value, "llm_model") != Some(model) {
        return false;
      }
      if Field(meta.value, "capella_model_name") != Some(expectedName) {
        return false;
      }
      var created := Field(meta.value, "created_at");
      if created.None? {
        return false;
      }
      var createdTs := parseIso(ExpandZulu(created.value));
      if createdTs.None? {
        return false;
      }
      for i := 0 to |related|
        invariant forall j :: 0 <= j < i ==> d.mtime[related[j]] <= createdTs.value
      {
        if d.mtime[related[i]] > createdTs.value {
          return false;
        }
      }
      return true;
    }

    /** `get_embedding_file_info`; None when reading the file raises. */
    function GetEmbeddingFileInfo(d: Disk): (r: Option<FileInfo>)
      reads this
      ensures !Exists(d, embeddingFile) ==> r == Some(FileInfo(embeddingFile, None, 0))
      ensures Exists(d, embeddingFile) ==> (r.Some? <==> ReadJson(d, embeddingFile).Some?)
      ensures r.Some? ==> r.value.path == embeddingFile
      ensures r.Some? && Exists(d, embeddingFile) ==>
        var c := ReadEmbeddingFile(ReadJson(d, embeddingFile).value);
        && r.value.count == |c.items|
        && r.value.meta == (if c.meta.None? then Some(LegacyMeta(CapellaModelName())) else c.meta)
    {
      if !Exists(d, embeddingFile) then Some(FileInfo(embeddingFile, None, 0))
      else
        var data := ReadJson(d, embeddingFile);
        if data.None? then None
        else
          var c := ReadEmbeddingFile(data.value);
          Some(FileInfo(embeddingFile, if c.meta.None? then Some(LegacyMeta(CapellaModelName())) else c.meta, |c.items|))
    }

    /** `load_embeddings`; `ok` is false (and nothing changes) when opening or parsing raises. */
    method LoadEmbeddings(d: Disk) returns (ok: bool)
      modifies this
      ensures ok <==> ReadJson(d, embeddingFile).Some?
      ensures ok ==> embeddings == ReadEmbeddingFile(ReadJson(d, embeddingFile).value).items
      ensures ok ==> lastLoadedMeta == ReadEmbeddingFile(ReadJson(d, embeddingFile).value).meta
      ensures !ok ==> embeddings == old(embeddings) && lastLoadedMeta == old(lastLoadedMeta)
      ensures apiKey == old(apiKey) && llmUrl == old(llmUrl) && model == old(model)
      ensures embeddingFile == old(embeddingFile) && modelFile == old(modelFile)
    {
      var data := ReadJson(d, embeddingFile);
      if data.None? {
        return false;
      }
      if data.value.LegacyList? {
        embeddings := data.value.list;
        lastLoadedMeta := None;
      } else {
        lastLoadedMeta := data.value.meta;
        embeddings := if data.value.items.Some? then data.value.items.value else [];
      }
      return true;
    }

    /** `generate_object_embeddings`: every object gets the embedding of its metadata text; the list is kept. */
    method GenerateObjectEmbeddings(objects: seq<EmbeddingObject>, embed: string -> seq<real>) returns (r: seq<EmbeddingObject>)
      modifies this
      ensures |r| == |objects|
      ensures forall i :: 0 <= i < |r| ==> r[i] == objects[i].(embedding := Some(embed(MetadataText(objects[i]))))
      ensures embeddings == r
      ensures apiKey == old(apiKey) && llmUrl == old(llmUrl) && model == old(model)
      ensures embeddingFile == old(embeddingFile) && modelFile == old(modelFile) && lastLoadedMeta == old(lastLoadedMeta)
    {
      r := objects;
      for i := 0 to |objects|
        invariant |r| == |objects|
        invariant forall j :: 0 <= j < i ==> r[j] == objects[j].(embedding := Some(embed(MetadataText(objects[j]))))
        invariant forall j :: i <= j < |r| ==> r[j] == objects[j]
      {
        var text := MetadataText(r[i]);
        r := r[i := r[i].(embedding := Some(embed(text)))];
      }
      embeddings := r;
    }
  }
}
