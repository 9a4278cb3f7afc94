/**
 * The chat analyzer of the Capella tools: choosing the API settings, the
 * message list it sends to the chat service (the optional system message,
 * user prompts, attached files, assistant replies), the clean-up of code
 * fences around replies and relation lists, and the graph built from a
 * relation list.
 *
 * The chat service, file reading and HTML clean-up are parameters: the
 * service's reply or error, the text extracted from a file, and a function
 * standing for the HTML clean-up.
 */
module RagManager {
  import opened Wrappers
  import opened Text
  import Embeddings

  // ---------------------------------------------------------------------
  // Settings
  // ---------------------------------------------------------------------

  /** `arg or config or fallback` with Python truthiness. */
  function FirstTruthy(arg: Option<string>, config: Option<string>, fallback: Option<string>): (r: Option<string>)
    ensures r == arg || r == config || r == fallback
    ensures r == fallback || Truthy(r)
    ensures Truthy(arg) ==> r == arg
    ensures !Truthy(arg) && Truthy(config) ==> r == config
  {
    if Truthy(arg) then arg else if Truthy(config) then config else fallback
  }

  /**
   * The settings the analyzer is built with: for each value the argument,
   * else the named or default configuration entry, else the secrets store;
   * a named entry that is missing raises.
   */
  function ResolveSettings(model: Option<string>, baseUrl: Option<string>, apiKey: Option<string>,
                           configName: Option<string>, file: Option<Embeddings.ConfigFile>,
                           secrets: Embeddings.Secrets): (r: Result<Embeddings.Settings, Embeddings.ConfigError>)
    ensures r.Failure? <==> Embeddings.SelectConfig(configName, model.Some? || baseUrl.Some? || apiKey.Some?, file).Failure?
    ensures r.Success? ==>
      var c := Embeddings.SelectConfig(configName, model.Some? || baseUrl.Some? || apiKey.Some?, file).value;
      && r.value.apiKey == FirstTruthy(apiKey, Get(c, "api_key"), secrets.apiKey)
      && r.value.llmUrl == FirstTruthy(baseUrl, Get(c, "base_url"), secrets.baseUrl)
      && r.value.model == FirstTruthy(model, Get(c, "model"), secrets.model)
  {
    var sel := Embeddings.SelectConfig(configName, model.Some? || baseUrl.Some? || apiKey.Some?, file);
    if sel.Failure? then Failure(sel.error)
    else
      var c := sel.value;
      Success(Embeddings.Settings(FirstTruthy(apiKey, Get(c, "api_key"), secrets.apiKey),
                                  FirstTruthy(baseUrl, Get(c, "base_url"), secrets.baseUrl),
                                  FirstTruthy(model, Get(c, "model"), secrets.model)))
  }

  /** A whitespace-only argument wins here, while the embedding manager passes over it. */
  lemma BlankArgumentKept(secrets: Embeddings.Secrets)
    ensures var r := ResolveSettings(None, None, Some("   "), None, None, secrets);
            r.Success? && r.value.apiKey == Some("   ")
    ensures var e := Embeddings.ResolveSettings(None, None, Some("   "), None, None, secrets);
            e.Success? && e.value.apiKey == secrets.apiKey
  {
    assert IsBlank("   ");
  }

  // ---------------------------------------------------------------------
  // Messages
  // ---------------------------------------------------------------------

  datatype Role = System | User | Assistant

  /** One chat message; the content is None when the service returned no text. */
  datatype Message = Message(role: Role, content: Option<string>)

  const SystemPrefix: string := "You are an expert in analyzing YAML files for system design. Here is the YAML file:\n---\n"
  const HtmlRequest: string := " Format the response in .html format."

  /** The system message text wrapping the YAML export. */
  function SystemPrompt(yaml: string): (r: string)
    ensures StartsWith(r, SystemPrefix) && EndsWith(r, "\n---")
    ensures |r| == |SystemPrefix| + |yaml| + 4 && r[|SystemPrefix|..|SystemPrefix| + |yaml|] == yaml
  {
    var r := SystemPrefix + yaml + "\n---";
    assert r[..|SystemPrefix|] == SystemPrefix;
    assert r[|r| - 4..] == "\n---";
    assert r[|SystemPrefix|..|SystemPrefix| + |yaml|] == yaml;
    r
  }

  /** The messages a new analyzer starts with: one system message holding the YAML, or none when there is no YAML. */
  function InitialMessages(yaml: string): (r: seq<Message>)
    ensures |r| == (if yaml == "" then 0 else 1)
    ensures r != [] ==> r[0].role == System && r[0].content == Some(SystemPrompt(yaml))
  {
    if yaml == "" then [] else [Message(System, Some(SystemPrompt(yaml)))]
  }

  /** The text `submit_prompt` sends: the prompt, with the HTML request appended to an initial prompt. */
  function PromptText(prompt: string, isInitial: bool): (r: string)
    ensures StartsWith(r, prompt)
    ensures isInitial ==> EndsWith(r, HtmlRequest) && |r| == |prompt| + |HtmlRequest|
    ensures !isInitial ==> r == prompt
  {
    var r := if isInitial then prompt + HtmlRequest else prompt;
    assert r[..|prompt|] == prompt;
    assert isInitial ==> r[|r| - |HtmlRequest|..] == HtmlRequest;
    r
  }

  /** The text of the message recording an attached file. */
  function FileMessage(path: string, content: string): string {
    "File `" + path + "` was added for analysis:\n---\n" + content + "\n---"
  }

  // ---------------------------------------------------------------------
  // File extensions
  // ---------------------------------------------------------------------

  const AllowedExtensions: set<string> := {".yaml", ".yml", ".txt", ".xml", ".json", ".html", ".pdf", ".docx", ".sysml"}
  const TextBasedExtensions: set<string> := {".yaml", ".yml", ".txt", ".xml", ".json", ".html", ".sysml"}
  const PdfExtensions: set<string> := {".pdf"}
  const DocxExtensions: set<string> := {".docx"}

  /** Every allowed extension is read one of the three ways, so the empty-content fallback is never taken. */
  lemma AllowedIsCovered()
    ensures AllowedExtensions == TextBasedExtensions + PdfExtensions + DocxExtensions
  {
  }

  /** Some character lies strictly between positions `lo` and `hi` and is not a '.'. */
  predicate NonDotBetween(p: string, lo: int, hi: int)
    requires -1 <= lo && hi <= |p|
  {
    exists k :: lo < k < hi && p[k] != '.'
  }

  /**
   * `os.path.splitext(p)[1]`: from the last '.' of the last component, when
   * that component has something other than dots before it; else "".
   */
  function SplitExt(p: string): (r: string)
    ensures r == "" || (r[0] == '.' && EndsWith(p, r))
    ensures forall k :: 0 <= k < |r| ==> r[k] != '/'
    ensures forall k :: 0 < k < |r| ==> r[k] != '.'
    ensures r != "" <==> exists j, k :: 0 <= j < k < |p| && p[j] != '.' && p[k] == '.' && '/' !in p[j..]
  {
    var sepIndex := RFind(p, '/');
    var dotIndex := RFind(p, '.');
    if dotIndex > sepIndex && NonDotBetween(p, sepIndex, dotIndex) then
      assert p[|p| - |p[dotIndex..]|..] == p[dotIndex..];
      p[dotIndex..]
    else ""
  }

  /** A last component made of a dot and dot-free text (a "dot file") has no extension. */
  lemma DotFileHasNoExtension(dir: string, word: string)
    requires dir == "" || dir[|dir| - 1] == '/'
    requires '/' !in word && '.' !in word
    ensures SplitExt(dir + "." + word) == ""
  {
    var p := dir + "." + word;
    assert p[|dir|] == '.';
    assert forall k :: |dir| < k < |p| ==> p[k] == word[k - |dir| - 1];
    assert RFind(p, '.') == |dir|;
    assert RFind(p, '/') < |dir|;
    assert dir != "" ==> p[|dir| - 1] == '/';
  }

  /** A name that does not start with a dot, followed by a dot and dot-free text, has that extension. */
  lemma PlainNameHasExtension(dir: string, stem: string, word: string)
    requires dir == "" || dir[|dir| - 1] == '/'
    requires stem != "" && stem[0] != '.' && '/' !in stem
    requires '/' !in word && '.' !in word
    ensures SplitExt(dir + stem + "." + word) == "." + word
  {
    var p := dir + stem + "." + word;
    var d := |dir| + |stem|;
    assert p[d] == '.';
    assert forall k :: d < k < |p| ==> p[k] == word[k - d - 1];
    assert RFind(p, '.') == d;
    assert forall k :: |dir| <= k < d ==> p[k] == stem[k - |dir|];
    assert RFind(p, '/') < |dir|;
    assert dir != "" ==> p[|dir| - 1] == '/';
    assert p[|dir|] == stem[0];
    assert NonDotBetween(p, RFind(p, '/'), d);
    assert p[d..] == "." + word;
  }

  datatype FileError = UnsupportedFileType(ext: string) | ReadFailed

  /** What the service call raised: the exception's type name and message. */
  datatype ApiError = ApiError(typeName: string, message: string)

  // ---------------------------------------------------------------------
  // Code fences
  // ---------------------------------------------------------------------

  const Fence: string := "```"

  /** `s[len(p):]` when `s` starts with `p`. */
  function DropPrefix(s: string, p: string): (r: string)
    ensures StartsWith(s, p) ==> s == p + r
    ensures !StartsWith(s, p) ==> r == s
  {
    if StartsWith(s, p) then
      assert s == s[..|p|] + s[|p|..];
      s[|p|..]
    else s
  }

  /** `s[:-len(p)]` when `s` ends with `p`. */
  function DropSuffix(s: string, p: string): (r: string)
    ensures EndsWith(s, p) ==> s == r + p
    ensures !EndsWith(s, p) ==> r == s
  {
    if EndsWith(s, p) then
      assert s == s[..|s| - |p|] + s[|s| - |p|..];
      s[..|s| - |p|]
    else s
  }

  /** The three fence-stripping steps of `get_response`, in order. */
  function StripFences(s: string): string {
    DropPrefix(DropSuffix(DropPrefix(s, "```html"), Fence), "```python")
  }

  /** An HTML block between fences comes out as its body. */
  lemma HtmlFenceUnwrapped(body: string)
    requires !StartsWith(body, "```python")
    ensures StripFences("```html" + body + Fence) == body
  {
    var s := "```html" + body + Fence;
    assert s[..7] == "```html";
    var t := DropPrefix(s, "```html");
    assert t == body + Fence;
    assert t[|t| - 3..] == Fence;
    assert DropSuffix(t, Fence) == body;
  }

  /** A Python block between fences comes out as its body. */
  lemma PythonFenceUnwrapped(code: string)
    ensures StripFences("```python" + code + Fence) == code
  {
    var s := "```python" + code + Fence;
    assert s[3] == 'p';
    assert !StartsWith(s, "```html");
    assert s[|s| - 3..] == Fence;
    var t := DropSuffix(s, Fence);
    assert t == "```python" + code;
    assert t[..9] == "```python";
  }

  /** Text without any of the three fences is returned unchanged. */
  lemma UnfencedUnchanged(s: string)
    requires !StartsWith(s, "```html") && !EndsWith(s, Fence) && !StartsWith(s, "```python")
    ensures StripFences(s) == s
  {
  }

  /** `s` has no "```" anywhere. */
  predicate NoFence(s: string) {
    forall i :: 0 <= i < |s| ==> !ContainsAt(s, Fence, i)
  }

  /** `s.replace("```", "")`: occurrences removed left to right. */
  function RemoveFences(s: string): (r: string)
    ensures |r| <= |s|
    ensures s == [] || s[0] != '`' ==> r == [] || (s != [] && r[0] == s[0])
    decreases |s|
  {
    if |s| >= 3 && s[..3] == Fence then RemoveFences(s[3..])
    else if s == [] then []
    else [s[0]] + RemoveFences(s[1..])
  }

  /** No "```" survives the replacement: a group of backticks is removed three at a time, so at most two of it remain. */
  lemma {:induction false} RemoveFencesNoFence(s: string)
    ensures NoFence(RemoveFences(s))
    decreases |s|
  {
    if |s| >= 3 && s[..3] == Fence {
      RemoveFencesNoFence(s[3..]);
    } else if s != [] {
      var t := RemoveFences(s[1..]);
      RemoveFencesNoFence(s[1..]);
      var r := [s[0]] + t;
      assert RemoveFences(s) == r;
      forall i | 1 <= i < |r| ensures !ContainsAt(r, Fence, i) {
        assert i + 3 <= |r| ==> r[i..i + 3] == t[i - 1..i - 1 + 3];
        assert ContainsAt(r, Fence, i) ==> ContainsAt(t, Fence, i - 1);
      }
      if s[0] == '`' {
        SecondAfterBacktick(s);
        assert |t| >= 2 ==> r[1] == t[0] && r[2] == t[1];
      } else {
        assert r[0] == s[0];
      }
    }
  }

  /** After a leading backtick that does not start a fence, the remaining text never yields two more backticks right away. */
  lemma SecondAfterBacktick(s: string)
    requires s != [] && s[0] == '`' && !(|s| >= 3 && s[..3] == Fence)
    ensures var t := RemoveFences(s[1..]); !(|t| >= 2 && t[0] == '`' && t[1] == '`')
  {
    var u := s[1..];
    if |u| >= 2 && u[0] == '`' {
      assert s[..3] == [s[0], u[0], u[1]];
      assert u[1] != '`';
      assert |u| >= 3 ==> u[..3] != Fence;
      assert RemoveFences(u) == [u[0]] + RemoveFences(u[1..]);
      assert u[1..][0] == u[1];
    }
  }

  /** Every slice of fence-free text is fence-free. */
  lemma NoFenceSlice(s: string, a: nat, b: nat)
    requires NoFence(s) && a <= b <= |s|
    ensures NoFence(s[a..b])
  {
    var r := s[a..b];
    forall i | 0 <= i < |r| ensures !ContainsAt(r, Fence, i) {
      if ContainsAt(r, Fence, i) {
        assert |Fence| == 3 && i + 3 <= |r|;
        assert r[i] == s[a + i] && r[i + 1] == s[a + i + 1] && r[i + 2] == s[a + i + 2];
        assert r[i..i + 3] == s[a + i..a + i + 3];
        assert ContainsAt(s, Fence, a + i);
      }
    }
  }

  /** Stripping fence-free text leaves it fence-free. */
  lemma StripKeepsNoFence(s: string)
    requires NoFence(s)
    ensures NoFence(Strip(s))
  {
    NoFenceSlice(s, LeadingSpaces(s), LeadingSpaces(s) + |Strip(s)|);
  }

  /** Whether `c` is an ASCII letter, as `[a-zA-Z]` matches. */
  predicate IsAsciiLetter(c: char) {
    'a' <= c <= 'z' || 'A' <= c <= 'Z'
  }

  /** The end of the run of ASCII letters starting at `k`. */
  function LetterRunEnd(s: string, k: nat): (e: nat)
    requires k <= |s|
    ensures k <= e <= |s|
    ensures forall j :: k <= j < e ==> IsAsciiLetter(s[j])
    ensures e < |s| ==> !IsAsciiLetter(s[e])
    decreases |s| - k
  {
    if k < |s| && IsAsciiLetter(s[k]) then LetterRunEnd(s, k + 1) else k
  }

  /** `re.sub(r"^```[a-zA-Z]*\n", "", s)`: drop an opening fence line naming a language. */
  function DropFenceHeader(s: string): (r: string)
    ensures r == s || |r| < |s|
  {
    if |s| >= 3 && s[..3] == Fence then
      var e := LetterRunEnd(s, 3);
      if e < |s| && s[e] == '\n' then s[e + 1..] else s
    else s
  }

  /** An opening fence line with a language name is dropped whole. */
  lemma FenceHeaderDropped(lang: string, body: string)
    requires forall j :: 0 <= j < |lang| ==> IsAsciiLetter(lang[j])
    ensures DropFenceHeader(Fence + lang + "\n" + body) == body
  {
    var s := Fence + lang + "\n" + body;
    assert s[..3] == Fence;
    assert forall j :: 3 <= j < 3 + |lang| ==> s[j] == lang[j - 3];
    assert s[3 + |lang|] == '\n';
    var e := LetterRunEnd(s, 3);
    assert e == 3 + |lang|;
    assert s[e + 1..] == body;
  }

  /** The relation-list clean-up: strip, drop an opening fence line, remove every fence, strip. */
  function CleanRelationsText(text: string): (r: string)
    ensures NoFence(r)
    ensures r == [] || (!IsSpace(r[0]) && !IsSpace(r[|r| - 1]))
  {
    var removed := RemoveFences(DropFenceHeader(Strip(text)));
    RemoveFencesNoFence(DropFenceHeader(Strip(text)));
    StripKeepsNoFence(removed);
    Strip(removed)
  }

  // ---------------------------------------------------------------------
  // The relation graph
  // ---------------------------------------------------------------------

  /** One (source, target, label) tuple of the relation list. */
  datatype Relation = Relation(source: string, target: string, text: string)

  datatype Edge = Edge(from: string, to: string, text: string)

  /** What the graph builder hands to the network: its nodes in order of addition, and its edges. */
  datatype Network = Network(nodes: seq<string>, edges: seq<Edge>)

  /** The nodes the relations mention, source before target, in list order. */
  function Endpoints(relations: seq<Relation>): (r: seq<string>)
    ensures |r| == 2 * |relations|
    ensures forall i :: 0 <= i < |relations| ==> r[2 * i] == relations[i].source && r[2 * i + 1] == relations[i].target
    decreases |relations|
  {
    if relations == [] then []
    else
      var last := relations[|relations| - 1];
      Endpoints(relations[..|relations| - 1]) + [last.source, last.target]
  }

  /** The endpoints of one more relation are appended at the end. */
  lemma EndpointsSnoc(relations: seq<Relation>, i: nat)
    requires i < |relations|
    ensures Endpoints(relations[..i + 1]) == Endpoints(relations[..i]) + [relations[i].source, relations[i].target]
  {
    assert relations[..i + 1][..i] == relations[..i];
  }

  // ---------------------------------------------------------------------
  // The analyzer
  // ---------------------------------------------------------------------

  class ChatGPTAnalyzer {
    var apiKey: Option<string>
    var llmUrl: Option<string>
    var llmModel: Option<string>
    var yamlContent: string
    var chatActive: bool
    var messages: seq<Message>

    /** The constructor once `ResolveSettings` has succeeded. */
    constructor (settings: Embeddings.Settings, yamlContent: Option<string>)
      ensures apiKey == settings.apiKey && llmUrl == settings.llmUrl && llmModel == settings.model
      ensures this.yamlContent == (if Truthy(yamlContent) then yamlContent.value else "")
      ensures chatActive
      ensures messages == InitialMessages(this.yamlContent)
    {
      apiKey := settings.apiKey;
      llmUrl := settings.llmUrl;
      llmModel := settings.model;
      this.yamlContent := if Truthy(yamlContent) then yamlContent.value else "";
      chatActive := true;
      new;
      messages := [];
      var yaml := this.yamlContent;
      if yaml != "" {
        messages := messages + [Message(System, Some(SystemPrompt(yaml)))];
      }
    }

    /** `submit_prompt`: one user message, with the HTML request when the prompt is an initial one. */
    method SubmitPrompt(userPrompt: string, isInitial: bool)
      modifies this
      ensures messages == old(messages) + [Message(User, Some(PromptText(userPrompt, isInitial)))]
      ensures apiKey == old(apiKey) && llmUrl == old(llmUrl) && llmModel == old(llmModel)
      ensures yamlContent == old(yamlContent) && chatActive == old(chatActive)
    {
      var prompt := if isInitial then userPrompt + HtmlRequest else userPrompt;
      messages := messages + [Message(User, Some(prompt))];
    }

    /** `initial_prompt`. */
    method InitialPrompt(prompt: string)
      modifies this
      ensures messages == old(messages) + [Message(User, Some(prompt + HtmlRequest))]
      ensures apiKey == old(apiKey) && llmUrl == old(llmUrl) && llmModel == old(llmModel)
      ensures yamlContent == old(yamlContent) && chatActive == old(chatActive)
    {
      SubmitPrompt(prompt, true);
    }

    /** `follow_up_prompt`. */
    method FollowUpPrompt(prompt: string)
      modifies this
      ensures messages == old(messages) + [Message(User, Some(prompt))]
      ensures apiKey == old(apiKey) && llmUrl == old(llmUrl) && llmModel == old(llmModel)
      ensures yamlContent == old(yamlContent) && chatActive == old(chatActive)
    {
      SubmitPrompt(prompt, false);
    }

    /**
     * `add_text_file_to_messages`. `content` is the text read or extracted
     * from the file, or None when opening or decoding it raises. On any error
     * the message list is unchanged.
     */
    method AddTextFileToMessages(filepath: string, content: Option<string>) returns (err: Option<FileError>)
      modifies this
      ensures var ext := Lower(SplitExt(filepath));
              && (ext !in AllowedExtensions ==> err == Some(UnsupportedFileType(ext)))
              && (ext in AllowedExtensions && content.None? ==> err == Some(ReadFailed))
              && (ext in AllowedExtensions && content.Some? ==> err == None)
      ensures err.None? ==> messages == old(messages) + [Message(User, Some(FileMessage(filepath, content.value)))]
      ensures err.Some? ==> messages == old(messages)
      ensures apiKey == old(apiKey) && llmUrl == old(llmUrl) && llmModel == old(llmModel)
      ensures yamlContent == old(yamlContent) && chatActive == old(chatActive)
    {
      var ext := Lower(SplitExt(filepath));
      if ext !in AllowedExtensions {
        return Some(UnsupportedFileType(ext));
      }
      if content.None? {
        return Some(ReadFailed);
      }
      messages := messages + [Message(User, Some(FileMessage(filepath, content.value)))];
      return None;
    }

    /**
     * `get_response`. `reply` is the service's answer (its text, or None when
     * it has none) or the error the call raised; `soup` stands for the HTML
     * clean-up. The raw reply is recorded before the fences are stripped.
     */
    method GetResponse(reply: Result<Option<string>, ApiError>, soup: string -> string) returns (out: string)
      modifies this
      ensures reply.Failure? ==> messages == old(messages)
      ensures reply.Failure? ==> out == "Error: " + reply.error.typeName + " – " + reply.error.message
      ensures reply.Success? ==> messages == old(messages) + [Message(Assistant, reply.value)]
      ensures reply.Success? && reply.value.Some? ==> out == soup(StripFences(reply.value.value))
      ensures reply.Success? && reply.value.None? ==>
        out == "Error: AttributeError – 'NoneType' object has no attribute 'startswith'"
      ensures apiKey == old(apiKey) && llmUrl == old(llmUrl) && llmModel == old(llmModel)
      ensures yamlContent == old(yamlContent) && chatActive == old(chatActive)
    {
      if reply.Failure? {
        return "Error: " + reply.error.typeName + " – " + reply.error.message;
      }
      messages := messages + [Message(Assistant, reply.value)];
      if reply.value.None? {
        return "Error: AttributeError – 'NoneType' object has no attribute 'startswith'";
      }
      var assistantMessage := reply.value.value;
      if StartsWith(assistantMessage, "```html") {
        assistantMessage := assistantMessage[7..];
      }
      if EndsWith(assistantMessage, Fence) {
        assistantMessage := assistantMessage[..|assistantMessage| - 3];
      }
      if StartsWith(assistantMessage, "```python") {
        assistantMessage := assistantMessage[9..];
      }
      out := soup(assistantMessage);
    }

    /** Lines 195-198: each of `ends` not yet added becomes a node, once, in order. */
    static method AddNodes(ghost seen: seq<string>, ends: seq<string>, nodes0: seq<string>, added0: set<string>)
      returns (nodes: seq<string>, added: set<string>)
      requires nodes0 == Dedup(seen) && forall x :: x in added0 <==> x in nodes0
      ensures nodes == Dedup(seen + ends) && forall x :: x in added <==> x in nodes
    {
      nodes, added := nodes0, added0;
      assert seen + ends[..0] == seen;
      for k := 0 to |ends|
        invariant nodes == Dedup(seen + ends[..k])
        invariant forall x :: x in added <==> x in nodes
      {
        var node := ends[k];
        assert seen + ends[..k + 1] == (seen + ends[..k]) + [node];
        DedupSnoc(seen + ends[..k], node);
        if node !in added {
          nodes := nodes + [node];
          added := added + {node};
        }
      }
      assert ends[..|ends|] == ends;
    }

    /** `generate_pyvis_graph_from_relations`: each node added once, on first mention; one edge per relation. */
    static method GeneratePyvisGraphFromRelations(relations: seq<Relation>) returns (net: Network)
      ensures net.nodes == Dedup(Endpoints(relations))
      ensures |net.edges| == |relations|
      ensures forall i :: 0 <= i < |relations| ==>
        net.edges[i] == Edge(relations[i].source, relations[i].target, relations[i].text)
    {
      var addedNodes: set<string> := {};
      var nodes: seq<string> := [];
      var edges: seq<Edge> := [];
      for i := 0 to |relations|
        invariant nodes == Dedup(Endpoints(relations[..i]))
        invariant forall x :: x in addedNodes <==> x in nodes
        invariant |edges| == i
        invariant edges == EdgesOf(relations[..i])
      {
        var src, tgt, lbl := relations[i].source, relations[i].target, relations[i].text;
        EndpointsSnoc(relations, i);
        nodes, addedNodes := AddNodes(Endpoints(relations[..i]), [src, tgt], nodes, addedNodes);
        assert relations[..i + 1][..i] == relations[..i];
        edges := edges + [Edge(src, tgt, lbl)];
      }
      assert relations[..|relations|] == relations;
      net := Network(nodes, edges);
    }
  }

  /** The edges line 199 adds: one per relation, in order, labelled with its text. */
  function EdgesOf(relations: seq<Relation>): (r: seq<Edge>)
    ensures |r| == |relations|
    ensures forall i :: 0 <= i < |relations| ==> r[i] == Edge(relations[i].source, relations[i].target, relations[i].text)
  {
    if relations == [] then []
    else
      var last := relations[|relations| - 1];
      EdgesOf(relations[..|relations| - 1]) + [Edge(last.source, last.target, last.text)]
  }

  lemma EdgeEndsListed(relations: seq<Relation>, i: nat)
    requires i < |relations|
    ensures relations[i].source in Endpoints(relations) && relations[i].target in Endpoints(relations)
  {
    var ends := Endpoints(relations);
    assert ends[2 * i] == relations[i].source;
    assert ends[2 * i + 1] == relations[i].target;
  }

  /** The built network has no repeated node and every edge joins two of its nodes. */
  lemma GraphWellFormed(relations: seq<Relation>)
    ensures forall i :: 0 <= i < |relations| ==>
      relations[i].source in Dedup(Endpoints(relations)) && relations[i].target in Dedup(Endpoints(relations))
  {
    forall i | 0 <= i < |relations|
      ensures relations[i].source in Dedup(Endpoints(relations)) && relations[i].target in Dedup(Endpoints(relations))
    {
      EdgeEndsListed(relations, i);
    }
  }
}
