/** TopicsRepository (app/infra/topics_repo.py): topic directories with meta.json,
    nodes.json and workflow.json become topic configurations; a per-chat index maps
    aliases to forum topics, and two caches map aliases and forum thread ids to the
    loaded topics.

    The directory listing and the parsed files are inputs (a directory whose files
    cannot be read or parsed is Unreadable), and so are the results of the bot calls:
    the forum icon stickers, the thread id a create_forum_topic call returns and the
    set of aliases whose edit_forum_topic call succeeds. */
module TopicsRepo {
  import opened Wrappers
  import opened Text
  import opened Json
  import opened Models
  import Templating

  // ---------------------------------------------------------------- _parse_nodes_map

  /** A rule's `param`: a scalar, stringified and stripped; an empty one is None. */
  function ParseParam(v: Value): Option<string> {
    if IsScalar(v) then
      var pv := Strip(ScalarText(v));
      if pv != "" then Some(pv) else None
    else None
  }

  lemma ParseParamMeaning(v: Value)
    ensures var r := ParseParam(v);
      (r.Some? <==> IsScalar(v) && Strip(ScalarText(v)) != "")
      && (r.Some? ==> r.value != "" && NoSpaceEnds(r.value) && (v.Str? ==> r.value == Strip(v.s)))
  {
    if IsScalar(v) {
      var pv := Strip(ScalarText(v));
      assert pv != "" ==> NoSpaceEnds(pv);
    }
  }

  /** The outcome of parsing: the value, a topic that is refused (validation cannot pass
      or the form is not modelled), or an exception that escapes the scan. */
  datatype Parse<T> = Parsed(value: T) | Rejected | Raises

  /** str(v) for the values whose str() this model writes out. */
  predicate HasPyStr(v: Value) {
    IsScalar(v) || v.Null?
  }

  function PyStr(v: Value): string
    requires HasPyStr(v)
  {
    if v.Null? then "None" else ScalarText(v)
  }

  predicate AllStrings(xs: seq<Value>) {
    forall i :: 0 <= i < |xs| ==> xs[i].Str?
  }

  function Strings(xs: seq<Value>): (r: seq<string>)
    requires AllStrings(xs)
    ensures |r| == |xs| && forall i :: 0 <= i < |xs| ==> r[i] == xs[i].s
  {
    seq(|xs|, i requires 0 <= i < |xs| => xs[i].s)
  }

  /** list(s) of a string: its characters. */
  function Chars(s: string): (r: seq<string>)
    ensures |r| == |s| && forall i :: 0 <= i < |s| ==> r[i] == [s[i]]
  {
    seq(|s|, i requires 0 <= i < |s| => [s[i]])
  }

  /** One entry of "nodes". Indexing a non-object, a missing key and list() of a number,
      a bool or null raise; node ids that are not strings can never pass validation. */
  function ParseRule(n: Value): (r: Parse<NodeRule>)
    ensures r.Parsed? ==>
      n.Obj? && "type" in n.fields && "key" in n.fields && "node_ids" in n.fields
      && HasPyStr(n.fields["type"]) && HasPyStr(n.fields["key"])
      && r.value.kind == PyStr(n.fields["type"]) && r.value.key == PyStr(n.fields["key"])
      && r.value.param == ParseParam(Get(n.fields, "param"))
      && (n.fields["node_ids"].Arr? ==> AllStrings(n.fields["node_ids"].items) && r.value.nodeIds == Strings(n.fields["node_ids"].items))
    ensures r.Raises? <==> (!n.Obj? || "type" !in n.fields || "node_ids" !in n.fields || "key" !in n.fields
      || n.fields["node_ids"].Int? || n.fields["node_ids"].Bool? || n.fields["node_ids"].Null?)
  {
    if !n.Obj? || "type" !in n.fields || "node_ids" !in n.fields || "key" !in n.fields then Raises
    else
      var f := n.fields;
      var ids := f["node_ids"];
      if ids.Int? || ids.Bool? || ids.Null? then Raises
      else if !HasPyStr(f["type"]) || !HasPyStr(f["key"]) then Rejected
      else
        var nodeIds: Option<seq<string>> :=
          match ids
          case Arr(xs) => if AllStrings(xs) then Some(Strings(xs)) else None
          case Str(s) => Some(Chars(s))
          case Obj(m) => if m == map[] then Some([]) else None
          case _ => None;
        if nodeIds.None? then Rejected
        else Parsed(NodeRule(PyStr(f["type"]), nodeIds.value, PyStr(f["key"]), ParseParam(Get(f, "param"))))
  }

  /** An exception from any rule escapes; otherwise a refused rule refuses the topic. */
  function AddRule(acc: Parse<seq<NodeRule>>, r: Parse<NodeRule>): Parse<seq<NodeRule>> {
    if acc.Raises? || r.Raises? then Raises
    else if acc.Rejected? || r.Rejected? then Rejected
    else Parsed(acc.value + [r.value])
  }

  function ParseRules(items: seq<Value>): Parse<seq<NodeRule>>
    decreases |items|
  {
    if |items| == 0 then Parsed([])
    else AddRule(ParseRules(items[..|items| - 1]), ParseRule(items[|items| - 1]))
  }

  /** An exception in any entry escapes. */
  lemma {:induction false} ParseRulesRaises(items: seq<Value>)
    ensures ParseRules(items).Raises? <==> exists i :: 0 <= i < |items| && ParseRule(items[i]).Raises?
    decreases |items|
  {
    if |items| > 0 {
      var pre := items[..|items| - 1];
      ParseRulesRaises(pre);
      assert forall i :: 0 <= i < |pre| ==> pre[i] == items[i];
    }
  }

  /** The outcome of each entry on its own. */
  function Outcomes(items: seq<Value>): (ps: seq<Parse<NodeRule>>)
    ensures |ps| == |items| && forall i :: 0 <= i < |items| ==> ps[i] == ParseRule(items[i])
  {
    seq(|items|, i requires 0 <= i < |items| => ParseRule(items[i]))
  }

  /** The loop of _parse_nodes_map over outcomes already computed. */
  function FoldRules(ps: seq<Parse<NodeRule>>): Parse<seq<NodeRule>>
    decreases |ps|
  {
    if |ps| == 0 then Parsed([]) else AddRule(FoldRules(ps[..|ps| - 1]), ps[|ps| - 1])
  }

  lemma {:induction false} ParseRulesIsFold(items: seq<Value>)
    ensures ParseRules(items) == FoldRules(Outcomes(items))
    decreases |items|
  {
    if |items| > 0 {
      var pre := items[..|items| - 1];
      ParseRulesIsFold(pre);
      assert Outcomes(items)[..|items| - 1] == Outcomes(pre);
    }
  }

  lemma {:induction false} FoldParsed(ps: seq<Parse<NodeRule>>)
    ensures FoldRules(ps).Parsed? <==> forall i :: 0 <= i < |ps| ==> ps[i].Parsed?
    decreases |ps|
  {
    if |ps| > 0 {
      var pre := ps[..|ps| - 1];
      FoldParsed(pre);
      assert forall i :: 0 <= i < |pre| ==> pre[i] == ps[i];
    }
  }

  /** The rules parse exactly when every entry does. */
  lemma ParseRulesDefined(items: seq<Value>)
    ensures ParseRules(items).Parsed? <==> forall i :: 0 <= i < |items| ==> ParseRule(items[i]).Parsed?
  {
    ParseRulesIsFold(items);
    FoldParsed(Outcomes(items));
  }

  /** A parsed list holds the rules of the entries, in order. */
  lemma {:induction false} ParseRulesParsed(items: seq<Value>)
    ensures ParseRules(items).Parsed? ==>
      |ParseRules(items).value| == |items|
      && forall i :: 0 <= i < |items| ==> ParseRule(items[i]).Parsed? && ParseRules(items).value[i] == ParseRule(items[i]).value
    decreases |items|
  {
    if |items| > 0 {
      var pre := items[..|items| - 1];
      ParseRulesParsed(pre);
      assert forall i :: 0 <= i < |pre| ==> pre[i] == items[i];
      if ParseRules(items).Parsed? {
        var rs := ParseRules(items).value;
        assert rs == ParseRules(pre).value + [ParseRule(items[|items| - 1]).value];
      }
    }
  }

  /** `data.get("defaults", {}) or {}` for an object or a falsy value. */
  function ObjOrEmpty(v: Value): map<string, Value> {
    if v.Obj? then v.fields else map[]
  }

  /** What `for n in data.get("nodes", [])` iterates: a list, an empty string or object,
      or a missing key; a non-empty string or object yields strings, whose indexing
      raises, and anything else is not iterable. */
  function RuleEntries(data: map<string, Value>): Option<seq<Value>> {
    if "nodes" !in data then Some([])
    else match data["nodes"]
      case Arr(xs) => Some(xs)
      case Str(s) => if s == "" then Some([]) else None
      case Obj(m) => if m == map[] then Some([]) else None
      case _ => None
  }

  function ParseNodesMap(data: map<string, Value>): Parse<NodesMap> {
    match RuleEntries(data)
    case None => Raises
    case Some(items) =>
      match ParseRules(items)
      case Parsed(rules) => Parsed(NodesMap(rules, ObjOrEmpty(Get(data, "defaults"))))
      case Rejected => Rejected
      case Raises => Raises
  }

  /** _parse_nodes_map with its loop. */
  method ParseNodesMapLoop(data: map<string, Value>) returns (r: Parse<NodesMap>)
    ensures r == ParseNodesMap(data)
  {
    var entries := RuleEntries(data);
    if entries.None? {
      return Raises;
    }
    var items := entries.value;
    var acc: Parse<seq<NodeRule>> := Parsed([]);
    var i := 0;
    while i < |items|
      invariant 0 <= i <= |items|
      invariant acc == ParseRules(items[..i]) && !acc.Raises?
    {
      var rule := ParseRule(items[i]);
      assert items[..i + 1][..i] == items[..i];
      if rule.Raises? {
        RaisesSticks(items, i + 1);
        return Raises;
      }
      acc := AddRule(acc, rule);
      i := i + 1;
    }
    assert items[..|items|] == items;
    if acc.Rejected? {
      return Rejected;
    }
    r := Parsed(NodesMap(acc.value, ObjOrEmpty(Get(data, "defaults"))));
  }

  lemma {:induction false} RaisesSticks(items: seq<Value>, k: nat)
    requires k <= |items| && ParseRules(items[..k]).Raises?
    ensures ParseRules(items).Raises?
    decreases |items| - k
  {
    if k < |items| {
      assert items[..k + 1][..k] == items[..k];
      RaisesSticks(items, k + 1);
    } else {
      assert items[..k] == items;
    }
  }

  // ---------------------------------------------------------------- _validate_nodes_vs_workflow

  /** `"inputs" in node`: a key of an object, an element of a list, a substring of a
      string; for any other value `in` raises, which refuses the topic too. */
  predicate NodeHasInputsEntry(node: Value) {
    match node
    case Obj(m) => "inputs" in m
    case Arr(xs) => Str("inputs") in xs
    case Str(s) => Contains(s, "inputs")
    case _ => false
  }

  predicate RefOk(wf: map<string, Value>, nid: string) {
    nid in wf && NodeHasInputsEntry(wf[nid])
  }

  function FirstBadRefIn(wf: map<string, Value>, ids: seq<string>): (r: Option<string>)
    ensures r.None? <==> forall i :: 0 <= i < |ids| ==> RefOk(wf, ids[i])
    ensures r.Some? ==> r.value in ids && !RefOk(wf, r.value)
  {
    if |ids| == 0 then None
    else if !RefOk(wf, ids[0]) then Some(ids[0])
    else FirstBadRefIn(wf, ids[1..])
  }

  /** The node id the ValueError names, or None when the workflow passes. */
  function FirstBadRef(wf: map<string, Value>, rules: seq<NodeRule>): (r: Option<string>)
    ensures r.None? <==> forall i, j :: 0 <= i < |rules| && 0 <= j < |rules[i].nodeIds| ==> RefOk(wf, rules[i].nodeIds[j])
    ensures r.Some? ==> (exists i :: 0 <= i < |rules| && r.value in rules[i].nodeIds) && !RefOk(wf, r.value)
  {
    if |rules| == 0 then None
    else match FirstBadRefIn(wf, rules[0].nodeIds)
      case Some(nid) => Some(nid)
      case None =>
        var r := FirstBadRef(wf, rules[1..]);
        assert forall i :: 1 <= i < |rules| ==> rules[i] == rules[1..][i - 1];
        r
  }

  /** On a validated topic whose referenced nodes are objects with an "inputs" object,
      every rule of prepare_workflow can write each of its nodes. */
  lemma ValidatedRulesApply(wf: map<string, Value>, rules: seq<NodeRule>, i: nat, key: string, v: Value)
    requires FirstBadRef(wf, rules).None? && i < |rules|
    requires forall n :: n in wf && wf[n].Obj? && "inputs" in wf[n].fields ==> wf[n].fields["inputs"].Obj?
    ensures Templating.SetAll(wf, rules[i].nodeIds, key, v).Success? <==>
      forall j :: 0 <= j < |rules[i].nodeIds| ==> wf[rules[i].nodeIds[j]].Obj?
  {
    var nids := rules[i].nodeIds;
    Templating.SetAllMeaning(wf, nids, key, v);
    assert forall j :: 0 <= j < |nids| ==> RefOk(wf, nids[j]);
    assert forall n :: n in nids <==> exists j :: 0 <= j < |nids| && nids[j] == n;
  }

  // ---------------------------------------------------------------- scan

  /** A topic directory as the scan sees it: unreadable (a missing file or bad JSON,
      caught at lines 114-120), or the JSON documents of meta.json and nodes.json, which
      may be any JSON value, and the workflow object. */
  datatype TopicFiles =
    | Unreadable
    | Files(path: string, meta: Value, nodes: Value, workflow: map<string, Value>)

  /** _parse_nodes_map of a nodes.json document: one that is not an object has no
      `.get`, so the call raises before any rule is read. */
  function NodesOf(f: TopicFiles): Parse<NodesMap>
    requires f.Files?
  {
    if f.nodes.Obj? then ParseNodesMap(f.nodes.fields) else Raises
  }

  /** os.path.join(path, name) */
  function JoinPath(path: string, name: string): string {
    if path == "" then name else if path[|path| - 1] == '/' then path + name else path + "/" + name
  }

  /** `meta.get("title") or alias` for a string title. */
  function TitleOf(v: Value, alias: string): (r: string)
    ensures v.Str? && v.s != "" ==> r == v.s
    ensures !Truthy(v) ==> r == alias
  {
    if v.Str? && v.s != "" then v.s else alias
  }

  /** `meta.get(key) or None` for a string value. */
  function NonEmptyStr(v: Value): (r: Option<string>)
    ensures r.Some? <==> v.Str? && v.s != ""
  {
    if v.Str? && v.s != "" then Some(v.s) else None
  }

  predicate NonEmpty(o: Option<string>) {
    o.Some? && o.value != ""
  }

  /** `[str(x).lower() for x in raw if isinstance(x, (str, int, float, bool))]` */
  function LowerScalars(xs: seq<Value>): (r: seq<string>)
    ensures |r| <= |xs|
    ensures forall i :: 0 <= i < |r| ==> Lower(r[i]) == r[i]
    decreases |xs|
  {
    if |xs| == 0 then []
    else
      var rest := LowerScalars(xs[1..]);
      if IsScalar(xs[0]) then
        LowerIdempotent(ScalarText(xs[0]));
        [Lower(ScalarText(xs[0]))] + rest
      else rest
  }

  lemma LowerIdempotent(s: string)
    ensures Lower(Lower(s)) == Lower(s)
  {
  }

  /** A list becomes its lower-cased scalars; anything else means every key is allowed. */
  function AllowedOf(v: Value): (r: Option<seq<string>>)
    ensures r.Some? <==> v.Arr?
    ensures r.Some? ==> forall i :: 0 <= i < |r.value| ==> Lower(r.value[i]) == r.value[i]
  {
    if v.Arr? then Some(LowerScalars(v.items)) else None
  }

  /** `(index.get(alias) or {}).get(key)` when the record is an object. */
  function RecordField(index: map<string, Value>, alias: string, key: string): Value {
    var rec := Get(index, alias);
    if rec.Obj? then Get(rec.fields, key) else Null
  }

  /** The index's topic id when it is an int; a bool is an int in Python. */
  function TopicIdOf(index: map<string, Value>, alias: string): (r: Option<int>)
    ensures r.Some? <==> IsPyInt(RecordField(index, alias, "topic_id"))
  {
    var t := RecordField(index, alias, "topic_id");
    if IsPyInt(t) then Some(PyIntValue(t)) else None
  }

  /** The configuration scan builds for a topic whose rules parsed and validated. */
  function TopicOf(alias: string, f: TopicFiles, nm: NodesMap, index: map<string, Value>): (cfg: TopicConfig)
    requires f.Files? && f.meta.Obj?
    ensures cfg.alias == alias && cfg.nodesMap == nm && cfg.workflow == f.workflow
    ensures cfg.title == TitleOf(Get(f.meta.fields, "title"), alias)
    ensures cfg.inlineAllowed == AllowedOf(Get(f.meta.fields, "inline_allowed"))
    ensures cfg.inlineLimits == (if Get(f.meta.fields, "inline_limits").Obj? then Get(f.meta.fields, "inline_limits").fields else map[])
    ensures cfg.emoji == NonEmptyStr(Get(f.meta.fields, "emoji"))
    ensures cfg.iconCustomEmojiId == NonEmptyStr(Get(f.meta.fields, "icon_custom_emoji_id"))
    ensures cfg.topicId == TopicIdOf(index, alias)
  {
    var m := f.meta.fields;
    TopicConfig(
      alias := alias,
      title := TitleOf(Get(m, "title"), alias),
      description := if Get(m, "description").Str? then Some(Get(m, "description").s) else None,
      topicId := TopicIdOf(index, alias),
      permissions := ObjOrEmpty(Get(m, "permissions")),
      defaults := ObjOrEmpty(Get(m, "defaults")),
      paths := map["workflow" := JoinPath(f.path, "workflow.json"), "nodes" := JoinPath(f.path, "nodes.json"),
                   "meta" := JoinPath(f.path, "meta.json")],
      emoji := NonEmptyStr(Get(m, "emoji")),
      iconCustomEmojiId := NonEmptyStr(Get(m, "icon_custom_emoji_id")),
      inlineAllowed := AllowedOf(Get(m, "inline_allowed")),
      inlineLimits := ObjOrEmpty(Get(m, "inline_limits")),
      workflow := f.workflow,
      nodesMap := nm)
  }

  /** One directory of scan as written: a topic, a skipped directory, or an exception
      that ends the whole scan. Two calls sit outside the trys: _parse_nodes_map (line
      121) and the first `meta.get` (line 127), which raises when meta.json is not an
      object. */
  datatype TopicOutcome = Loaded(cfg: TopicConfig) | Skipped | Aborts

  function LoadTopicAsWritten(alias: string, f: TopicFiles, index: map<string, Value>): TopicOutcome {
    if f.Unreadable? then Skipped
    else match NodesOf(f)
      case Raises => Aborts
      case Rejected => Skipped
      case Parsed(nm) =>
        if FirstBadRef(f.workflow, nm.nodes).Some? then Skipped
        else if !f.meta.Obj? then Aborts
        else Loaded(TopicOf(alias, f, nm, index))
  }

  /** One directory once every failure skips its topic, as the read errors and the
      validation errors already do. */
  function LoadTopic(alias: string, f: TopicFiles, index: map<string, Value>): (r: Option<TopicConfig>)
    ensures r.Some? ==> r.value.alias == alias
  {
    if f.Unreadable? then None
    else match NodesOf(f)
      case Parsed(nm) =>
        if FirstBadRef(f.workflow, nm.nodes).None? && f.meta.Obj? then Some(TopicOf(alias, f, nm, index)) else None
      case _ => None
  }

  /** A topic loads exactly when its files were read, its rules parsed, the workflow
      passed validation and meta.json is an object; scan as written aborts on a raising
      nodes.json and on a non-object meta.json of a validated topic, and agrees with
      the corrected load everywhere else. */
  lemma LoadTopicMeaning(alias: string, f: TopicFiles, index: map<string, Value>)
    ensures var r := LoadTopic(alias, f, index);
      (r.Some? <==> f.Files? && NodesOf(f).Parsed? && FirstBadRef(f.workflow, NodesOf(f).value.nodes).None? && f.meta.Obj?)
      && (r.Some? ==> r.value == TopicOf(alias, f, NodesOf(f).value, index))
      && (LoadTopicAsWritten(alias, f, index) != Aborts ==> (r.Some? <==> LoadTopicAsWritten(alias, f, index).Loaded?))
      && (LoadTopicAsWritten(alias, f, index).Loaded? ==> r == Some(LoadTopicAsWritten(alias, f, index).cfg))
      && (LoadTopicAsWritten(alias, f, index).Aborts? <==>
            f.Files? && (NodesOf(f).Raises?
                         || (NodesOf(f).Parsed? && FirstBadRef(f.workflow, NodesOf(f).value.nodes).None? && !f.meta.Obj?)))
      && (f.Files? && !f.nodes.Obj? ==> LoadTopicAsWritten(alias, f, index).Aborts?)
  {
  }

  /** A validated topic references only workflow nodes that have "inputs". */
  lemma LoadedTopicIsValid(alias: string, f: TopicFiles, index: map<string, Value>)
    requires LoadTopic(alias, f, index).Some?
    ensures var cfg := LoadTopic(alias, f, index).value;
      forall i, j :: 0 <= i < |cfg.nodesMap.nodes| && 0 <= j < |cfg.nodesMap.nodes[i].nodeIds| ==>
        RefOk(cfg.workflow, cfg.nodesMap.nodes[i].nodeIds[j])
  {
    LoadTopicMeaning(alias, f, index);
  }

  type TopicDir = (string, TopicFiles)

  predicate DistinctDirs(dirs: seq<TopicDir>) {
    forall i, j :: 0 <= i < j < |dirs| ==> dirs[i].0 != dirs[j].0
  }

  /** scan as written: any parse exception ends it. */
  function ScanAsWritten(dirs: seq<TopicDir>, index: map<string, Value>): Option<seq<TopicConfig>>
    decreases |dirs|
  {
    if |dirs| == 0 then Some([])
    else match LoadTopicAsWritten(dirs[0].0, dirs[0].1, index)
      case Aborts => None
      case Skipped => ScanAsWritten(dirs[1..], index)
      case Loaded(cfg) =>
        match ScanAsWritten(dirs[1..], index)
        case None => None
        case Some(rest) => Some([cfg] + rest)
  }

  /** scan: the topics that load, in directory order. */
  function Scan(dirs: seq<TopicDir>, index: map<string, Value>): (r: seq<TopicConfig>)
    ensures |r| <= |dirs|
    decreases |dirs|
  {
    if |dirs| == 0 then []
    else
      var rest := Scan(dirs[1..], index);
      match LoadTopic(dirs[0].0, dirs[0].1, index)
      case Some(cfg) => [cfg] + rest
      case None => rest
  }

  /** The scan keeps exactly the topics that load: a bad directory loses only its own
      topic. */
  lemma {:induction false} ScanMembers(dirs: seq<TopicDir>, index: map<string, Value>, c: TopicConfig)
    ensures c in Scan(dirs, index) <==> exists i :: 0 <= i < |dirs| && LoadTopic(dirs[i].0, dirs[i].1, index) == Some(c)
    decreases |dirs|
  {
    if |dirs| > 0 {
      ScanMembers(dirs[1..], index, c);
      if exists i :: 0 <= i < |dirs[1..]| && LoadTopic(dirs[1..][i].0, dirs[1..][i].1, index) == Some(c) {
        var i :| 0 <= i < |dirs[1..]| && LoadTopic(dirs[1..][i].0, dirs[1..][i].1, index) == Some(c);
        assert dirs[i + 1] == dirs[1..][i];
      }
      if exists i :: 0 <= i < |dirs| && LoadTopic(dirs[i].0, dirs[i].1, index) == Some(c) {
        var i :| 0 <= i < |dirs| && LoadTopic(dirs[i].0, dirs[i].1, index) == Some(c);
        if i > 0 {
          assert dirs[1..][i - 1] == dirs[i];
        }
      }
    }
  }

  /** As written, one exception makes the scan fail; otherwise it agrees with the scan
      that skips bad topics. */
  lemma {:induction false} ScanAsWrittenMeaning(dirs: seq<TopicDir>, index: map<string, Value>)
    ensures ScanAsWritten(dirs, index).None? <==> exists i :: 0 <= i < |dirs| && LoadTopicAsWritten(dirs[i].0, dirs[i].1, index).Aborts?
    ensures ScanAsWritten(dirs, index).Some? ==> ScanAsWritten(dirs, index).value == Scan(dirs, index)
    decreases |dirs|
  {
    if |dirs| > 0 {
      ScanAsWrittenMeaning(dirs[1..], index);
      LoadTopicMeaning(dirs[0].0, dirs[0].1, index);
      assert forall i :: 1 <= i < |dirs| ==> dirs[i] == dirs[1..][i - 1];
    }
  }

  /** A rule entry without "type" in one topic's nodes.json makes the scan as written
      lose every other topic, while the corrected scan keeps the good one. */
  lemma OneBadRuleLosesAllTopics()
    ensures var good := Files("topics/a", Obj(map[]), Obj(map[]), map[]);
      var bad := Files("topics/b", Obj(map[]), Obj(map["nodes" := Arr([Obj(map[])])]), map[]);
      var dirs := [("a", good), ("b", bad)];
      LoadTopic("a", good, map[]).Some?
      && ScanAsWritten(dirs, map[]).None?
      && Scan(dirs, map[]) == [LoadTopic("a", good, map[]).value]
  {
    var good := Files("topics/a", Obj(map[]), Obj(map[]), map[]);
    var bad := Files("topics/b", Obj(map[]), Obj(map["nodes" := Arr([Obj(map[])])]), map[]);
    var dirs := [("a", good), ("b", bad)];
    assert [Obj(map[])][..0] == [];
    assert ParseRules([Obj(map[])]).Raises?;
    assert LoadTopicAsWritten("b", bad, map[]).Aborts?;
    assert dirs[1..] == [("b", bad)];
    assert dirs[1..][1..] == [];
  }

  /** A meta.json holding a list instead of an object loses every topic the same way,
      once that topic has passed validation. */
  lemma NonObjectMetaLosesAllTopics()
    ensures var good := Files("topics/a", Obj(map[]), Obj(map[]), map[]);
      var bad := Files("topics/b", Arr([]), Obj(map[]), map[]);
      var dirs := [("a", good), ("b", bad)];
      LoadTopic("a", good, map[]).Some?
      && ScanAsWritten(dirs, map[]).None?
      && Scan(dirs, map[]) == [LoadTopic("a", good, map[]).value]
  {
    var good := Files("topics/a", Obj(map[]), Obj(map[]), map[]);
    var bad := Files("topics/b", Arr([]), Obj(map[]), map[]);
    var dirs := [("a", good), ("b", bad)];
    assert LoadTopicAsWritten("b", bad, map[]).Aborts?;
    assert dirs[1..] == [("b", bad)];
    assert dirs[1..][1..] == [];
  }

  function DirNames(dirs: seq<TopicDir>): set<string> {
    set d | d in dirs :: d.0
  }

  /** The scanned aliases are distinct directory names when the names are distinct. */
  lemma {:induction false} ScanDistinct(dirs: seq<TopicDir>, index: map<string, Value>)
    requires DistinctDirs(dirs)
    ensures DistinctAliases(Scan(dirs, index)) && AliasSet(Scan(dirs, index)) <= DirNames(dirs)
    decreases |dirs|
  {
    if |dirs| > 0 {
      var rest := Scan(dirs[1..], index);
      assert DistinctDirs(dirs[1..]) by {
        forall i, j | 0 <= i < j < |dirs[1..]| ensures dirs[1..][i].0 != dirs[1..][j].0 {
          assert dirs[1..][i] == dirs[i + 1] && dirs[1..][j] == dirs[j + 1];
        }
      }
      ScanDistinct(dirs[1..], index);
      assert dirs[0].0 !in DirNames(dirs[1..]) by {
        forall d | d in dirs[1..] ensures d.0 != dirs[0].0 {
          var k :| 0 <= k < |dirs[1..]| && dirs[1..][k] == d;
          assert dirs[k + 1] == d;
        }
      }
      assert DirNames(dirs) == {dirs[0].0} + DirNames(dirs[1..]) by {
        assert dirs == [dirs[0]] + dirs[1..];
      }
      var lt := LoadTopic(dirs[0].0, dirs[0].1, index);
      if lt.Some? {
        assert Scan(dirs, index) == [lt.value] + rest;
        DistinctCons(lt.value, rest);
      }
    }
  }

  lemma DistinctCons(c: TopicConfig, rest: seq<TopicConfig>)
    requires DistinctAliases(rest) && c.alias !in AliasSet(rest)
    ensures DistinctAliases([c] + rest) && AliasSet([c] + rest) == {c.alias} + AliasSet(rest)
  {
    var r := [c] + rest;
    assert forall x :: x in r <==> x == c || x in rest;
    forall a, b | 0 <= a < b < |r| ensures r[a].alias != r[b].alias {
      assert r[b] == rest[b - 1];
      assert r[b].alias in AliasSet(rest);
      if a > 0 {
        assert r[a] == rest[a - 1];
      }
    }
  }

  predicate DistinctAliases(cfgs: seq<TopicConfig>) {
    forall i, j :: 0 <= i < j < |cfgs| ==> cfgs[i].alias != cfgs[j].alias
  }

  function AliasSet(cfgs: seq<TopicConfig>): set<string> {
    set c | c in cfgs :: c.alias
  }

  /** index_load: a JSON object, else empty (a missing or unreadable file is None). */
  function IndexLoad(file: Option<Value>): map<string, Value> {
    if file.Some? && file.value.Obj? then file.value.fields else map[]
  }

  // ---------------------------------------------------------------- icons

  datatype Sticker = Sticker(emoji: Option<string>, customEmojiId: Option<string>)

  predicate Usable(s: Sticker) {
    NonEmpty(s.emoji) && NonEmpty(s.customEmojiId)
  }

  /** The loop of _ensure_icon_emoji_map: the first usable sticker of an emoji wins. */
  function EmojiMap(acc: map<string, string>, ss: seq<Sticker>): map<string, string>
    decreases |ss|
  {
    if |ss| == 0 then acc
    else
      var s := ss[0];
      EmojiMap(if Usable(s) && s.emoji.value !in acc then acc[s.emoji.value := s.customEmojiId.value] else acc, ss[1..])
  }

  /** An emoji is mapped exactly when it was already or a usable sticker has it. */
  lemma {:induction false} EmojiMapKeys(acc: map<string, string>, ss: seq<Sticker>, e: string)
    ensures e in EmojiMap(acc, ss) <==> e in acc || exists i :: 0 <= i < |ss| && Usable(ss[i]) && ss[i].emoji.value == e
    decreases |ss|
  {
    if |ss| > 0 {
      var s := ss[0];
      var acc1 := if Usable(s) && s.emoji.value !in acc then acc[s.emoji.value := s.customEmojiId.value] else acc;
      EmojiMapKeys(acc1, ss[1..], e);
      if exists i :: 0 <= i < |ss[1..]| && Usable(ss[1..][i]) && ss[1..][i].emoji.value == e {
        var i :| 0 <= i < |ss[1..]| && Usable(ss[1..][i]) && ss[1..][i].emoji.value == e;
        assert ss[i + 1] == ss[1..][i];
      }
      if exists i :: 0 <= i < |ss| && Usable(ss[i]) && ss[i].emoji.value == e {
        var i :| 0 <= i < |ss| && Usable(ss[i]) && ss[i].emoji.value == e;
        if i > 0 {
          assert ss[1..][i - 1] == ss[i];
        }
      }
    }
  }

  /** Entries already present are kept. */
  lemma {:induction false} EmojiMapKeeps(acc: map<string, string>, ss: seq<Sticker>, e: string)
    requires e in acc
    ensures e in EmojiMap(acc, ss) && EmojiMap(acc, ss)[e] == acc[e]
    decreases |ss|
  {
    if |ss| > 0 {
      var s := ss[0];
      var acc1 := if Usable(s) && s.emoji.value !in acc then acc[s.emoji.value := s.customEmojiId.value] else acc;
      EmojiMapKeeps(acc1, ss[1..], e);
    }
  }

  /** A new emoji maps to the id of its first usable sticker. */
  lemma {:induction false} EmojiMapFirst(acc: map<string, string>, ss: seq<Sticker>, i: nat)
    requires i < |ss| && Usable(ss[i]) && ss[i].emoji.value !in acc
    requires forall j :: 0 <= j < i && Usable(ss[j]) ==> ss[j].emoji.value != ss[i].emoji.value
    ensures ss[i].emoji.value in EmojiMap(acc, ss) && EmojiMap(acc, ss)[ss[i].emoji.value] == ss[i].customEmojiId.value
    decreases i
  {
    var s := ss[0];
    var acc1 := if Usable(s) && s.emoji.value !in acc then acc[s.emoji.value := s.customEmojiId.value] else acc;
    if i == 0 {
      EmojiMapKeeps(acc1, ss[1..], s.emoji.value);
    } else {
      assert ss[1..][i - 1] == ss[i];
      forall j | 0 <= j < i - 1 && Usable(ss[1..][j]) ensures ss[1..][j].emoji.value != ss[1..][i - 1].emoji.value {
        assert ss[1..][j] == ss[j + 1];
      }
      EmojiMapFirst(acc1, ss[1..], i - 1);
    }
  }

  /** The map once built: {} when fetching the stickers fails. */
  function IconMap(stickers: Option<seq<Sticker>>): map<string, string> {
    if stickers.None? then map[] else EmojiMap(map[], stickers.value)
  }

  /** The map _resolve_icon_id consults: the cached one, or the one built now. */
  function EffectiveIconMap(state: Option<map<string, string>>, stickers: Option<seq<Sticker>>): map<string, string> {
    if state.Some? then state.value else IconMap(stickers)
  }

  predicate NeedsEmojiMap(cfg: TopicConfig) {
    !NonEmpty(cfg.iconCustomEmojiId) && NonEmpty(cfg.emoji)
  }

  /** _resolve_icon_id against the emoji map. */
  function ResolveIcon(cfg: TopicConfig, m: map<string, string>): Option<string> {
    if NonEmpty(cfg.iconCustomEmojiId) then cfg.iconCustomEmojiId
    else if NonEmpty(cfg.emoji) then (if cfg.emoji.value in m then Some(m[cfg.emoji.value]) else None)
    else None
  }

  /** An explicit icon id wins over the emoji; an emoji maps through the sticker map;
      with neither there is no icon. */
  lemma ResolveIconMeaning(cfg: TopicConfig, m: map<string, string>)
    ensures NonEmpty(cfg.iconCustomEmojiId) ==> ResolveIcon(cfg, m) == cfg.iconCustomEmojiId
    ensures NeedsEmojiMap(cfg) ==>
      (ResolveIcon(cfg, m).Some? <==> cfg.emoji.value in m) && (cfg.emoji.value in m ==> ResolveIcon(cfg, m) == Some(m[cfg.emoji.value]))
    ensures !NonEmpty(cfg.iconCustomEmojiId) && !NonEmpty(cfg.emoji) ==> ResolveIcon(cfg, m).None?
  {
  }

  /** The cached map after a pass over topics: built the first time a topic needs it. */
  function IconStateAfter(state: Option<map<string, string>>, cfgs: seq<TopicConfig>, stickers: Option<seq<Sticker>>): Option<map<string, string>> {
    if state.None? && exists c :: c in cfgs && NeedsEmojiMap(c) then Some(IconMap(stickers)) else state
  }

  // ---------------------------------------------------------------- scan_and_sync

  /** The bot calls whose outcomes the sync depends on. */
  datatype BotOutcomes = BotOutcomes(stickers: Option<seq<Sticker>>, created: map<string, int>, edited: set<string>)

  /** A request the sync makes of the forum. */
  datatype ForumCall =
    | CreateTopic(alias: string, title: string, icon: Option<string>)
    | EditTopic(alias: string, threadId: int, newTitle: Option<string>, icon: Option<string>)

  function OptValue(o: Option<string>): Value {
    if o.Some? then Str(o.value) else Null
  }

  /** `x or None` */
  function OrNone(v: Value): Value {
    if Truthy(v) then v else Null
  }

  predicate NeedTitle(index: map<string, Value>, cfg: TopicConfig) {
    RecordField(index, cfg.alias, "title") != Str(cfg.title)
  }

  predicate NeedIcon(index: map<string, Value>, cfg: TopicConfig, desired: Option<string>) {
    OrNone(RecordField(index, cfg.alias, "icon_custom_emoji_id")) != OrNone(OptValue(desired))
  }

  datatype SyncState = SyncState(index: map<string, Value>, created: nat, updated: nat, calls: seq<ForumCall>)

  function NewRecord(threadId: int, title: string, icon: Option<string>): Value {
    Obj(map["topic_id" := Int(threadId), "title" := Str(title), "icon_custom_emoji_id" := OptValue(icon)])
  }

  function EditedRecord(rec: Value, title: string, icon: Option<string>): Value {
    if rec.Obj? then Obj(rec.fields["title" := Str(title)]["icon_custom_emoji_id" := OptValue(icon)]) else rec
  }

  /** The record of the topic after its sync step, or None when the index keeps it. */
  function RecordAfter(index: map<string, Value>, cfg: TopicConfig, desired: Option<string>, bot: BotOutcomes): Option<Value> {
    var a := cfg.alias;
    if TopicIdOf(index, a).None? then
      (if a in bot.created then Some(NewRecord(bot.created[a], cfg.title, desired)) else None)
    else if (NeedTitle(index, cfg) || NeedIcon(index, cfg, desired)) && a in bot.edited then
      Some(EditedRecord(Get(index, a), cfg.title, desired))
    else None
  }

  /** The forum call the step makes, if any. */
  function CallOf(index: map<string, Value>, cfg: TopicConfig, desired: Option<string>): seq<ForumCall> {
    var a := cfg.alias;
    if TopicIdOf(index, a).None? then [CreateTopic(a, cfg.title, if NonEmpty(desired) then desired else None)]
    else
      var nt := NeedTitle(index, cfg);
      var ni := NeedIcon(index, cfg, desired);
      if nt || ni then [EditTopic(a, TopicIdOf(index, a).value, if nt then Some(cfg.title) else None, if ni then desired else None)]
      else []
  }

  /** One iteration of the create/update loop. */
  function SyncStep(st: SyncState, cfg: TopicConfig, m: map<string, string>, bot: BotOutcomes): SyncState {
    var desired := ResolveIcon(cfg, m);
    var a := cfg.alias;
    var created := if TopicIdOf(st.index, a).None? && a in bot.created then 1 else 0;
    var updated := if TopicIdOf(st.index, a).Some? && RecordAfter(st.index, cfg, desired, bot).Some? then 1 else 0;
    var rec := RecordAfter(st.index, cfg, desired, bot);
    SyncState(if rec.Some? then st.index[a := rec.value] else st.index,
              st.created + created, st.updated + updated, st.calls + CallOf(st.index, cfg, desired))
  }

  function SyncAll(st: SyncState, cfgs: seq<TopicConfig>, m: map<string, string>, bot: BotOutcomes): SyncState
    decreases |cfgs|
  {
    if |cfgs| == 0 then st else SyncAll(SyncStep(st, cfgs[0], m, bot), cfgs[1..], m, bot)
  }

  /** The aliases created: without a topic id in the index and created successfully. */
  function CreatedAliases(index: map<string, Value>, cfgs: seq<TopicConfig>, bot: BotOutcomes): set<string>
    decreases |cfgs|
  {
    if |cfgs| == 0 then {}
    else
      (if TopicIdOf(index, cfgs[0].alias).None? && cfgs[0].alias in bot.created then {cfgs[0].alias} else {})
      + CreatedAliases(index, cfgs[1..], bot)
  }

  /** The aliases updated: with a topic id, changed, and edited successfully. */
  function UpdatedAliases(index: map<string, Value>, cfgs: seq<TopicConfig>, m: map<string, string>, bot: BotOutcomes): set<string>
    decreases |cfgs|
  {
    if |cfgs| == 0 then {}
    else
      (if TopicIdOf(index, cfgs[0].alias).Some? && RecordAfter(index, cfgs[0], ResolveIcon(cfgs[0], m), bot).Some? then {cfgs[0].alias} else {})
      + UpdatedAliases(index, cfgs[1..], m, bot)
  }

  lemma {:induction false} CreatedMember(index: map<string, Value>, cfgs: seq<TopicConfig>, bot: BotOutcomes, a: string)
    ensures a in CreatedAliases(index, cfgs, bot) <==>
      exists k :: 0 <= k < |cfgs| && cfgs[k].alias == a && TopicIdOf(index, a).None? && a in bot.created
    decreases |cfgs|
  {
    if |cfgs| > 0 {
      CreatedMember(index, cfgs[1..], bot, a);
      if exists k :: 0 <= k < |cfgs[1..]| && cfgs[1..][k].alias == a && TopicIdOf(index, a).None? && a in bot.created {
        var k :| 0 <= k < |cfgs[1..]| && cfgs[1..][k].alias == a && TopicIdOf(index, a).None? && a in bot.created;
        assert cfgs[k + 1] == cfgs[1..][k];
      }
      if exists k :: 0 <= k < |cfgs| && cfgs[k].alias == a && TopicIdOf(index, a).None? && a in bot.created {
        var k :| 0 <= k < |cfgs| && cfgs[k].alias == a && TopicIdOf(index, a).None? && a in bot.created;
        if k > 0 {
          assert cfgs[1..][k - 1] == cfgs[k];
        }
      }
    }
  }

  lemma {:induction false} CountedWithin(index: map<string, Value>, cfgs: seq<TopicConfig>, m: map<string, string>, bot: BotOutcomes)
    ensures CreatedAliases(index, cfgs, bot) <= AliasSet(cfgs) && UpdatedAliases(index, cfgs, m, bot) <= AliasSet(cfgs)
    decreases |cfgs|
  {
    if |cfgs| > 0 {
      CountedWithin(index, cfgs[1..], m, bot);
      AliasSetCons(cfgs);
    }
  }

  lemma AliasSetCons(cfgs: seq<TopicConfig>)
    requires |cfgs| > 0
    ensures AliasSet(cfgs) == {cfgs[0].alias} + AliasSet(cfgs[1..])
  {
    assert forall c :: c in cfgs <==> c == cfgs[0] || c in cfgs[1..] by {
      assert cfgs == [cfgs[0]] + cfgs[1..];
    }
  }

  lemma DistinctTail(cfgs: seq<TopicConfig>)
    requires |cfgs| > 0 && DistinctAliases(cfgs)
    ensures DistinctAliases(cfgs[1..]) && cfgs[0].alias !in AliasSet(cfgs[1..])
  {
    var rest := cfgs[1..];
    forall i, j | 0 <= i < j < |rest| ensures rest[i].alias != rest[j].alias {
      assert rest[i] == cfgs[i + 1] && rest[j] == cfgs[j + 1];
    }
    forall c | c in rest ensures c.alias != cfgs[0].alias {
      var k :| 0 <= k < |rest| && rest[k] == c;
      assert cfgs[k + 1] == c;
    }
  }

  /** What a step decides for a topic depends only on that topic's record. */
  lemma AgreeAt(i1: map<string, Value>, i2: map<string, Value>, c: TopicConfig, m: map<string, string>, bot: BotOutcomes)
    requires Get(i1, c.alias) == Get(i2, c.alias)
    ensures TopicIdOf(i1, c.alias) == TopicIdOf(i2, c.alias)
    ensures RecordAfter(i1, c, ResolveIcon(c, m), bot) == RecordAfter(i2, c, ResolveIcon(c, m), bot)
  {
    assert forall key :: RecordField(i1, c.alias, key) == RecordField(i2, c.alias, key);
  }

  lemma {:induction false} CountsAgree(i1: map<string, Value>, i2: map<string, Value>, cfgs: seq<TopicConfig>, m: map<string, string>, bot: BotOutcomes)
    requires forall c :: c in cfgs ==> Get(i1, c.alias) == Get(i2, c.alias)
    ensures CreatedAliases(i1, cfgs, bot) == CreatedAliases(i2, cfgs, bot)
    ensures UpdatedAliases(i1, cfgs, m, bot) == UpdatedAliases(i2, cfgs, m, bot)
    decreases |cfgs|
  {
    if |cfgs| > 0 {
      AgreeAt(i1, i2, cfgs[0], m, bot);
      assert forall c :: c in cfgs[1..] ==> c in cfgs;
      CountsAgree(i1, i2, cfgs[1..], m, bot);
    }
  }

  /** A step leaves the other aliases' records alone. */
  lemma StepOther(st: SyncState, c0: TopicConfig, m: map<string, string>, bot: BotOutcomes, a: string)
    requires a != c0.alias
    ensures var i1 := SyncStep(st, c0, m, bot).index;
      Get(i1, a) == Get(st.index, a) && (a in i1 <==> a in st.index)
  {
  }

  lemma {:induction false} SyncAllOther(st: SyncState, cfgs: seq<TopicConfig>, m: map<string, string>, bot: BotOutcomes, a: string)
    requires a !in AliasSet(cfgs)
    ensures var r := SyncAll(st, cfgs, m, bot).index;
      Get(r, a) == Get(st.index, a) && (a in r <==> a in st.index)
    decreases |cfgs|
  {
    if |cfgs| > 0 {
      AliasSetCons(cfgs);
      StepOther(st, cfgs[0], m, bot, a);
      SyncAllOther(SyncStep(st, cfgs[0], m, bot), cfgs[1..], m, bot, a);
    }
  }

  /** Each discovered topic's record becomes what its own step decides from the index
      the sync started from. */
  lemma {:induction false} SyncAllOwn(st: SyncState, cfgs: seq<TopicConfig>, m: map<string, string>, bot: BotOutcomes, k: nat)
    requires DistinctAliases(cfgs) && k < |cfgs|
    ensures var c := cfgs[k];
      var rec := RecordAfter(st.index, c, ResolveIcon(c, m), bot);
      var r := SyncAll(st, cfgs, m, bot).index;
      (rec.Some? ==> c.alias in r && r[c.alias] == rec.value)
      && (rec.None? ==> Get(r, c.alias) == Get(st.index, c.alias) && (c.alias in r <==> c.alias in st.index))
    decreases k
  {
    var st1 := SyncStep(st, cfgs[0], m, bot);
    DistinctTail(cfgs);
    if k == 0 {
      SyncAllOther(st1, cfgs[1..], m, bot, cfgs[0].alias);
    } else {
      var c := cfgs[k];
      assert cfgs[1..][k - 1] == c;
      assert c in cfgs[1..];
      StepOther(st, cfgs[0], m, bot, c.alias);
      AgreeAt(st1.index, st.index, c, m, bot);
      SyncAllOwn(st1, cfgs[1..], m, bot, k - 1);
    }
  }

  /** Creations and edits are counted once per alias. */
  lemma {:induction false} SyncAllCounts(st: SyncState, cfgs: seq<TopicConfig>, m: map<string, string>, bot: BotOutcomes)
    requires DistinctAliases(cfgs)
    ensures var r := SyncAll(st, cfgs, m, bot);
      r.created == st.created + |CreatedAliases(st.index, cfgs, bot)|
      && r.updated == st.updated + |UpdatedAliases(st.index, cfgs, m, bot)|
    decreases |cfgs|
  {
    if |cfgs| > 0 {
      var st1 := SyncStep(st, cfgs[0], m, bot);
      var rest := cfgs[1..];
      DistinctTail(cfgs);
      SyncAllCounts(st1, rest, m, bot);
      forall c | c in rest ensures Get(st1.index, c.alias) == Get(st.index, c.alias) {
        StepOther(st, cfgs[0], m, bot, c.alias);
      }
      CountsAgree(st1.index, st.index, rest, m, bot);
      CountedWithin(st.index, rest, m, bot);
    }
  }

  /** A created topic's record holds the new thread id, the title and the icon; an
      existing topic is edited exactly when its title or icon differs (an empty icon and
      no icon are the same), and its record changes only when the edit succeeds. */
  lemma RecordAfterMeaning(index: map<string, Value>, cfg: TopicConfig, desired: Option<string>, bot: BotOutcomes)
    ensures TopicIdOf(index, cfg.alias).None? ==>
      (RecordAfter(index, cfg, desired, bot).Some? <==> cfg.alias in bot.created)
      && (cfg.alias in bot.created ==> TopicIdOf(index[cfg.alias := RecordAfter(index, cfg, desired, bot).value], cfg.alias) == Some(bot.created[cfg.alias]))
      && CallOf(index, cfg, desired) == [CreateTopic(cfg.alias, cfg.title, if NonEmpty(desired) then desired else None)]
    ensures TopicIdOf(index, cfg.alias).Some? ==>
      (|CallOf(index, cfg, desired)| == 1 <==> NeedTitle(index, cfg) || NeedIcon(index, cfg, desired))
      && (RecordAfter(index, cfg, desired, bot).Some? <==> (NeedTitle(index, cfg) || NeedIcon(index, cfg, desired)) && cfg.alias in bot.edited)
      && (RecordAfter(index, cfg, desired, bot).Some? ==>
            var idx := index[cfg.alias := RecordAfter(index, cfg, desired, bot).value];
            !NeedTitle(idx, cfg) && !NeedIcon(idx, cfg, desired) && TopicIdOf(idx, cfg.alias) == TopicIdOf(index, cfg.alias))
    ensures NeedIcon(index, cfg, Some("")) == NeedIcon(index, cfg, None)
  {
    var a := cfg.alias;
    if TopicIdOf(index, a).None? && a in bot.created {
      var idx := index[a := RecordAfter(index, cfg, desired, bot).value];
      assert RecordField(idx, a, "topic_id") == Int(bot.created[a]);
    }
    if TopicIdOf(index, a).Some? && RecordAfter(index, cfg, desired, bot).Some? {
      var idx := index[a := RecordAfter(index, cfg, desired, bot).value];
      assert Get(index, a).Obj?;
      assert RecordField(idx, a, "title") == Str(cfg.title);
      assert RecordField(idx, a, "icon_custom_emoji_id") == OptValue(desired);
      assert RecordField(idx, a, "topic_id") == RecordField(index, a, "topic_id");
    }
  }

  /** The index after the removal step: only the discovered aliases. */
  function KeepDiscovered(index: map<string, Value>, aliases: set<string>): (r: map<string, Value>)
    ensures r.Keys == index.Keys * aliases
    ensures forall a :: a in r ==> r[a] == index[a]
  {
    map a | a in index.Keys * aliases :: index[a]
  }

  lemma AliasIndex(cfgs: seq<TopicConfig>, a: string) returns (k: nat)
    requires a in AliasSet(cfgs)
    ensures k < |cfgs| && cfgs[k].alias == a
  {
    var c :| c in cfgs && c.alias == a;
    var i :| 0 <= i < |cfgs| && cfgs[i] == c;
    k := i;
  }

  /** After the sync the index holds exactly the discovered aliases that were indexed
      or created; the removed ones are the indexed aliases not discovered. */
  lemma SyncIndexKeys(index: map<string, Value>, cfgs: seq<TopicConfig>, m: map<string, string>, bot: BotOutcomes)
    requires DistinctAliases(cfgs)
    ensures var st := SyncAll(SyncState(index, 0, 0, []), cfgs, m, bot);
      var kept := KeepDiscovered(st.index, AliasSet(cfgs));
      kept.Keys == (index.Keys * AliasSet(cfgs)) + CreatedAliases(index, cfgs, bot)
      && index.Keys - kept.Keys == index.Keys - AliasSet(cfgs)
  {
    var st0 := SyncState(index, 0, 0, []);
    CountedWithin(index, cfgs, m, bot);
    forall a | a in AliasSet(cfgs)
      ensures a in SyncAll(st0, cfgs, m, bot).index <==> a in index || a in CreatedAliases(index, cfgs, bot)
    {
      SyncKeptAlias(index, cfgs, m, bot, a);
    }
  }

  lemma SyncKeptAlias(index: map<string, Value>, cfgs: seq<TopicConfig>, m: map<string, string>, bot: BotOutcomes, a: string)
    requires DistinctAliases(cfgs) && a in AliasSet(cfgs)
    ensures a in SyncAll(SyncState(index, 0, 0, []), cfgs, m, bot).index <==> a in index || a in CreatedAliases(index, cfgs, bot)
  {
    var k := AliasIndex(cfgs, a);
    SyncAllOwn(SyncState(index, 0, 0, []), cfgs, m, bot, k);
    CreatedMember(index, cfgs, bot, a);
    if a in CreatedAliases(index, cfgs, bot) {
      var j :| 0 <= j < |cfgs| && cfgs[j].alias == a && TopicIdOf(index, a).None? && a in bot.created;
      assert j == k;
    }
    if a !in index {
      assert Get(index, a) == Null;
    }
  }

  // ---------------------------------------------------------------- reload_cache

  datatype Caches = Caches(byAlias: map<string, TopicConfig>, byTopicId: map<int, TopicConfig>)

  /** One iteration of reload_cache: the topic id comes from the index; only a truthy
      topic id enters the thread-id cache. */
  function CacheStep(cs: Caches, cfg: TopicConfig, index: map<string, Value>): Caches {
    var c := cfg.(topicId := TopicIdOf(index, cfg.alias));
    Caches(cs.byAlias[c.alias := c], if c.topicId.Some? && c.topicId.value != 0 then cs.byTopicId[c.topicId.value := c] else cs.byTopicId)
  }

  function CacheAll(cs: Caches, cfgs: seq<TopicConfig>, index: map<string, Value>): Caches
    decreases |cfgs|
  {
    if |cfgs| == 0 then cs else CacheAll(CacheStep(cs, cfgs[0], index), cfgs[1..], index)
  }

  /** The alias cache is keyed by alias, and a thread id maps to a cached topic with
      that id. */
  predicate CachesConsistent(cs: Caches) {
    (forall a :: a in cs.byAlias ==> cs.byAlias[a].alias == a)
    && forall t :: t in cs.byTopicId ==>
      t != 0 && cs.byTopicId[t].topicId == Some(t) && cs.byTopicId[t].alias in cs.byAlias
      && cs.byAlias[cs.byTopicId[t].alias] == cs.byTopicId[t]
  }

  lemma CacheStepConsistent(cs: Caches, cfg: TopicConfig, index: map<string, Value>)
    requires CachesConsistent(cs) && cfg.alias !in cs.byAlias
    ensures CachesConsistent(CacheStep(cs, cfg, index))
  {
    var cs1 := CacheStep(cs, cfg, index);
    var c := cfg.(topicId := TopicIdOf(index, cfg.alias));
    forall t | t in cs1.byTopicId
      ensures t != 0 && cs1.byTopicId[t].topicId == Some(t) && cs1.byTopicId[t].alias in cs1.byAlias
        && cs1.byAlias[cs1.byTopicId[t].alias] == cs1.byTopicId[t]
    {
      if !(c.topicId.Some? && c.topicId.value != 0 && t == c.topicId.value) {
        assert cs1.byTopicId[t] == cs.byTopicId[t];
        assert cs.byTopicId[t].alias != c.alias;
      }
    }
  }

  /** Reloading keeps the caches consistent. */
  lemma {:induction false} CacheAllConsistent(cs: Caches, cfgs: seq<TopicConfig>, index: map<string, Value>)
    requires CachesConsistent(cs) && DistinctAliases(cfgs)
    requires forall c :: c in cfgs ==> c.alias !in cs.byAlias
    ensures CachesConsistent(CacheAll(cs, cfgs, index))
    decreases |cfgs|
  {
    if |cfgs| > 0 {
      CacheStepConsistent(cs, cfgs[0], index);
      DistinctTail(cfgs);
      assert forall c :: c in cfgs[1..] ==> c in cfgs;
      CacheAllConsistent(CacheStep(cs, cfgs[0], index), cfgs[1..], index);
    }
  }

  /** Every scanned alias is cached, with the index's topic id. */
  lemma {:induction false} CacheAllAliases(cs: Caches, cfgs: seq<TopicConfig>, index: map<string, Value>)
    requires DistinctAliases(cfgs)
    ensures var r := CacheAll(cs, cfgs, index);
      r.byAlias.Keys == cs.byAlias.Keys + AliasSet(cfgs)
      && forall k :: 0 <= k < |cfgs| ==> r.byAlias[cfgs[k].alias] == cfgs[k].(topicId := TopicIdOf(index, cfgs[k].alias))
    decreases |cfgs|
  {
    if |cfgs| > 0 {
      var cs1 := CacheStep(cs, cfgs[0], index);
      DistinctTail(cfgs);
      AliasSetCons(cfgs);
      CacheAllAliases(cs1, cfgs[1..], index);
      CacheAllKeeps(cs1, cfgs[1..], index, cfgs[0].alias);
      forall k | 1 <= k < |cfgs| ensures cfgs[k] == cfgs[1..][k - 1] {
      }
    }
  }

  lemma {:induction false} CacheAllKeeps(cs: Caches, cfgs: seq<TopicConfig>, index: map<string, Value>, a: string)
    requires a !in AliasSet(cfgs) && a in cs.byAlias
    ensures a in CacheAll(cs, cfgs, index).byAlias && CacheAll(cs, cfgs, index).byAlias[a] == cs.byAlias[a]
    decreases |cfgs|
  {
    if |cfgs| > 0 {
      AliasSetCons(cfgs);
      CacheAllKeeps(CacheStep(cs, cfgs[0], index), cfgs[1..], index, a);
    }
  }

  /** A thread id is cached exactly when some scanned topic has it in the index and it
      is not 0. */
  lemma {:induction false} CacheAllThreads(cs: Caches, cfgs: seq<TopicConfig>, index: map<string, Value>, t: int)
    ensures t in CacheAll(cs, cfgs, index).byTopicId <==>
      t in cs.byTopicId || exists k :: 0 <= k < |cfgs| && TopicIdOf(index, cfgs[k].alias) == Some(t) && t != 0
    decreases |cfgs|
  {
    if |cfgs| > 0 {
      CacheAllThreads(CacheStep(cs, cfgs[0], index), cfgs[1..], index, t);
      if exists k :: 0 <= k < |cfgs[1..]| && TopicIdOf(index, cfgs[1..][k].alias) == Some(t) && t != 0 {
        var k :| 0 <= k < |cfgs[1..]| && TopicIdOf(index, cfgs[1..][k].alias) == Some(t) && t != 0;
        assert cfgs[k + 1] == cfgs[1..][k];
      }
      if exists k :: 0 <= k < |cfgs| && TopicIdOf(index, cfgs[k].alias) == Some(t) && t != 0 {
        var k :| 0 <= k < |cfgs| && TopicIdOf(index, cfgs[k].alias) == Some(t) && t != 0;
        if k > 0 {
          assert cfgs[1..][k - 1] == cfgs[k];
        }
      }
    }
  }

  /** The cached map after one more topic resolves its icon. */
  lemma IconStateStep(state: Option<map<string, string>>, cfgs: seq<TopicConfig>, i: nat, stickers: Option<seq<Sticker>>)
    requires i < |cfgs|
    ensures var before := IconStateAfter(state, cfgs[..i], stickers);
      IconStateAfter(state, cfgs[..i + 1], stickers)
        == (if NeedsEmojiMap(cfgs[i]) then Some(EffectiveIconMap(before, stickers)) else before)
      && EffectiveIconMap(before, stickers) == EffectiveIconMap(state, stickers)
  {
    assert cfgs[..i + 1] == cfgs[..i] + [cfgs[i]];
    assert cfgs[i] in cfgs[..i + 1];
    assert forall c :: c in cfgs[..i + 1] <==> c in cfgs[..i] || c == cfgs[i];
  }

  /** The records of the aliases not discovered are the only ones the sync can leave
      for the removal step, and those are the indexed ones. */
  lemma SyncRemoved(index: map<string, Value>, cfgs: seq<TopicConfig>, m: map<string, string>, bot: BotOutcomes)
    ensures SyncAll(SyncState(index, 0, 0, []), cfgs, m, bot).index.Keys - AliasSet(cfgs) == index.Keys - AliasSet(cfgs)
  {
    forall a | a !in AliasSet(cfgs)
      ensures a in SyncAll(SyncState(index, 0, 0, []), cfgs, m, bot).index <==> a in index
    {
      SyncAllOther(SyncState(index, 0, 0, []), cfgs, m, bot, a);
    }
  }

  /** The repository of one chat: the alias index, the two topic caches and the lazily
      built forum icon map. */
  class TopicsRepository {
    var index: map<string, Value>
    var cacheByAlias: map<string, TopicConfig>
    var cacheByTopicId: map<int, TopicConfig>
    var iconEmojiMap: Option<map<string, string>>

    predicate Valid()
      reads this
    {
      CachesConsistent(Caches(cacheByAlias, cacheByTopicId))
    }

    /** `indexFile` is the parsed index file, None when it is missing or unreadable. */
    constructor(indexFile: Option<Value>)
      ensures index == IndexLoad(indexFile)
      ensures cacheByAlias == map[] && cacheByTopicId == map[] && iconEmojiMap.None?
      ensures Valid()
    {
      index := IndexLoad(indexFile);
      cacheByAlias := map[];
      cacheByTopicId := map[];
      iconEmojiMap := None;
    }

    /** _ensure_icon_emoji_map: `stickers` is the result of get_forum_topic_icon_stickers,
        None when the call fails. */
    method EnsureIconEmojiMap(stickers: Option<seq<Sticker>>)
      modifies this
      ensures iconEmojiMap == Some(EffectiveIconMap(old(iconEmojiMap), stickers))
      ensures index == old(index) && cacheByAlias == old(cacheByAlias) && cacheByTopicId == old(cacheByTopicId)
    {
      if iconEmojiMap.Some? {
        return;
      }
      if stickers.None? {
        iconEmojiMap := Some(map[]);
        return;
      }
      var ss := stickers.value;
      var mp: map<string, string> := map[];
      var i := 0;
      while i < |ss|
        invariant 0 <= i <= |ss|
        invariant EmojiMap(mp, ss[i..]) == EmojiMap(map[], ss)
      {
        assert ss[i..][1..] == ss[i + 1..];
        var s := ss[i];
        if Usable(s) && s.emoji.value !in mp {
          mp := mp[s.emoji.value := s.customEmojiId.value];
        }
        i := i + 1;
      }
      iconEmojiMap := Some(mp);
    }

    /** _resolve_icon_id: the map is built only when a topic needs it. */
    method ResolveIconId(cfg: TopicConfig, stickers: Option<seq<Sticker>>) returns (r: Option<string>)
      modifies this
      ensures r == ResolveIcon(cfg, EffectiveIconMap(old(iconEmojiMap), stickers))
      ensures iconEmojiMap == (if NeedsEmojiMap(cfg) then Some(EffectiveIconMap(old(iconEmojiMap), stickers)) else old(iconEmojiMap))
      ensures index == old(index) && cacheByAlias == old(cacheByAlias) && cacheByTopicId == old(cacheByTopicId)
    {
      if NonEmpty(cfg.iconCustomEmojiId) {
        return cfg.iconCustomEmojiId;
      }
      if NonEmpty(cfg.emoji) {
        EnsureIconEmojiMap(stickers);
        var mp := iconEmojiMap.value;
        return if cfg.emoji.value in mp then Some(mp[cfg.emoji.value]) else None;
      }
      return None;
    }

    /** scan over the listed directories, against the current index. */
    method ScanTopics(dirs: seq<TopicDir>) returns (r: seq<TopicConfig>)
      ensures r == Scan(dirs, index)
    {
      r := [];
      var i := 0;
      while i < |dirs|
        invariant 0 <= i <= |dirs|
        invariant Scan(dirs, index) == r + Scan(dirs[i..], index)
      {
        assert dirs[i..][1..] == dirs[i + 1..];
        var lt := LoadTopic(dirs[i].0, dirs[i].1, index);
        if lt.Some? {
          r := r + [lt.value];
        }
        i := i + 1;
      }
    }

    /** reload_cache: both caches rebuilt from a fresh scan and the index. */
    method ReloadCache(dirs: seq<TopicDir>)
      requires DistinctDirs(dirs)
      modifies this
      ensures var cs := CacheAll(Caches(map[], map[]), Scan(dirs, index), index);
        cacheByAlias == cs.byAlias && cacheByTopicId == cs.byTopicId
      ensures index == old(index) && iconEmojiMap == old(iconEmojiMap)
      ensures Valid()
    {
      cacheByAlias := map[];
      cacheByTopicId := map[];
      var discovered := ScanTopics(dirs);
      ghost var goal := CacheAll(Caches(map[], map[]), discovered, index);
      var i := 0;
      while i < |discovered|
        invariant 0 <= i <= |discovered|
        invariant goal == CacheAll(Caches(cacheByAlias, cacheByTopicId), discovered[i..], index)
        invariant index == old(index) && iconEmojiMap == old(iconEmojiMap)
      {
        assert discovered[i..][1..] == discovered[i + 1..];
        var cfg := discovered[i].(topicId := TopicIdOf(index, discovered[i].alias));
        cacheByAlias := cacheByAlias[cfg.alias := cfg];
        if cfg.topicId.Some? && cfg.topicId.value != 0 {
          cacheByTopicId := cacheByTopicId[cfg.topicId.value := cfg];
        }
        i := i + 1;
      }
      ScanDistinct(dirs, index);
      CacheAllConsistent(Caches(map[], map[]), discovered, index);
    }

    /** One iteration of the create/update loop of scan_and_sync. */
    method SyncTopic(cfg: TopicConfig, bot: BotOutcomes, ghost m: map<string, string>, created: nat, updated: nat, calls: seq<ForumCall>)
      returns (created': nat, updated': nat, calls': seq<ForumCall>)
      requires m == EffectiveIconMap(iconEmojiMap, bot.stickers)
      modifies this
      ensures SyncState(index, created', updated', calls') == SyncStep(SyncState(old(index), created, updated, calls), cfg, m, bot)
      ensures iconEmojiMap == (if NeedsEmojiMap(cfg) then Some(m) else old(iconEmojiMap))
      ensures cacheByAlias == old(cacheByAlias) && cacheByTopicId == old(cacheByTopicId)
    {
      created', updated', calls' := created, updated, calls;
      var a := cfg.alias;
      var topicId := TopicIdOf(index, a);
      var desired := ResolveIconId(cfg, bot.stickers);
      if topicId.None? {
        calls' := calls' + [CreateTopic(a, cfg.title, if NonEmpty(desired) then desired else None)];
        if a in bot.created {
          created' := created' + 1;
          index := index[a := NewRecord(bot.created[a], cfg.title, desired)];
        }
      } else {
        var needTitle := NeedTitle(index, cfg);
        var needIcon := NeedIcon(index, cfg, desired);
        if needTitle || needIcon {
          calls' := calls' + [EditTopic(a, topicId.value, if needTitle then Some(cfg.title) else None, if needIcon then desired else None)];
          if a in bot.edited {
            updated' := updated' + 1;
            index := index[a := EditedRecord(Get(index, a), cfg.title, desired)];
          }
        }
      }
    }

    /** The removal loop of scan_and_sync: the indexed aliases not discovered are
        detached, and their number returned. */
    method DetachRemoved(discovered: set<string>) returns (deleted: nat)
      modifies this
      ensures index == KeepDiscovered(old(index), discovered)
      ensures deleted == |old(index).Keys - discovered|
      ensures cacheByAlias == old(cacheByAlias) && cacheByTopicId == old(cacheByTopicId) && iconEmojiMap == old(iconEmojiMap)
    {
      var removed := index.Keys - discovered;
      var rest := removed;
      while rest != {}
        invariant rest <= removed
        invariant index.Keys == old(index).Keys - (removed - rest)
        invariant forall a :: a in index ==> index[a] == old(index)[a]
        invariant cacheByAlias == old(cacheByAlias) && cacheByTopicId == old(cacheByTopicId) && iconEmojiMap == old(iconEmojiMap)
        decreases |rest|
      {
        var a :| a in rest;
        index := map k | k in index && k != a :: index[k];
        rest := rest - {a};
      }
      deleted := |removed|;
    }

    /** scan_and_sync: the bot's answers are `bot`; the forum calls made are returned
        with the three counts, and the caches are reloaded. */
    method ScanAndSync(dirs: seq<TopicDir>, bot: BotOutcomes) returns (created: nat, updated: nat, deleted: nat, calls: seq<ForumCall>)
      requires DistinctDirs(dirs)
      modifies this
      ensures var cfgs := Scan(dirs, old(index));
        var st := SyncAll(SyncState(old(index), 0, 0, []), cfgs, EffectiveIconMap(old(iconEmojiMap), bot.stickers), bot);
        created == st.created && updated == st.updated && calls == st.calls
        && index == KeepDiscovered(st.index, AliasSet(cfgs))
        && deleted == |old(index).Keys - AliasSet(cfgs)|
        && iconEmojiMap == IconStateAfter(old(iconEmojiMap), cfgs, bot.stickers)
      ensures var cs := CacheAll(Caches(map[], map[]), Scan(dirs, index), index);
        cacheByAlias == cs.byAlias && cacheByTopicId == cs.byTopicId
      ensures Valid()
    {
      var discovered := ScanTopics(dirs);
      ghost var index0 := index;
      ghost var m := EffectiveIconMap(iconEmojiMap, bot.stickers);
      ghost var icon0 := iconEmojiMap;
      ghost var goal := SyncAll(SyncState(index, 0, 0, []), discovered, m, bot);
      created, updated, calls := 0, 0, [];
      var i := 0;
      while i < |discovered|
        invariant 0 <= i <= |discovered|
        invariant goal == SyncAll(SyncState(index, created, updated, calls), discovered[i..], m, bot)
        invariant iconEmojiMap == IconStateAfter(icon0, discovered[..i], bot.stickers)
      {
        assert discovered[i..][1..] == discovered[i + 1..];
        IconStateStep(icon0, discovered, i, bot.stickers);
        created, updated, calls := SyncTopic(discovered[i], bot, m, created, updated, calls);
        i := i + 1;
      }
      assert discovered[..i] == discovered;
      deleted := DetachRemoved(AliasSet(discovered));
      SyncRemoved(index0, discovered, m, bot);
      ReloadCache(dirs);
    }

    /** resolve_by_thread_id: the cached topic of a forum thread. */
    function ResolveByThreadId(threadId: int): (r: Option<TopicConfig>)
      reads this
      ensures r.Some? <==> threadId in cacheByTopicId
      ensures Valid() && r.Some? ==>
        threadId != 0 && r.value.topicId == Some(threadId) && r.value.alias in cacheByAlias && cacheByAlias[r.value.alias] == r.value
    {
      if threadId in cacheByTopicId then Some(cacheByTopicId[threadId]) else None
    }

    /** all_topics: a copy of the alias cache. */
    function AllTopics(): (r: map<string, TopicConfig>)
      reads this
      ensures r.Keys == cacheByAlias.Keys
      ensures Valid() ==> forall a :: a in r ==> r[a].alias == a
    {
      cacheByAlias
    }
  }
}
