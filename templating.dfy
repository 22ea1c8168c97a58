/** ComfyClient.prepare_workflow (app/comfy/client.py): a workflow graph template, the
    topic's node rules, the prompt and the job parameters give the graph that is
    submitted. The rules are applied in four fixed passes: text-like rules, the single
    input image, the input image lists with pruning of unused image nodes, and the
    remaining scalar rules.

    The graph is a value here, so the deep copy at the start is implicit and the
    template can never be altered. Each pass is first a function over the rules and
    then a method with the loops of the source, proved to compute that function. */
module Templating {
  import opened Wrappers
  import opened Text
  import opened Json
  import opened Models

  /** Node id to node; a node is a JSON object with an "inputs" object. */
  type Graph = map<string, Value>

  /** The KeyError or TypeError of `wf[nid]["inputs"][key] = val`. */
  datatype TemplateError = NodeNotFound(nodeId: string) | InputsUnavailable(nodeId: string)

  /** random.randint(0, 2**48 - 1) draws below this bound. */
  const SeedBound: nat := 0x1_0000_0000_0000

  /** dict(params) with a seed added when none is given; the drawn seed is a parameter. */
  function EffectiveParams(params: map<string, Value>, seed: nat): (eff: map<string, Value>)
    requires seed < SeedBound
    ensures HasValue(eff, "seed")
    ensures HasValue(params, "seed") ==> eff["seed"] == params["seed"]
    ensures !HasValue(params, "seed") ==> eff["seed"] == Int(seed) && 0 <= seed < SeedBound
    ensures forall k :: k != "seed" ==> (k in eff <==> k in params)
    ensures forall k :: k in params && k != "seed" ==> eff[k] == params[k]
  {
    if HasValue(params, "seed") then params else params["seed" := Int(seed)]
  }

  /** (rule.type or "").strip().lower() */
  function RuleType(rule: NodeRule): string {
    Lower(Strip(rule.kind))
  }

  // ---------------------------------------------------------------- one input

  predicate NodeHasInputs(node: Value) {
    node.Obj? && "inputs" in node.fields && node.fields["inputs"].Obj?
  }

  predicate HasInputs(wf: Graph, nid: string) {
    nid in wf && NodeHasInputs(wf[nid])
  }

  function InputsOf(wf: Graph, nid: string): map<string, Value>
    requires HasInputs(wf, nid)
  {
    wf[nid].fields["inputs"].fields
  }

  /** The node with inputs[key] set to v and everything else kept. */
  function PutInput(node: Value, key: string, v: Value): (r: Value)
    requires NodeHasInputs(node)
    ensures NodeHasInputs(r) && r.fields["inputs"].fields == node.fields["inputs"].fields[key := v]
    ensures r.fields - {"inputs"} == node.fields - {"inputs"} && r.fields.Keys == node.fields.Keys
  {
    Obj(node.fields["inputs" := Obj(node.fields["inputs"].fields[key := v])])
  }

  /** wf[nid]["inputs"][key] = v */
  function SetInput(wf: Graph, nid: string, key: string, v: Value): (r: Result<Graph, TemplateError>)
    ensures r.Success? <==> HasInputs(wf, nid)
    ensures nid !in wf ==> r == Failure(NodeNotFound(nid))
    ensures nid in wf && !HasInputs(wf, nid) ==> r == Failure(InputsUnavailable(nid))
    ensures r.Success? ==> r.value == wf[nid := PutInput(wf[nid], key, v)]
  {
    if nid !in wf then Failure(NodeNotFound(nid))
    else if !HasInputs(wf, nid) then Failure(InputsUnavailable(nid))
    else Success(wf[nid := PutInput(wf[nid], key, v)])
  }

  /** `for nid in rule.node_ids: wf[nid]["inputs"][rule.key] = val`; the first failure
      ends prepare_workflow. */
  function SetAll(wf: Graph, nids: seq<string>, key: string, v: Value): Result<Graph, TemplateError>
    decreases |nids|
  {
    if |nids| == 0 then Success(wf)
    else
      var w1 :- SetInput(wf, nids[0], key, v);
      SetAll(w1, nids[1..], key, v)
  }

  /** SetAll succeeds exactly when every listed node has an inputs object; it then sets
      inputs[key] of each listed node and changes nothing else. */
  lemma {:induction false} SetAllMeaning(wf: Graph, nids: seq<string>, key: string, v: Value)
    ensures var r := SetAll(wf, nids, key, v);
      (r.Success? <==> forall n :: n in nids ==> HasInputs(wf, n))
      && (r.Success? ==>
            r.value.Keys == wf.Keys
            && forall n :: n in wf ==> r.value[n] == if n in nids then PutInput(wf[n], key, v) else wf[n])
    decreases |nids|
  {
    if |nids| > 0 {
      var s1 := SetInput(wf, nids[0], key, v);
      if s1.Success? {
        var w1 := s1.value;
        var rest := nids[1..];
        SetAllMeaning(w1, rest, key, v);
        assert forall n :: n in nids <==> n == nids[0] || n in rest;
        var n0 := nids[0];
        assert forall n :: n in wf ==> (HasInputs(wf, n) <==> HasInputs(w1, n));
        var r := SetAll(w1, rest, key, v);
        if r.Success? {
          PutInputTwice(wf[n0], key, v);
          forall n | n in wf
            ensures r.value[n] == if n in nids then PutInput(wf[n], key, v) else wf[n]
          {
            if n != n0 { assert w1[n] == wf[n]; }
          }
        }
      } else {
        assert nids[0] in nids;
      }
    }
  }

  /** Setting the same input twice is setting it once. */
  lemma PutInputTwice(node: Value, key: string, v: Value)
    requires NodeHasInputs(node)
    ensures PutInput(PutInput(node, key, v), key, v) == PutInput(node, key, v)
  {
    var once := PutInput(node, key, v);
    assert once.fields["inputs"].fields[key := v] == once.fields["inputs"].fields;
    assert once.fields["inputs" := Obj(once.fields["inputs"].fields)] == once.fields;
  }

  /** The written value as seen through InputsOf. */
  lemma SetAllWrites(wf: Graph, nids: seq<string>, key: string, v: Value, n: string)
    requires SetAll(wf, nids, key, v).Success? && n in nids
    ensures var r := SetAll(wf, nids, key, v).value;
      HasInputs(wf, n) && HasInputs(r, n) && InputsOf(r, n) == InputsOf(wf, n)[key := v]
  {
    SetAllMeaning(wf, nids, key, v);
  }

  /** A listed node that is missing makes SetAll fail. */
  lemma SetAllMissingNode(wf: Graph, nids: seq<string>, key: string, v: Value, n: string)
    requires n in nids && n !in wf
    ensures SetAll(wf, nids, key, v).Failure?
  {
    SetAllMeaning(wf, nids, key, v);
  }

  // ---------------------------------------------------------------- unlink and remove

  function RemoveSet(ids: seq<string>): set<string> {
    set i | 0 <= i < |ids| :: ids[i]
  }

  /** A standard edge ["<node_id>", <index>] whose head names a removed node. */
  predicate IsEdgeTo(v: Value, rs: set<string>) {
    v.Arr? && |v.items| >= 1 && v.items[0].Str? && v.items[0].s in rs
  }

  function StripEdges(inputs: map<string, Value>, rs: set<string>): map<string, Value> {
    map k | k in inputs && !IsEdgeTo(inputs[k], rs) :: inputs[k]
  }

  /** Nodes that are not objects, or whose inputs are missing or not an object, are
      passed over. */
  function StripNode(node: Value, rs: set<string>): Value {
    if node.Obj? && "inputs" in node.fields && node.fields["inputs"].Obj? then
      Obj(node.fields["inputs" := Obj(StripEdges(node.fields["inputs"].fields, rs))])
    else node
  }

  /** _unlink_and_remove_nodes */
  function Unlink(wf: Graph, ids: seq<string>): Graph {
    if |ids| == 0 then wf
    else (map n | n in wf :: StripNode(wf[n], RemoveSet(ids))) - RemoveSet(ids)
  }

  /** The removed nodes are gone, no remaining input is an edge to one of them, every
      other input and every other field of the remaining nodes is kept. */
  lemma UnlinkMeaning(wf: Graph, ids: seq<string>)
    ensures var r := Unlink(wf, ids); var rs := RemoveSet(ids);
      r.Keys == wf.Keys - rs
      && (forall n :: n in r ==> (HasInputs(r, n) <==> HasInputs(wf, n)))
      && (forall n :: n in r && !HasInputs(wf, n) ==> r[n] == wf[n])
      && (forall n :: n in r && HasInputs(wf, n) ==> r[n].fields - {"inputs"} == wf[n].fields - {"inputs"})
      && (forall n, k :: n in r && HasInputs(r, n) && k in InputsOf(r, n) ==> !IsEdgeTo(InputsOf(r, n)[k], rs))
      && (forall n, k :: n in r && HasInputs(wf, n) && k in InputsOf(wf, n) && !IsEdgeTo(InputsOf(wf, n)[k], rs)
            ==> k in InputsOf(r, n) && InputsOf(r, n)[k] == InputsOf(wf, n)[k])
  {
    var r := Unlink(wf, ids);
    var rs := RemoveSet(ids);
    if |ids| == 0 {
      forall n, k | n in r && HasInputs(r, n) && k in InputsOf(r, n) ensures !IsEdgeTo(InputsOf(r, n)[k], rs) {
        assert rs == {};
      }
    }
  }

  // ---------------------------------------------------------------- input image lists

  /** The `try: wf[nid]["inputs"][rule.key] = fname except Exception: pass` of the list pass. */
  function TrySet(wf: Graph, nid: string, key: string, v: Value): Graph {
    match SetInput(wf, nid, key, v)
    case Success(w) => w
    case Failure(_) => wf
  }

  /** vals[i] to nids[i] while both last; extra file names are ignored. */
  function AssignImages(wf: Graph, nids: seq<string>, vals: seq<Value>, key: string): Graph
    decreases |vals|
  {
    if |vals| == 0 || |nids| == 0 then wf
    else AssignImages(TrySet(wf, nids[0], key, vals[0]), nids[1..], vals[1..], key)
  }

  function Min(a: int, b: int): int {
    if a < b then a else b
  }

  /** The number of image nodes that get a file: 0 when the parameter is absent, not a
      list, or empty. */
  function UsedCount(eff: map<string, Value>, nids: seq<string>): nat {
    var vals := Get(eff, "input_images");
    if vals.Arr? && |vals.items| > 0 then Min(|vals.items|, |nids|) else 0
  }

  /** One "input_images" rule: assign, then prune the node ids left without a file. */
  function ImagesRule(wf: Graph, rule: NodeRule, eff: map<string, Value>): Graph {
    var vals := Get(eff, "input_images");
    if vals.Arr? && |vals.items| > 0 then
      var w1 := AssignImages(wf, rule.nodeIds, vals.items, rule.key);
      var used := Min(|vals.items|, |rule.nodeIds|);
      if used < |rule.nodeIds| then Unlink(w1, rule.nodeIds[used..]) else w1
    else Unlink(wf, rule.nodeIds)
  }

  lemma {:induction false} AssignImagesKeys(wf: Graph, nids: seq<string>, vals: seq<Value>, key: string)
    ensures AssignImages(wf, nids, vals, key).Keys == wf.Keys
    ensures forall n :: n in wf ==> (HasInputs(AssignImages(wf, nids, vals, key), n) <==> HasInputs(wf, n))
    decreases |vals|
  {
    if |vals| > 0 && |nids| > 0 {
      AssignImagesKeys(TrySet(wf, nids[0], key, vals[0]), nids[1..], vals[1..], key);
    }
  }

  lemma NotInTail(s: seq<string>, x: string)
    requires |s| > 0 && x !in s
    ensures x !in s[1..]
  {
    assert s == [s[0]] + s[1..];
  }

  /** With distinct node ids, vals[i] lands in node_ids[i] for every i below both lengths
      whose node has inputs; nodes past that are left as they were. */
  lemma {:induction false} AssignImagesMeaning(wf: Graph, nids: seq<string>, vals: seq<Value>, key: string)
    requires forall i, j :: 0 <= i < j < |nids| ==> nids[i] != nids[j]
    ensures var r := AssignImages(wf, nids, vals, key);
      (forall i :: 0 <= i < Min(|vals|, |nids|) && HasInputs(wf, nids[i]) ==>
         HasInputs(r, nids[i]) && key in InputsOf(r, nids[i]) && InputsOf(r, nids[i])[key] == vals[i])
      && (forall n :: n in wf && n !in nids[..Min(|vals|, |nids|)] ==> n in r && r[n] == wf[n])
    decreases |vals|
  {
    if |vals| > 0 && |nids| > 0 {
      var w1 := TrySet(wf, nids[0], key, vals[0]);
      AssignImagesMeaning(w1, nids[1..], vals[1..], key);
      AssignImagesKeys(w1, nids[1..], vals[1..], key);
      var r := AssignImages(wf, nids, vals, key);
      var m := Min(|vals|, |nids|);
      assert Min(|vals[1..]|, |nids[1..]|) == m - 1;
      forall i | 0 <= i < m && HasInputs(wf, nids[i])
        ensures HasInputs(r, nids[i]) && key in InputsOf(r, nids[i]) && InputsOf(r, nids[i])[key] == vals[i]
      {
        if i > 0 {
          assert nids[i] == nids[1..][i - 1] && vals[i] == vals[1..][i - 1];
          assert nids[i] != nids[0];
          assert HasInputs(w1, nids[i]);
        } else {
          assert nids[0] !in nids[1..][..m - 1];
        }
      }
      forall n | n in wf && n !in nids[..m] ensures n in r && r[n] == wf[n] {
        assert n != nids[0];
        assert nids[1..][..m - 1] == nids[..m][1..];
        NotInTail(nids[..m], n);
      }
    }
  }

  /** The pruning of one "input_images" rule: with m file names used, node_ids[m..] are
      gone, no remaining input is an edge to any of them, and nodes outside the rule's
      list keep every input that is not such an edge. */
  lemma ImagesRulePrunes(wf: Graph, rule: NodeRule, eff: map<string, Value>)
    ensures var r := ImagesRule(wf, rule, eff);
      var m := UsedCount(eff, rule.nodeIds);
      var rs := RemoveSet(rule.nodeIds[m..]);
      r.Keys == wf.Keys - rs
      && (forall j :: m <= j < |rule.nodeIds| ==> rule.nodeIds[j] !in r)
      && (forall n, k :: n in r && HasInputs(r, n) && k in InputsOf(r, n) ==> !IsEdgeTo(InputsOf(r, n)[k], rs))
      && (forall n, k :: n in r && n !in rule.nodeIds && HasInputs(wf, n) && k in InputsOf(wf, n)
            && !IsEdgeTo(InputsOf(wf, n)[k], rs)
            ==> HasInputs(r, n) && k in InputsOf(r, n) && InputsOf(r, n)[k] == InputsOf(wf, n)[k])
  {
    var nids := rule.nodeIds;
    var m := UsedCount(eff, nids);
    var vals := Get(eff, "input_images");
    assert nids[0..] == nids;
    assert forall j :: m <= j < |nids| ==> nids[j] == nids[m..][j - m];
    if vals.Arr? && |vals.items| > 0 {
      var w1 := AssignImages(wf, nids, vals.items, rule.key);
      AssignImagesKeys(wf, nids, vals.items, rule.key);
      AssignImagesUntouched(wf, nids, vals.items, rule.key);
      if m < |nids| {
        UnlinkMeaning(w1, nids[m..]);
      } else {
        assert RemoveSet(nids[m..]) == {};
      }
    } else {
      UnlinkMeaning(wf, nids);
    }
  }

  /** Nodes outside the list are never written by the assignment. */
  lemma {:induction false} AssignImagesUntouched(wf: Graph, nids: seq<string>, vals: seq<Value>, key: string)
    ensures forall n :: n in wf && n !in nids ==>
      n in AssignImages(wf, nids, vals, key) && AssignImages(wf, nids, vals, key)[n] == wf[n]
    decreases |vals|
  {
    if |vals| > 0 && |nids| > 0 {
      var w1 := TrySet(wf, nids[0], key, vals[0]);
      AssignImagesUntouched(w1, nids[1..], vals[1..], key);
      AssignImagesKeys(wf, nids, vals, key);
      forall n | n in wf && n !in nids
        ensures n in AssignImages(wf, nids, vals, key) && AssignImages(wf, nids, vals, key)[n] == wf[n]
      {
        assert n !in nids[1..];
      }
    }
  }

  // ---------------------------------------------------------------- the passes

  datatype Pass = TextPass | ImagePass | ImagesPass | ScalarPass

  /** The parameter a text-like rule reads: "text:<name>"/"string:<name>" by name,
      "text"/"string" through rule.param; None when it reads none. */
  function TextParamKey(rt: string, rule: NodeRule): Option<string> {
    if StartsWith(rt, "text:") then Some(Strip(rt[5..]))
    else if StartsWith(rt, "string:") then Some(Strip(rt[7..]))
    else if rt == "text" || rt == "string" then
      (if rule.param.Some? && rule.param.value != "" then Some(Strip(rule.param.value)) else None)
    else None
  }

  /** The scalar pass skips the rule types handled by the earlier passes. */
  predicate ScalarSkipped(rt: string) {
    rt == "prompt" || rt == "negative_prompt" || rt == "input_image" || rt == "input_images"
    || StartsWith(rt, "text") || StartsWith(rt, "string")
  }

  /** The parameter a rule reads in a pass, when it reads one; the prompt rule reads none. */
  function ReadsParam(p: Pass, rule: NodeRule): Option<string> {
    var rt := RuleType(rule);
    match p
    case TextPass =>
      if rt == "" || rt == "prompt" then None
      else if rt == "negative_prompt" then Some("negative_prompt")
      else
        var k := TextParamKey(rt, rule);
        if k.Some? && k.value != "" then k else None
    case ImagePass => if rt == "input_image" then Some("input_image") else None
    case ImagesPass => None
    case ScalarPass => if ScalarSkipped(rt) then None else Some(rt)
  }

  /** One rule in one pass. */
  function ApplyRule(p: Pass, wf: Graph, rule: NodeRule, prompt: string, eff: map<string, Value>): Result<Graph, TemplateError> {
    var rt := RuleType(rule);
    if p == TextPass && rt == "prompt" then SetAll(wf, rule.nodeIds, rule.key, Str(prompt))
    else if p == ImagesPass then
      (if rt == "input_images" then Success(ImagesRule(wf, rule, eff)) else Success(wf))
    else match ReadsParam(p, rule)
      case Some(k) => if HasValue(eff, k) then SetAll(wf, rule.nodeIds, rule.key, eff[k]) else Success(wf)
      case None => Success(wf)
  }

  /** One pass over the rules, in order; an error ends it. */
  function ApplyPass(p: Pass, wf: Graph, rules: seq<NodeRule>, prompt: string, eff: map<string, Value>): Result<Graph, TemplateError>
    decreases |rules|
  {
    if |rules| == 0 then Success(wf)
    else
      var w1 :- ApplyRule(p, wf, rules[0], prompt, eff);
      ApplyPass(p, w1, rules[1..], prompt, eff)
  }

  /** prepare_workflow with the drawn seed as a parameter. */
  function PrepareSpec(base: Graph, nm: NodesMap, prompt: string, params: map<string, Value>, seed: nat): Result<Graph, TemplateError>
    requires seed < SeedBound
  {
    var eff := EffectiveParams(params, seed);
    var w1 :- ApplyPass(TextPass, base, nm.nodes, prompt, eff);
    var w2 :- ApplyPass(ImagePass, w1, nm.nodes, prompt, eff);
    var w3 :- ApplyPass(ImagesPass, w2, nm.nodes, prompt, eff);
    ApplyPass(ScalarPass, w3, nm.nodes, prompt, eff)
  }

  // ---------------------------------------------------------------- properties of the passes

  /** A prompt rule always writes the prompt to every listed node. */
  lemma PromptRuleWrites(wf: Graph, rule: NodeRule, prompt: string, eff: map<string, Value>)
    requires RuleType(rule) == "prompt"
    ensures var r := ApplyRule(TextPass, wf, rule, prompt, eff);
      (r.Success? <==> forall i :: 0 <= i < |rule.nodeIds| ==> HasInputs(wf, rule.nodeIds[i]))
      && (r.Success? ==> forall i :: 0 <= i < |rule.nodeIds| ==>
            HasInputs(r.value, rule.nodeIds[i]) && rule.key in InputsOf(r.value, rule.nodeIds[i])
            && InputsOf(r.value, rule.nodeIds[i])[rule.key] == Str(prompt))
  {
    SetAllMeaning(wf, rule.nodeIds, rule.key, Str(prompt));
  }

  /** Every other rule writes only when the parameter it reads is present and not None;
      otherwise the template values stay. */
  lemma RuleNeedsValue(p: Pass, wf: Graph, rule: NodeRule, prompt: string, eff: map<string, Value>)
    requires p != ImagesPass
    requires !(p == TextPass && RuleType(rule) == "prompt")
    ensures ApplyRule(p, wf, rule, prompt, eff) != Success(wf) ==>
      ReadsParam(p, rule).Some? && HasValue(eff, ReadsParam(p, rule).value)
    ensures ReadsParam(p, rule).Some? && HasValue(eff, ReadsParam(p, rule).value) ==>
      ApplyRule(p, wf, rule, prompt, eff) == SetAll(wf, rule.nodeIds, rule.key, eff[ReadsParam(p, rule).value])
  {
  }

  /** The scalar pass leaves alone every rule whose type begins with "text" or "string". */
  lemma ScalarPassSkipsText(wf: Graph, rule: NodeRule, prompt: string, eff: map<string, Value>)
    requires StartsWith(RuleType(rule), "text") || StartsWith(RuleType(rule), "string")
    ensures ApplyRule(ScalarPass, wf, rule, prompt, eff) == Success(wf)
  {
  }

  /** A seed rule always has a value to write: the given seed, or the drawn one. */
  lemma SeedRuleWrites(wf: Graph, rule: NodeRule, prompt: string, params: map<string, Value>, seed: nat)
    requires seed < SeedBound && RuleType(rule) == "seed"
    ensures var eff := EffectiveParams(params, seed);
      var r := ApplyRule(ScalarPass, wf, rule, prompt, eff);
      (r.Success? <==> forall i :: 0 <= i < |rule.nodeIds| ==> HasInputs(wf, rule.nodeIds[i]))
      && (r.Success? ==> forall i :: 0 <= i < |rule.nodeIds| ==>
            HasInputs(r.value, rule.nodeIds[i]) && rule.key in InputsOf(r.value, rule.nodeIds[i])
            && InputsOf(r.value, rule.nodeIds[i])[rule.key]
              == (if HasValue(params, "seed") then params["seed"] else Int(seed)))
  {
    var eff := EffectiveParams(params, seed);
    assert !ScalarSkipped("seed");
    SetAllMeaning(wf, rule.nodeIds, rule.key, eff["seed"]);
  }

  /** A pass never adds a node, so a node missing before it is missing after it. */
  lemma {:induction false} ApplyPassKeys(p: Pass, wf: Graph, rules: seq<NodeRule>, prompt: string, eff: map<string, Value>)
    ensures ApplyPass(p, wf, rules, prompt, eff).Success? ==> ApplyPass(p, wf, rules, prompt, eff).value.Keys <= wf.Keys
    decreases |rules|
  {
    if |rules| > 0 {
      var s1 := ApplyRule(p, wf, rules[0], prompt, eff);
      if s1.Success? {
        ApplyRuleKeys(p, wf, rules[0], prompt, eff);
        ApplyPassKeys(p, s1.value, rules[1..], prompt, eff);
      }
    }
  }

  lemma ApplyRuleKeys(p: Pass, wf: Graph, rule: NodeRule, prompt: string, eff: map<string, Value>)
    ensures ApplyRule(p, wf, rule, prompt, eff).Success? ==> ApplyRule(p, wf, rule, prompt, eff).value.Keys <= wf.Keys
  {
    var rt := RuleType(rule);
    if p == ImagesPass && rt == "input_images" {
      ImagesRulePrunes(wf, rule, eff);
    } else if p == TextPass && rt == "prompt" {
      SetAllKeys(wf, rule.nodeIds, rule.key, Str(prompt));
    } else if p != ImagesPass && ReadsParam(p, rule).Some? && HasValue(eff, ReadsParam(p, rule).value) {
      SetAllKeys(wf, rule.nodeIds, rule.key, eff[ReadsParam(p, rule).value]);
    }
  }

  lemma SetAllKeys(wf: Graph, nids: seq<string>, key: string, v: Value)
    ensures SetAll(wf, nids, key, v).Success? ==> SetAll(wf, nids, key, v).value.Keys == wf.Keys
  {
    SetAllMeaning(wf, nids, key, v);
  }

  /** A scalar rule with a value that targets a node the pruning removed fails. */
  lemma ScalarRuleFailsOnMissingNode(wf: Graph, rule: NodeRule, prompt: string, eff: map<string, Value>, n: string)
    requires n in rule.nodeIds && n !in wf
    requires ReadsParam(ScalarPass, rule).Some? && HasValue(eff, ReadsParam(ScalarPass, rule).value)
    ensures ApplyRule(ScalarPass, wf, rule, prompt, eff).Failure?
  {
    SetAllMissingNode(wf, rule.nodeIds, rule.key, eff[ReadsParam(ScalarPass, rule).value], n);
  }

  /** One step of a pass: the first rule's error ends it, its result feeds the rest. */
  lemma ApplyPassStep(p: Pass, wf: Graph, rules: seq<NodeRule>, prompt: string, eff: map<string, Value>)
    requires |rules| > 0
    ensures var s1 := ApplyRule(p, wf, rules[0], prompt, eff);
      ApplyPass(p, wf, rules, prompt, eff)
        == if s1.Failure? then Failure(s1.error) else ApplyPass(p, s1.value, rules[1..], prompt, eff)
  {
  }

  /** A scalar rule with a value that targets a node the pruning removed makes the scalar
      pass fail: the pass indexes the graph without a guard. */
  lemma {:induction false} ScalarPassFailsOnPrunedNode(wf: Graph, rules: seq<NodeRule>, prompt: string,
                                                       eff: map<string, Value>, i: nat, n: string)
    requires i < |rules| && n in rules[i].nodeIds && n !in wf
    requires ReadsParam(ScalarPass, rules[i]).Some? && HasValue(eff, ReadsParam(ScalarPass, rules[i]).value)
    ensures ApplyPass(ScalarPass, wf, rules, prompt, eff).Failure?
    decreases i
  {
    var rest := rules[1..];
    assert i > 0 ==> rest[i - 1] == rules[i];
    ApplyPassStep(ScalarPass, wf, rules, prompt, eff);
    var s1 := ApplyRule(ScalarPass, wf, rules[0], prompt, eff);
    if i == 0 {
      ScalarRuleFailsOnMissingNode(wf, rules[0], prompt, eff, n);
    } else if s1.Success? {
      ApplyRuleKeys(ScalarPass, wf, rules[0], prompt, eff);
      ScalarPassFailsOnPrunedNode(s1.value, rest, prompt, eff, i - 1, n);
    }
  }

  // ---------------------------------------------------------------- the loops of prepare_workflow

  /** `for nid in rule.node_ids: wf[nid]["inputs"][rule.key] = val` */
  method SetInputs(wf: Graph, nids: seq<string>, key: string, v: Value) returns (r: Result<Graph, TemplateError>)
    ensures r == SetAll(wf, nids, key, v)
  {
    var cur := wf;
    var i := 0;
    while i < |nids|
      invariant 0 <= i <= |nids|
      invariant SetAll(wf, nids, key, v) == SetAll(cur, nids[i..], key, v)
    {
      assert nids[i..][1..] == nids[i + 1..];
      var step := SetInput(cur, nids[i], key, v);
      if step.Failure? {
        return Failure(step.error);
      }
      cur := step.value;
      i := i + 1;
    }
    return Success(cur);
  }

  /** `for idx, fname in enumerate(vals)`, stopping at the end of node_ids; a failing
      write is passed over. */
  method AssignImageList(wf: Graph, nids: seq<string>, vals: seq<Value>, key: string) returns (r: Graph)
    ensures r == AssignImages(wf, nids, vals, key)
  {
    r := wf;
    var idx := 0;
    while idx < |vals|
      invariant 0 <= idx <= |vals|
      invariant idx <= |nids|
      invariant AssignImages(wf, nids, vals, key) == AssignImages(r, nids[idx..], vals[idx..], key)
    {
      if idx >= |nids| {
        break;
      }
      assert nids[idx..][1..] == nids[idx + 1..] && vals[idx..][1..] == vals[idx + 1..];
      r := TrySet(r, nids[idx], key, vals[idx]);
      idx := idx + 1;
    }
  }

  /** The input loop for one node: `del inputs[k]` for every edge to a removed node. */
  method StripInputs(inputs: map<string, Value>, rs: set<string>) returns (r: map<string, Value>)
    ensures r == StripEdges(inputs, rs)
  {
    r := inputs;
    var todo := inputs.Keys;
    while todo != {}
      invariant todo <= inputs.Keys
      invariant r == map k | k in inputs && (k in todo || !IsEdgeTo(inputs[k], rs)) :: inputs[k]
      decreases |todo|
    {
      var k :| k in todo;
      if IsEdgeTo(inputs[k], rs) {
        r := r - {k};
      }
      todo := todo - {k};
    }
  }

  /** The node loop of _unlink_and_remove_nodes; a node without an inputs object is
      passed over. */
  method StripAllNodes(wf: Graph, rs: set<string>) returns (r: Graph)
    ensures r == map n | n in wf :: StripNode(wf[n], rs)
  {
    r := wf;
    var todo := wf.Keys;
    while todo != {}
      invariant todo <= wf.Keys
      invariant r == map n | n in wf :: if n in todo then wf[n] else StripNode(wf[n], rs)
      decreases |todo|
    {
      var n :| n in todo;
      var node := wf[n];
      if node.Obj? && "inputs" in node.fields && node.fields["inputs"].Obj? {
        var kept := StripInputs(node.fields["inputs"].fields, rs);
        r := r[n := Obj(node.fields["inputs" := Obj(kept)])];
      }
      todo := todo - {n};
    }
  }

  /** `for rid in remove_ids: workflow.pop(rid, None)` */
  method PopAll(wf: Graph, ids: seq<string>) returns (r: Graph)
    ensures r == wf - RemoveSet(ids)
  {
    r := wf;
    var i := 0;
    while i < |ids|
      invariant 0 <= i <= |ids|
      invariant r == wf - RemoveSet(ids[..i])
    {
      assert RemoveSet(ids[..i + 1]) == RemoveSet(ids[..i]) + {ids[i]};
      r := r - {ids[i]};
      i := i + 1;
    }
    assert ids[..i] == ids;
  }

  /** _unlink_and_remove_nodes: nothing to do for an empty list. */
  method UnlinkAndRemove(wf: Graph, ids: seq<string>) returns (r: Graph)
    ensures r == Unlink(wf, ids)
  {
    if |ids| == 0 {
      return wf;
    }
    var stripped := StripAllNodes(wf, RemoveSet(ids));
    r := PopAll(stripped, ids);
  }

  /** One "input_images" rule with the loops of the source. */
  method RunImagesRule(wf: Graph, rule: NodeRule, eff: map<string, Value>) returns (r: Graph)
    ensures r == ImagesRule(wf, rule, eff)
  {
    var vals := Get(eff, "input_images");
    if vals.Arr? && |vals.items| > 0 {
      r := AssignImageList(wf, rule.nodeIds, vals.items, rule.key);
      var used := Min(|vals.items|, |rule.nodeIds|);
      if used < |rule.nodeIds| {
        r := UnlinkAndRemove(r, rule.nodeIds[used..]);
      }
    } else {
      r := UnlinkAndRemove(wf, rule.nodeIds);
    }
  }

  /** The body of a pass loop for one rule. */
  method RunRule(p: Pass, wf: Graph, rule: NodeRule, prompt: string, eff: map<string, Value>)
    returns (r: Result<Graph, TemplateError>)
    ensures r == ApplyRule(p, wf, rule, prompt, eff)
  {
    var rt := RuleType(rule);
    if p == TextPass && rt == "prompt" {
      r := SetInputs(wf, rule.nodeIds, rule.key, Str(prompt));
    } else if p == ImagesPass {
      if rt == "input_images" {
        var w := RunImagesRule(wf, rule, eff);
        r := Success(w);
      } else {
        r := Success(wf);
      }
    } else {
      var k := ReadsParam(p, rule);
      if k.Some? && HasValue(eff, k.value) {
        r := SetInputs(wf, rule.nodeIds, rule.key, eff[k.value]);
      } else {
        r := Success(wf);
      }
    }
  }

  /** `for rule in nodes_map.nodes` in one pass; an exception ends prepare_workflow. */
  method RunPass(p: Pass, wf: Graph, rules: seq<NodeRule>, prompt: string, eff: map<string, Value>)
    returns (r: Result<Graph, TemplateError>)
    ensures r == ApplyPass(p, wf, rules, prompt, eff)
  {
    var cur := wf;
    var i := 0;
    while i < |rules|
      invariant 0 <= i <= |rules|
      invariant ApplyPass(p, wf, rules, prompt, eff) == ApplyPass(p, cur, rules[i..], prompt, eff)
    {
      assert rules[i..][1..] == rules[i + 1..];
      var step := RunRule(p, cur, rules[i], prompt, eff);
      if step.Failure? {
        return Failure(step.error);
      }
      cur := step.value;
      i := i + 1;
    }
    return Success(cur);
  }

  /** prepare_workflow: the drawn seed is a parameter, the four passes run in order. */
  method PrepareWorkflow(base: Graph, nm: NodesMap, prompt: string, params: map<string, Value>, seed: nat)
    returns (r: Result<Graph, TemplateError>)
    requires seed < SeedBound
    ensures r == PrepareSpec(base, nm, prompt, params, seed)
  {
    var eff := EffectiveParams(params, seed);
    r := RunPass(TextPass, base, nm.nodes, prompt, eff);
    if r.Failure? { return; }
    r := RunPass(ImagePass, r.value, nm.nodes, prompt, eff);
    if r.Failure? { return; }
    r := RunPass(ImagesPass, r.value, nm.nodes, prompt, eff);
    if r.Failure? { return; }
    r := RunPass(ScalarPass, r.value, nm.nodes, prompt, eff);
  }
}
