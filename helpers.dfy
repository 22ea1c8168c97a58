/** The text helpers of the Telegram layer (app/tg/helpers.py): the integer token
    scanner, the inline parameter parser, the integer part of merge_params and the
    callback data of the regenerate and cancel buttons, with the decoder the bot
    applies to regenerate callbacks (app/tg/bot.py).

    The regular expressions of the source are written out as the specific scanners
    they amount to; `\w` and case-insensitive matching are over ASCII. */
module Helpers {
  import opened Wrappers
  import opened Text
  import opened Json
  import opened Models

  // ---------------------------------------------------------------- _parse_int_token

  predicate IsSign(c: char) {
    c == '+' || c == '-'
  }

  /** `[-+]?\d+` can match at p. */
  predicate TokenStartAt(s: string, p: int) {
    0 <= p < |s| && (IsDigit(s[p]) || (IsSign(s[p]) && p + 1 < |s| && IsDigit(s[p + 1])))
  }

  /** The end of the digit run that starts at i. */
  function DigitRunEnd(s: string, i: nat): (e: nat)
    requires i <= |s|
    ensures i <= e <= |s| && AllDigits(s[i..e]) && (e == |s| || !IsDigit(s[e]))
    decreases |s| - i
  {
    if i < |s| && IsDigit(s[i]) then
      var e := DigitRunEnd(s, i + 1);
      assert s[i..e] == [s[i]] + s[i + 1..e];
      e
    else i
  }

  /** The leftmost position at or after p where the token can match. */
  function FirstTokenStart(s: string, p: nat): (r: Option<nat>)
    ensures r.Some? ==> p <= r.value && TokenStartAt(s, r.value) && forall q :: p <= q < r.value ==> !TokenStartAt(s, q)
    ensures r.None? ==> forall q :: p <= q ==> !TokenStartAt(s, q)
    decreases |s| - p
  {
    if p >= |s| then None
    else if TokenStartAt(s, p) then Some(p)
    else FirstTokenStart(s, p + 1)
  }

  /** The value of the token that starts at p. */
  function TokenAt(s: string, p: nat): int
    requires TokenStartAt(s, p)
  {
    var ds := if IsDigit(s[p]) then p else p + 1;
    var v: int := DigitsValue(s[ds..DigitRunEnd(s, ds)]);
    if s[p] == '-' then -v else v
  }

  /** The first `[-+]?\d+` of s as an int, None when there is none. */
  function ParseIntToken(s: string): Option<int> {
    match FirstTokenStart(s, 0)
    case None => None
    case Some(p) => Some(TokenAt(s, p))
  }

  predicate NoDigit(s: string) {
    forall i :: 0 <= i < |s| ==> !IsDigit(s[i])
  }

  /** There is a token exactly when there is a digit. */
  lemma ParseIntTokenNone(s: string)
    ensures ParseIntToken(s).None? <==> NoDigit(s)
  {
    if !NoDigit(s) {
      var i :| 0 <= i < |s| && IsDigit(s[i]);
      assert TokenStartAt(s, i);
    }
  }

  /** The integer written after digit-free text and before a non-digit is the token. */
  lemma ParseIntTokenOf(pre: string, n: int, post: string)
    requires NoDigit(pre) && (|post| == 0 || !IsDigit(post[0]))
    requires n < 0 || |pre| == 0 || !IsSign(pre[|pre| - 1])
    ensures ParseIntToken(pre + IntToString(n) + post) == Some(n)
  {
    var m: nat := if n < 0 then -n else n;
    var sign := if n < 0 then "-" else "";
    var s := pre + IntToString(n) + post;
    assert s == (pre + sign) + NatToString(m) + post;
    FirstTokenIsAfter(pre, sign, NatToString(m), post);
    TokenOfParts(pre, sign, NatToString(m), post);
    DigitsValueOfNatToString(m);
  }

  lemma TokenOfParts(pre: string, sign: string, digits: string, post: string)
    requires NoDigit(pre) && |digits| > 0 && AllDigits(digits) && (|post| == 0 || !IsDigit(post[0]))
    requires sign == "-" || (sign == "" && (|pre| == 0 || !IsSign(pre[|pre| - 1])))
    requires TokenStartAt((pre + sign) + digits + post, |pre|)
    requires var s := (pre + sign) + digits + post; (IsDigit(s[|pre|]) <==> sign == "") && (s[|pre|] == '-' <==> sign == "-")
    ensures TokenAt((pre + sign) + digits + post, |pre|)
      == if sign == "-" then -(DigitsValue(digits) as int) else DigitsValue(digits) as int
  {
    var s := (pre + sign) + digits + post;
    var ds := |pre + sign|;
    RunOfDigits(pre + sign, digits, post);
    assert ds == if IsDigit(s[|pre|]) then |pre| else |pre| + 1;
    assert s[ds..DigitRunEnd(s, ds)] == digits;
  }

  lemma FirstTokenIsAfter(pre: string, sign: string, digits: string, post: string)
    requires NoDigit(pre) && |digits| > 0 && IsDigit(digits[0])
    requires sign == "-" || (sign == "" && (|pre| == 0 || !IsSign(pre[|pre| - 1])))
    ensures var s := (pre + sign) + digits + post;
      FirstTokenStart(s, 0) == Some(|pre|) && TokenStartAt(s, |pre|) && (IsDigit(s[|pre|]) <==> sign == "") && (s[|pre|] == '-' <==> sign == "-")
  {
    var s := (pre + sign) + digits + post;
    forall q | 0 <= q < |pre| ensures !TokenStartAt(s, q) {
      assert s[q] == pre[q];
      if q + 1 < |pre| {
        assert s[q + 1] == pre[q + 1];
      } else {
        assert s[q + 1] == if sign == "-" then '-' else digits[0];
      }
    }
    if sign == "-" {
      assert s[|pre|] == '-' && s[|pre| + 1] == digits[0];
    } else {
      assert s[|pre|] == digits[0];
    }
    assert TokenStartAt(s, |pre|);
  }

  lemma RunOfDigits(pre: string, digits: string, post: string)
    requires AllDigits(digits) && (|post| == 0 || !IsDigit(post[0]))
    ensures DigitRunEnd(pre + digits + post, |pre|) == |pre| + |digits|
    ensures (pre + digits + post)[|pre|..|pre| + |digits|] == digits
  {
    var s := pre + digits + post;
    assert s[|pre|..|pre| + |digits|] == digits;
    forall k | |pre| <= k < |pre| + |digits| ensures IsDigit(s[k]) {
      assert s[k] == digits[k - |pre|];
    }
    if |pre| + |digits| < |s| {
      assert s[|pre| + |digits|] == post[0];
    }
    DigitRunEndIs(s, |pre|, |pre| + |digits|);
  }

  lemma {:induction false} DigitRunEndIs(s: string, i: nat, e: nat)
    requires i <= e <= |s| && (forall k :: i <= k < e ==> IsDigit(s[k])) && (e == |s| || !IsDigit(s[e]))
    ensures DigitRunEnd(s, i) == e
    decreases e - i
  {
    if i < e {
      DigitRunEndIs(s, i + 1, e);
    }
  }

  /** "1080," gives 1080. */
  lemma ParseIntTokenTrailingComma()
    ensures ParseIntToken("1080,") == Some(1080)
  {
    assert IntToString(1080) == "1080" by {
      assert NatToString(1080) == NatToString(108) + [DigitChar(0)];
      assert NatToString(108) == NatToString(10) + [DigitChar(8)];
      assert NatToString(10) == NatToString(1) + [DigitChar(0)];
    }
    ParseIntTokenOf("", 1080, ",");
    assert "" + "1080" + "," == "1080,";
  }

  // ---------------------------------------------------------------- scanners for the patterns

  /** The end of the whitespace run that starts at i. */
  function SkipSpaces(s: string, i: nat): (j: nat)
    requires i <= |s|
    ensures i <= j <= |s| && (forall k :: i <= k < j ==> IsSpace(s[k])) && (j == |s| || !IsSpace(s[j]))
    decreases |s| - i
  {
    if i < |s| && IsSpace(s[i]) then SkipSpaces(s, i + 1) else i
  }

  /** The end of the run of non-whitespace that starts at i. */
  function NonSpaceEnd(s: string, i: nat): (j: nat)
    requires i <= |s|
    ensures i <= j <= |s| && (forall k :: i <= k < j ==> !IsSpace(s[k])) && (j == |s| || IsSpace(s[j]))
    decreases |s| - i
  {
    if i < |s| && !IsSpace(s[i]) then NonSpaceEnd(s, i + 1) else i
  }

  /** `\b` before a word character at p. */
  predicate WordStart(s: string, p: nat) {
    p <= |s| && (p == 0 || !IsWordChar(s[p - 1]))
  }

  /** The word w, case-insensitively, at p. */
  predicate WordAt(s: string, p: nat, w: string) {
    p + |w| <= |s| && Lower(s[p..p + |w|]) == w
  }

  /** A match of `(?is)\btext\s*```(.*?)````: where it starts and ends and where its
      group lies. */
  datatype Fence = Fence(start: nat, innerStart: nat, innerEnd: nat, end: nat)

  function FenceAt(s: string, p: nat): (r: Option<Fence>)
    ensures r.Some? ==> r.value.start == p < r.value.innerStart <= r.value.innerEnd < r.value.end <= |s|
  {
    if WordStart(s, p) && WordAt(s, p, "text") then
      var j := SkipSpaces(s, p + 4);
      if j + 3 <= |s| && s[j..j + 3] == "```" then
        match IndexFrom(s, "```", j + 3)
        case Some(e) => Some(Fence(p, j + 3, e, e + 3))
        case None => None
      else None
    else None
  }

  /** re.search: the leftmost position where the pattern matches. */
  function FindFence(s: string, p: nat): (r: Option<Fence>)
    ensures r.Some? ==> p <= r.value.start < r.value.innerStart <= r.value.innerEnd < r.value.end <= |s|
    decreases |s| - p
  {
    if p >= |s| then None
    else match FenceAt(s, p)
      case Some(f) => Some(f)
      case None => FindFence(s, p + 1)
  }

  /** A match of `(?is)\btext\s*:\s*(.+)$`: where it starts and where its group starts;
      the group runs to the end, and `.+` takes back one space when only spaces follow
      the colon. */
  datatype Tail = Tail(start: nat, valueStart: nat)

  function TailAt(s: string, p: nat): (r: Option<Tail>)
    ensures r.Some? ==> r.value.start == p < r.value.valueStart < |s|
  {
    if WordStart(s, p) && WordAt(s, p, "text") then
      var j := SkipSpaces(s, p + 4);
      if j + 1 < |s| && s[j] == ':' then
        var k := SkipSpaces(s, j + 1);
        Some(Tail(p, if k < |s| then k else |s| - 1))
      else None
    else None
  }

  function FindTail(s: string, p: nat): (r: Option<Tail>)
    ensures r.Some? ==> p <= r.value.start < r.value.valueStart < |s|
    decreases |s| - p
  {
    if p >= |s| then None
    else match TailAt(s, p)
      case Some(t) => Some(t)
      case None => FindTail(s, p + 1)
  }

  /** The keys of the key=value pattern, in the order of its alternation. */
  const PatternKeys: seq<string> := ["steps", "width", "height", "n", "seed", "model", "fps", "length", "text"]

  const IntKeys: set<string> := {"steps", "width", "height", "n", "seed"}

  /** One key=value match: its span, the key (lower-cased) and the raw value. */
  datatype Pair = Pair(start: nat, end: nat, key: string, raw: string)

  /** The value alternatives `"[^"]*"|'[^']*'|[^\s]+`, tried in order at j; the end of
      the value. */
  function ValueEnd(s: string, j: nat): (r: Option<nat>)
    requires j <= |s|
    ensures r.Some? ==> j < r.value <= |s|
  {
    if j >= |s| then None
    else if s[j] == '"' && IndexFrom(s, "\"", j + 1).Some? then Some(IndexFrom(s, "\"", j + 1).value + 1)
    else if s[j] == '\'' && IndexFrom(s, "'", j + 1).Some? then Some(IndexFrom(s, "'", j + 1).value + 1)
    else if !IsSpace(s[j]) then Some(NonSpaceEnd(s, j))
    else None
  }

  /** `key\s*=\s*value` for the key alternatives keys[i..], in order, at p. */
  function PairAtKeys(s: string, p: nat, i: nat): (r: Option<Pair>)
    requires i <= |PatternKeys|
    ensures r.Some? ==> r.value.start == p < r.value.end <= |s| && r.value.key in PatternKeys
    decreases |PatternKeys| - i
  {
    if i == |PatternKeys| then None
    else
      var k := PatternKeys[i];
      if WordAt(s, p, k) then
        var j := SkipSpaces(s, p + |k|);
        if j < |s| && s[j] == '=' then
          var v := SkipSpaces(s, j + 1);
          match ValueEnd(s, v)
          case Some(e) => Some(Pair(p, e, k, s[v..e]))
          case None => PairAtKeys(s, p, i + 1)
        else PairAtKeys(s, p, i + 1)
      else PairAtKeys(s, p, i + 1)
  }

  function PairAt(s: string, p: nat): (r: Option<Pair>)
    ensures r.Some? ==> r.value.start == p < r.value.end <= |s| && r.value.key in PatternKeys
  {
    PairAtKeys(s, p, 0)
  }

  /** pattern.finditer: the non-overlapping matches from p on, left to right. */
  function FindPairs(s: string, p: nat): (r: seq<Pair>)
    ensures forall i :: 0 <= i < |r| ==> p <= r[i].start < r[i].end <= |s| && r[i].key in PatternKeys
    decreases |s| - p
  {
    if p >= |s| then []
    else match PairAt(s, p)
      case Some(m) => [m] + FindPairs(s, m.end)
      case None => FindPairs(s, p + 1)
  }

  /** pattern.sub("", s) from p on: what lies between the matches. */
  function RemovePairs(s: string, p: nat): string
    decreases |s| - p
  {
    if p >= |s| then ""
    else match PairAt(s, p)
      case Some(m) => RemovePairs(s, m.end)
      case None => [s[p]] + RemovePairs(s, p + 1)
  }

  function MatchedLength(ms: seq<Pair>): int {
    if |ms| == 0 then 0 else (ms[0].end - ms[0].start) + MatchedLength(ms[1..])
  }

  /** The substitution removes exactly the characters of the matches finditer finds. */
  lemma {:induction false} RemovePairsLength(s: string, p: nat)
    requires p <= |s|
    ensures |RemovePairs(s, p)| + MatchedLength(FindPairs(s, p)) == |s| - p
    decreases |s| - p
  {
    if p < |s| {
      var next := RemovePairsStep(s, p);
      RemovePairsLength(s, next);
    }
  }

  /** One step of the scan at p: a match is removed whole, anything else keeps one
      character. */
  lemma RemovePairsStep(s: string, p: nat) returns (next: nat)
    requires p < |s|
    ensures p < next <= |s|
    ensures |RemovePairs(s, p)| + MatchedLength(FindPairs(s, p))
         == (next - p) + |RemovePairs(s, next)| + MatchedLength(FindPairs(s, next))
  {
    match PairAt(s, p)
    case Some(m) =>
      next := m.end;
      var rest := FindPairs(s, m.end);
      assert FindPairs(s, p) == [m] + rest;
      assert ([m] + rest)[1..] == rest;
    case None =>
      next := p + 1;
  }

  /** Without a match the text is kept as it is. */
  lemma {:induction false} RemovePairsNone(s: string, p: nat)
    requires p <= |s| && FindPairs(s, p) == []
    ensures RemovePairs(s, p) == s[p..]
    decreases |s| - p
  {
    if p < |s| {
      assert PairAt(s, p).None?;
      assert FindPairs(s, p + 1) == [];
      RemovePairsNone(s, p + 1);
      assert RemovePairs(s, p) == [s[p]] + RemovePairs(s, p + 1);
      assert s[p..] == [s[p]] + s[p + 1..];
    }
  }

  /** re.sub(r"\s{2,}", " ", s): every run of two or more whitespace characters becomes
      one space. */
  function Collapse(s: string): (r: string)
    ensures |r| <= |s|
    ensures |s| > 0 ==> |r| > 0 && (IsSpace(r[0]) <==> IsSpace(s[0])) && (IsSpace(r[|r| - 1]) <==> IsSpace(s[|s| - 1]))
    ensures |s| > 0 && !IsSpace(s[0]) ==> r[0] == s[0]
    ensures forall i :: 0 <= i < |r| - 1 ==> !(IsSpace(r[i]) && IsSpace(r[i + 1]))
    decreases |s|
  {
    if |s| < 2 then s
    else if IsSpace(s[0]) && IsSpace(s[1]) then
      var j := SkipSpaces(s, 0);
      var rest := Collapse(s[j..]);
      assert j < |s| ==> s[j..][0] == s[j];
      assert j == |s| ==> IsSpace(s[|s| - 1]);
      assert j < |s| ==> s[j..][|s[j..]| - 1] == s[|s| - 1];
      var r := " " + rest;
      assert forall i :: 1 <= i < |r| ==> r[i] == rest[i - 1];
      r
    else
      var rest := Collapse(s[1..]);
      assert s[1..][0] == s[1];
      assert s[1..][|s[1..]| - 1] == s[|s| - 1];
      var r := [s[0]] + rest;
      assert forall i :: 1 <= i < |r| ==> r[i] == rest[i - 1];
      r
  }

  // ---------------------------------------------------------------- parse_inline_params

  /** Matching outer quotes are stripped. */
  function Unquote(raw: string): string {
    if |raw| > 0 && ((raw[0] == '"' && raw[|raw| - 1] == '"') || (raw[0] == '\'' && raw[|raw| - 1] == '\'')) then
      (if |raw| >= 2 then raw[1..|raw| - 1] else "")
    else raw
  }

  /** One key=value match into params: integer keys need an integer token, model and
      text keep the text; fps and length carry floats and are not stored here. */
  function ApplyPair(params: map<string, Value>, m: Pair): map<string, Value> {
    var v := Unquote(m.raw);
    if m.key in IntKeys then
      match ParseIntToken(v)
      case Some(n) => params[m.key := Int(n)]
      case None => params
    else if m.key == "model" || m.key == "text" then params[m.key := Str(v)]
    else params
  }

  /** `for m in matches`; a later match of a key overrides an earlier one. */
  function ApplyPairs(params: map<string, Value>, ms: seq<Pair>): map<string, Value>
    decreases |ms|
  {
    if |ms| == 0 then params else ApplyPairs(ApplyPair(params, ms[0]), ms[1..])
  }

  const RecognisedKeys: set<string> := {"steps", "width", "height", "n", "seed", "model", "text"}

  /** Only recognised keys are stored; an integer key whose value has no integer token
      is dropped. */
  lemma {:induction false} ApplyPairsKeys(params: map<string, Value>, ms: seq<Pair>)
    requires forall i :: 0 <= i < |ms| ==> ms[i].key in PatternKeys
    ensures ApplyPairs(params, ms).Keys <= params.Keys + RecognisedKeys
    decreases |ms|
  {
    if |ms| > 0 {
      ApplyPairsKeys(ApplyPair(params, ms[0]), ms[1..]);
    }
  }

  lemma IntKeyNeedsToken(params: map<string, Value>, m: Pair)
    requires m.key in IntKeys
    ensures ParseIntToken(Unquote(m.raw)).None? ==> ApplyPair(params, m) == params
    ensures ParseIntToken(Unquote(m.raw)).Some? ==> ApplyPair(params, m) == params[m.key := Int(ParseIntToken(Unquote(m.raw)).value)]
  {
  }

  /** The text found in a fence or a tail, and the working text once it is cut out. */
  datatype TextBlock = TextBlock(value: Option<string>, working: string)

  function ExtractTextBlock(text: string): TextBlock {
    match FindFence(text, 0)
    case Some(f) => TextBlock(Some(Strip(text[f.innerStart..f.innerEnd])), text[..f.start] + text[f.end..])
    case None =>
      match FindTail(text, 0)
      case Some(t) => TextBlock(Some(Strip(text[t.valueStart..])), text[..t.start])
      case None => TextBlock(None, text)
  }

  function CleanPrompt(working: string): string {
    Collapse(Strip(RemovePairs(working, 0)))
  }

  datatype Inline = Inline(cleaned: string, params: map<string, Value>)

  /** parse_inline_params */
  function ParseInline(text: string): Inline {
    var block := ExtractTextBlock(text);
    var params := ApplyPairs(map[], FindPairs(block.working, 0));
    var cleaned := CleanPrompt(block.working);
    if block.value.Some? && block.value.value != "" then Inline(cleaned, params["text" := Str(block.value.value)])
    else Inline(cleaned, params)
  }

  /** The cleaned prompt is trimmed and has no run of two whitespace characters. */
  lemma CleanedIsTidy(text: string)
    ensures var c := ParseInline(text).cleaned;
      NoSpaceEnds(c) && forall i :: 0 <= i < |c| - 1 ==> !(IsSpace(c[i]) && IsSpace(c[i + 1]))
  {
  }

  /** Only the recognised keys appear among the parameters. */
  lemma InlineKeys(text: string)
    ensures ParseInline(text).params.Keys <= RecognisedKeys
  {
    var block := ExtractTextBlock(text);
    ApplyPairsKeys(map[], FindPairs(block.working, 0));
  }

  /** A fenced block wins over a tail, and its non-empty text wins over text=...; the
      block is cut out of the text the prompt is cleaned from. */
  lemma FenceFirst(text: string)
    requires FindFence(text, 0).Some?
    ensures var f := FindFence(text, 0).value;
      var v := Strip(text[f.innerStart..f.innerEnd]);
      var r := ParseInline(text);
      r.cleaned == CleanPrompt(text[..f.start] + text[f.end..])
      && (v != "" ==> r.params["text"] == Str(v))
  {
  }

  /** Without a fence, a non-empty tail after "text:" is the text, and the prompt is
      cleaned from what comes before it. */
  lemma TailSecond(text: string)
    requires FindFence(text, 0).None? && FindTail(text, 0).Some?
    ensures var t := FindTail(text, 0).value;
      var v := Strip(text[t.valueStart..]);
      var r := ParseInline(text);
      r.cleaned == CleanPrompt(text[..t.start])
      && (v != "" ==> r.params["text"] == Str(v))
  {
  }

  /** The params loop of parse_inline_params. */
  method FillParams(ms: seq<Pair>) returns (params: map<string, Value>)
    ensures params == ApplyPairs(map[], ms)
  {
    params := map[];
    var i := 0;
    while i < |ms|
      invariant 0 <= i <= |ms|
      invariant ApplyPairs(map[], ms) == ApplyPairs(params, ms[i..])
    {
      assert ms[i..][1..] == ms[i + 1..];
      var m := ms[i];
      var v := Unquote(m.raw);
      if m.key in IntKeys {
        var n := ParseIntToken(v);
        if n.Some? {
          params := params[m.key := Int(n.value)];
        }
      } else if m.key == "model" || m.key == "text" {
        params := params[m.key := Str(v)];
      }
      i := i + 1;
    }
  }

  /** parse_inline_params with its steps in the order of the source. */
  method ParseInlineParams(text: string) returns (cleaned: string, params: map<string, Value>)
    ensures Inline(cleaned, params) == ParseInline(text)
  {
    var working := text;
    var textVal: Option<string> := None;
    var fence := FindFence(working, 0);
    if fence.Some? {
      textVal := Some(Strip(working[fence.value.innerStart..fence.value.innerEnd]));
      working := working[..fence.value.start] + working[fence.value.end..];
    }
    if textVal.None? {
      var tail := FindTail(working, 0);
      if tail.Some? {
        textVal := Some(Strip(working[tail.value.valueStart..]));
        working := working[..tail.value.start];
      }
    }
    assert TextBlock(textVal, working) == ExtractTextBlock(text);
    params := FillParams(FindPairs(working, 0));
    cleaned := CleanPrompt(working);
    if textVal.Some? && textVal.value != "" {
      params := params["text" := Str(textVal.value)];
    }
  }

  // ---------------------------------------------------------------- merge_params (integers)

  /** _clamp_value on integers: no limit table or a non-integer value leaves the value
      as it is; otherwise min(max, max(min, v)) for the bounds that are integers. Float
      values and float bounds are not part of this model. */
  function ClampInt(limits: map<string, Value>, key: string, v: int): int {
    var lim := Get(limits, key);
    if !lim.Obj? then v
    else
      var mn := Get(lim.fields, "min");
      var mx := Get(lim.fields, "max");
      var v1 := if IsPyInt(mn) && PyIntValue(mn) > v then PyIntValue(mn) else v;
      if IsPyInt(mx) && PyIntValue(mx) < v1 then PyIntValue(mx) else v1
  }

  function ClampValue(limits: map<string, Value>, key: string, value: Value): Value {
    if Get(limits, key).Obj? && IsPyInt(value) then Int(ClampInt(limits, key, PyIntValue(value)))
    else value
  }

  /** The clamp lands between the bounds it has, and is the identity without a table. */
  lemma ClampMeaning(limits: map<string, Value>, key: string, value: Value)
    ensures !Get(limits, key).Obj? || !IsPyInt(value) ==> ClampValue(limits, key, value) == value
    ensures Get(limits, key).Obj? && IsPyInt(value) ==>
      var lim := Get(limits, key).fields;
      var r := ClampInt(limits, key, PyIntValue(value));
      ClampValue(limits, key, value) == Int(r)
      && (IsPyInt(Get(lim, "max")) ==> r <= PyIntValue(Get(lim, "max")))
      && (IsPyInt(Get(lim, "min")) && !(IsPyInt(Get(lim, "max")) && PyIntValue(Get(lim, "max")) < PyIntValue(Get(lim, "min")))
          ==> r >= PyIntValue(Get(lim, "min")))
      && (IsPyInt(Get(lim, "min")) && IsPyInt(Get(lim, "max")) && PyIntValue(Get(lim, "min")) <= PyIntValue(value) <= PyIntValue(Get(lim, "max"))
          ==> r == PyIntValue(value))
  {
  }

  /** nodes.defaults, then meta defaults over them. */
  function BaseParams(cfg: TopicConfig): map<string, Value> {
    cfg.nodesMap.defaults + cfg.defaults
  }

  /** A default width/height that is the integer 0 takes the input's dimension. */
  function Inherit(params: map<string, Value>, dims: Option<(int, int)>): (r: map<string, Value>)
    ensures r.Keys == params.Keys
  {
    if dims.None? then params
    else
      var p1 := if IsPyInt(Get(params, "width")) && PyIntValue(Get(params, "width")) == 0 then params["width" := Int(dims.value.0)] else params;
      if IsPyInt(Get(p1, "height")) && PyIntValue(Get(p1, "height")) == 0 then p1["height" := Int(dims.value.1)] else p1
  }

  /** The inline keys, lower-cased, that the topic allows. */
  predicate Allowed(allowed: Option<seq<string>>, key: string) {
    allowed.None? || key in allowed.value
  }

  /** `for k, v in inline_params.items()`, in dict order; a later key that lower-cases
      to the same name overrides an earlier one. */
  function FilterInline(acc: map<string, Value>, inline: seq<(string, Value)>, allowed: Option<seq<string>>): map<string, Value>
    decreases |inline|
  {
    if |inline| == 0 then acc
    else
      var k := Lower(inline[0].0);
      FilterInline(if Allowed(allowed, k) then acc[k := inline[0].1] else acc, inline[1..], allowed)
  }

  /** Every filtered key is an allowed lower-cased inline key, and every allowed inline
      key is there. */
  lemma {:induction false} FilterInlineMeaning(acc: map<string, Value>, inline: seq<(string, Value)>, allowed: Option<seq<string>>)
    ensures var r := FilterInline(acc, inline, allowed);
      (forall k :: k in r ==> k in acc || (Allowed(allowed, k) && exists i :: 0 <= i < |inline| && Lower(inline[i].0) == k))
      && (forall i :: 0 <= i < |inline| && Allowed(allowed, Lower(inline[i].0)) ==> Lower(inline[i].0) in r)
      && (forall k :: k in acc ==> k in r)
    decreases |inline|
  {
    if |inline| > 0 {
      var k0 := Lower(inline[0].0);
      var acc1 := if Allowed(allowed, k0) then acc[k0 := inline[0].1] else acc;
      FilterInlineMeaning(acc1, inline[1..], allowed);
      var r := FilterInline(acc, inline, allowed);
      forall k | k in r ensures k in acc || (Allowed(allowed, k) && exists i :: 0 <= i < |inline| && Lower(inline[i].0) == k) {
        if k !in acc {
          if k in acc1 {
            assert Lower(inline[0].0) == k;
          } else {
            var i :| 0 <= i < |inline[1..]| && Allowed(allowed, k) && Lower(inline[1..][i].0) == k;
            assert inline[i + 1] == inline[1..][i];
          }
        }
      }
      forall i | 0 <= i < |inline| && Allowed(allowed, Lower(inline[i].0)) ensures Lower(inline[i].0) in r {
        if i > 0 {
          assert inline[i] == inline[1..][i - 1];
        }
      }
    }
  }

  /** The outcome of merge_params; NeedsScaling is the proportional width/height branch,
      which computes with floats and is not part of this model. */
  datatype MergeOutcome = Merged(params: map<string, Value>) | NeedsScaling(partial: map<string, Value>)

  /** Step 3: the inline values other than width/height, clamped, over the defaults. */
  function ApplyInline(params: map<string, Value>, filtered: map<string, Value>, limits: map<string, Value>): (r: map<string, Value>)
    ensures r.Keys == params.Keys + (filtered.Keys - {"width", "height"})
  {
    map k | k in params.Keys + (filtered.Keys - {"width", "height"}) ::
      if k in filtered && k != "width" && k != "height" then ClampValue(limits, k, filtered[k]) else params[k]
  }

  /** merge_params without the float scaling. */
  function MergeParams(cfg: TopicConfig, inline: seq<(string, Value)>, dims: Option<(int, int)>): MergeOutcome {
    var params := Inherit(BaseParams(cfg), dims);
    var filtered := FilterInline(map[], inline, cfg.inlineAllowed);
    var limits := cfg.inlineLimits;
    var result := ApplyInline(params, filtered, limits);
    var wCur := if "width" in filtered then filtered["width"] else Get(result, "width");
    var hCur := if "height" in filtered then filtered["height"] else Get(result, "height");
    if IsPyInt(wCur) && IsPyInt(hCur) then
      var w0 := PyIntValue(wCur);
      var h0 := PyIntValue(hCur);
      if (ClampInt(limits, "width", w0) != w0 && w0 != 0) || (ClampInt(limits, "height", h0) != h0 && h0 != 0) then
        NeedsScaling(result)
      else Merged(result["width" := Int(ClampInt(limits, "width", w0))]["height" := Int(ClampInt(limits, "height", h0))])
    else
      var r1 := if IsPyInt(wCur) then result["width" := Int(ClampInt(limits, "width", PyIntValue(wCur)))] else result;
      Merged(if IsPyInt(hCur) then r1["height" := Int(ClampInt(limits, "height", PyIntValue(hCur)))] else r1)
  }

  /** nodes.defaults < meta defaults < inline, for every key but width/height: an
      allowed inline value (clamped) wins, then the meta default, then the node default. */
  lemma MergePrecedence(cfg: TopicConfig, inline: seq<(string, Value)>, dims: Option<(int, int)>, k: string)
    requires k != "width" && k != "height" && MergeParams(cfg, inline, dims).Merged?
    ensures var r := MergeParams(cfg, inline, dims).params;
      var filtered := FilterInline(map[], inline, cfg.inlineAllowed);
      (k in r <==> k in cfg.nodesMap.defaults || k in cfg.defaults || k in filtered)
      && (k in filtered ==> r[k] == ClampValue(cfg.inlineLimits, k, filtered[k]))
      && (k !in filtered && k in cfg.defaults ==> r[k] == cfg.defaults[k])
      && (k !in filtered && k !in cfg.defaults && k in cfg.nodesMap.defaults ==> r[k] == cfg.nodesMap.defaults[k])
  {
    var params := Inherit(BaseParams(cfg), dims);
    var filtered := FilterInline(map[], inline, cfg.inlineAllowed);
    var result := ApplyInline(params, filtered, cfg.inlineLimits);
    MergedOthers(cfg, inline, dims, k);
    InheritOthers(BaseParams(cfg), dims, k);
    assert k in result <==> k in params || k in filtered;
  }

  /** The final width/height step leaves every other key of the merged map alone. */
  lemma MergedOthers(cfg: TopicConfig, inline: seq<(string, Value)>, dims: Option<(int, int)>, k: string)
    requires k != "width" && k != "height" && MergeParams(cfg, inline, dims).Merged?
    ensures var result := ApplyInline(Inherit(BaseParams(cfg), dims), FilterInline(map[], inline, cfg.inlineAllowed), cfg.inlineLimits);
      var r := MergeParams(cfg, inline, dims).params;
      (k in r <==> k in result) && (k in r ==> r[k] == result[k])
  {
  }

  lemma InheritOthers(params: map<string, Value>, dims: Option<(int, int)>, k: string)
    requires k != "width" && k != "height"
    ensures (k in Inherit(params, dims) <==> k in params) && (k in params ==> Inherit(params, dims)[k] == params[k])
  {
  }

  /** An inline key is used only when the topic allows it, lower-cased. */
  lemma MergeFilters(cfg: TopicConfig, inline: seq<(string, Value)>, k: string)
    requires k in FilterInline(map[], inline, cfg.inlineAllowed)
    ensures Allowed(cfg.inlineAllowed, k) && exists i :: 0 <= i < |inline| && Lower(inline[i].0) == k
  {
    FilterInlineMeaning(map[], inline, cfg.inlineAllowed);
  }

  /** Without width/height limits, integer width/height pass through and the result is
      not scaled; an inline width wins over the default, and a default of 0 takes the
      input's width. */
  lemma MergeWidthWithoutLimits(cfg: TopicConfig, inline: seq<(string, Value)>, dims: Option<(int, int)>)
    requires !Get(cfg.inlineLimits, "width").Obj? && !Get(cfg.inlineLimits, "height").Obj?
    ensures var filtered := FilterInline(map[], inline, cfg.inlineAllowed);
      var params := Inherit(BaseParams(cfg), dims);
      var wCur := if "width" in filtered then filtered["width"] else Get(params, "width");
      var r := MergeParams(cfg, inline, dims);
      r.Merged?
      && (IsPyInt(wCur) ==> r.params["width"] == Int(PyIntValue(wCur)))
      && ("width" in filtered && IsPyInt(filtered["width"]) ==> r.params["width"] == Int(PyIntValue(filtered["width"])))
      && ("width" !in filtered && dims.Some? && IsPyInt(Get(BaseParams(cfg), "width")) && PyIntValue(Get(BaseParams(cfg), "width")) == 0
          ==> r.params["width"] == Int(dims.value.0))
  {
    var filtered := FilterInline(map[], inline, cfg.inlineAllowed);
    var params := Inherit(BaseParams(cfg), dims);
    var result := ApplyInline(params, filtered, cfg.inlineLimits);
    assert Get(result, "width") == Get(params, "width");
    assert Get(result, "height") == Get(params, "height");
  }

  // ---------------------------------------------------------------- callback data

  const RegenCb: string := "regen"

  const CancelCb: string := "cancel"

  /** make_regen_kb's callback data. */
  function RegenData(start: Option<int>, count: Option<int>): string {
    if start.Some? && count.Some? && start.value > 0 && count.value > 0 then
      Join([RegenCb, IntToString(start.value), IntToString(count.value)], ':')
    else RegenCb
  }

  /** The decoder of on_regen: "regen:<start>:<count>" with both parts int() literals,
      else neither; empty data counts as "regen". */
  function DecodeRegen(data: string): (Option<int>, Option<int>) {
    var d := if data == "" then RegenCb else data;
    var parts := Split(d, ':');
    if |parts| == 3 && parts[0] == RegenCb then
      match (ParsePyInt(parts[1]), ParsePyInt(parts[2]))
      case (Some(a), Some(b)) => (Some(a), Some(b))
      case _ => (None, None)
    else (None, None)
  }

  /** A one-button inline keyboard: the translation key of its label and its callback data. */
  datatype Keyboard = Keyboard(labelKey: string, data: string)

  /** make_regen_kb. */
  function MakeRegenKb(start: Option<int>, count: Option<int>): Keyboard {
    Keyboard("button_regen", RegenData(start, count))
  }

  /** make_cancel_kb. */
  function MakeCancelKb(): Keyboard {
    Keyboard("button_cancel", CancelCb)
  }

  /** The bot's callback handlers: on_cancel for data equal to "cancel", on_regen for
      data starting with "regen". */
  datatype CallbackRoute = ToCancel | ToRegen | Unrouted

  function RouteCallback(data: string): CallbackRoute {
    if data == CancelCb then ToCancel
    else if StartsWith(data, RegenCb) then ToRegen
    else Unrouted
  }

  /** Each keyboard's button reaches its own handler, and the cancel button's data decodes
      to no regeneration range. */
  lemma KeyboardsRouted(start: Option<int>, count: Option<int>)
    ensures RouteCallback(MakeCancelKb().data) == ToCancel
    ensures RouteCallback(MakeRegenKb(start, count).data) == ToRegen
    ensures DecodeRegen(MakeCancelKb().data) == (None, None)
    ensures MakeRegenKb(start, count).labelKey != MakeCancelKb().labelKey
  {
    SplitNoSep(CancelCb, ':');
    var d := RegenData(start, count);
    if start.Some? && count.Some? && start.value > 0 && count.value > 0 {
      var tail := Join([IntToString(start.value), IntToString(count.value)], ':');
      assert d == RegenCb + [':'] + tail;
      assert d[..|RegenCb|] == RegenCb;
      assert d[0] != CancelCb[0];
    }
  }

  /** The album regeneration flow runs for start > 0 and count > 1. */
  predicate AlbumRegen(start: Option<int>, count: Option<int>) {
    start.Some? && count.Some? && start.value != 0 && count.value != 0 && start.value > 0 && count.value > 1
  }

  lemma NoColonInInt(n: int)
    ensures ':' !in IntToString(n)
  {
    var d := NatToString(if n < 0 then -n else n);
    assert forall i :: 0 <= i < |d| ==> IsDigit(d[i]);
    if n < 0 {
      assert IntToString(n) == "-" + d;
      assert forall i :: 0 <= i < |IntToString(n)| ==> IntToString(n)[i] == '-' || IsDigit(IntToString(n)[i]);
    }
  }

  /** Decoding what make_regen_kb encodes gives the pair back when both are positive,
      and nothing otherwise. */
  lemma RegenRoundTrip(start: Option<int>, count: Option<int>)
    ensures DecodeRegen(RegenData(start, count))
      == if start.Some? && count.Some? && start.value > 0 && count.value > 0 then (start, count) else (None, None)
  {
    if start.Some? && count.Some? && start.value > 0 && count.value > 0 {
      RegenPairRoundTrip(start.value, count.value);
    } else {
      SplitNoSep(RegenCb, ':');
    }
  }

  lemma RegenPairRoundTrip(a: int, b: int)
    requires a > 0 && b > 0
    ensures DecodeRegen(RegenData(Some(a), Some(b))) == (Some(a), Some(b))
  {
    var parts := [RegenCb, IntToString(a), IntToString(b)];
    var data := Join(parts, ':');
    assert RegenData(Some(a), Some(b)) == data;
    NoColonInInt(a);
    NoColonInInt(b);
    assert ':' !in RegenCb;
    SplitJoin(parts, ':');
    assert data != "" by { assert Split(data, ':') != Split("", ':'); }
    assert Split(data, ':') == parts;
    ParsePyIntOfIntToString(a);
    ParsePyIntOfIntToString(b);
  }
}
