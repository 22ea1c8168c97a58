/** The decisions of the Telegram handlers: which messages are handled, how a media
    group becomes one generation request, the reserve / placeholder / enqueue protocol
    with its rollback, the regenerate and cancel buttons, and how a finished job's media
    is delivered. Network calls are inputs: each message carries what downloading and
    probing its attached image returned, and the placeholder send is an Option. */
module Bot {
  import opened Wrappers
  import opened Text
  import opened Json
  import opened Models
  import opened Helpers
  import Jobs

  // ---------------------------------------------------------------- messages

  datatype User = User(id: int, isBot: bool)

  /** The fields of a Telegram message the handlers read. `download` is what
      download_attached_image returns for it, `probed` what probe_attached_image_size
      returns (None when the message has no image or the call fails). */
  datatype Message = Message(
    messageId: int,
    chatId: Option<int>,
    threadId: Option<int>,
    caption: Option<string>,
    text: Option<string>,
    senderChatId: Option<int>,
    fromUser: Option<User>,
    hasPhoto: bool,
    documentMime: Option<string>,
    mediaGroupId: Option<string>,
    download: Option<ImageFile>,
    probed: Option<(int, int)>)

  /** "Anonymous admin as group": the message is sent on behalf of the chat itself. */
  predicate IsAnonLike(m: Message) {
    m.senderChatId.Some? && m.chatId.Some? && m.senderChatId.value == m.chatId.value
  }

  predicate NonEmpty(s: Option<string>) {
    s.Some? && s.value != ""
  }

  /** (m.caption or m.text or "").strip() */
  function TextOf(m: Message): string {
    Strip(if NonEmpty(m.caption) then m.caption.value else if NonEmpty(m.text) then m.text.value else "")
  }

  /** A photo, or a document whose MIME type starts with "image/". */
  predicate HasImage(m: Message) {
    m.hasPhoto || (m.documentMime.Some? && StartsWith(m.documentMime.value, "image/"))
  }

  predicate NeedsMulti(cfg: TopicConfig) {
    exists i :: 0 <= i < |cfg.nodesMap.nodes| && cfg.nodesMap.nodes[i].kind == "input_images"
  }

  predicate NeedsSingle(cfg: TopicConfig) {
    exists i :: 0 <= i < |cfg.nodesMap.nodes| && cfg.nodesMap.nodes[i].kind == "input_image"
  }

  // ---------------------------------------------------------------- routing

  datatype Route = Ignore | NotConfigured | Buffer(groupId: string) | Handle(cfg: TopicConfig)

  /** on_topic_message, behind the dispatcher filter that requires a truthy thread id.
      `byThread` is the repository's cache by topic id. */
  function RouteMessage(m: Message, allowedChatId: int, byThread: map<int, TopicConfig>): Route {
    if m.chatId.None? || m.chatId.value != allowedChatId then Ignore
    else if m.threadId.None? || m.threadId.value == 0 then Ignore
    else if m.senderChatId.Some? && !IsAnonLike(m) then Ignore
    else if m.fromUser.Some? && m.fromUser.value.isBot && !IsAnonLike(m) then Ignore
    else if m.threadId.value !in byThread then NotConfigured
    else
      var cfg := byThread[m.threadId.value];
      if NeedsMulti(cfg) && NonEmpty(m.mediaGroupId) then Buffer(m.mediaGroupId.value)
      else Handle(cfg)
  }

  /** A message reaches a topic exactly when it is in the allowed chat and a topic, and
      it is not authored as another chat nor by a bot, unless it is an anonymous admin. */
  lemma RouteFilter(m: Message, allowedChatId: int, byThread: map<int, TopicConfig>)
    ensures !RouteMessage(m, allowedChatId, byThread).Ignore?
      <==> (m.chatId == Some(allowedChatId) && m.threadId.Some? && m.threadId.value != 0
            && (m.senderChatId.Some? ==> IsAnonLike(m))
            && (m.fromUser.Some? && m.fromUser.value.isBot ==> IsAnonLike(m)))
    ensures RouteMessage(m, allowedChatId, byThread).Handle? || RouteMessage(m, allowedChatId, byThread).Buffer?
      ==> m.threadId.Some? && m.threadId.value in byThread
    ensures RouteMessage(m, allowedChatId, byThread).Buffer?
      ==> NeedsMulti(byThread[m.threadId.value]) && m.mediaGroupId == Some(RouteMessage(m, allowedChatId, byThread).groupId)
  {
  }

  // ---------------------------------------------------------------- ordering

  predicate SortedById(ms: seq<Message>) {
    forall i, j :: 0 <= i < j < |ms| ==> ms[i].messageId <= ms[j].messageId
  }

  predicate DistinctIds(ms: seq<Message>) {
    forall i, j :: 0 <= i < |ms| && 0 <= j < |ms| && i != j ==> ms[i].messageId != ms[j].messageId
  }

  function InsertById(m: Message, ms: seq<Message>): (r: seq<Message>)
    requires SortedById(ms)
    ensures SortedById(r)
    ensures multiset(r) == multiset(ms) + multiset{m}
    ensures |r| == |ms| + 1
  {
    if |ms| == 0 then [m]
    else if m.messageId <= ms[0].messageId then
      assert multiset([m] + ms) == multiset{m} + multiset(ms);
      [m] + ms
    else
      var h, t := ms[0], ms[1..];
      var rest := InsertById(m, t);
      assert ms == [h] + t;
      assert multiset(ms) == multiset{h} + multiset(t);
      assert multiset([h] + rest) == multiset{h} + multiset(rest);
      InsertKeepsBound(h, m, t, rest);
      [h] + rest
  }

  lemma InsertKeepsBound(h: Message, m: Message, t: seq<Message>, rest: seq<Message>)
    requires SortedById([h] + t) && SortedById(rest) && h.messageId < m.messageId
    requires multiset(rest) == multiset(t) + multiset{m}
    ensures SortedById([h] + rest)
  {
    forall x | x in rest ensures h.messageId <= x.messageId {
      assert x in multiset(rest);
      if x != m {
        assert x in multiset(t);
        var k :| 0 <= k < |t| && t[k] == x;
        assert ([h] + t)[0] == h && ([h] + t)[k + 1] == x;
      }
    }
    var r := [h] + rest;
    forall i, j | 0 <= i < j < |r| ensures r[i].messageId <= r[j].messageId {
      assert r[j] == rest[j - 1];
      if i > 0 {
        assert r[i] == rest[i - 1];
      } else {
        assert rest[j - 1] in rest;
      }
    }
  }

  /** list.sort(key=message_id): stable, so equal ids keep their order. */
  function SortById(ms: seq<Message>): (r: seq<Message>)
    ensures SortedById(r)
    ensures multiset(r) == multiset(ms)
    ensures |r| == |ms|
  {
    if |ms| == 0 then []
    else
      assert ms == [ms[0]] + ms[1..];
      InsertById(ms[0], SortById(ms[1..]))
  }

  lemma TwoCopies(y: seq<Message>, i: int, j: int)
    requires 0 <= i < j < |y| && y[i] == y[j]
    ensures multiset(y)[y[i]] >= 2
  {
    assert y == y[..j] + [y[j]] + y[j + 1..];
    assert y[..j][i] == y[i];
    assert y[i] in multiset(y[..j]);
  }

  lemma {:induction false} CopiesApart(x: seq<Message>, v: Message)
    requires multiset(x)[v] >= 2
    ensures exists p, q :: 0 <= p < q < |x| && x[p] == v && x[q] == v
  {
    assert x == [x[0]] + x[1..];
    if x[0] == v {
      assert v in multiset(x[1..]);
      var q :| 0 <= q < |x[1..]| && x[1..][q] == v;
      assert x[q + 1] == v;
    } else {
      CopiesApart(x[1..], v);
      var p, q :| 0 <= p < q < |x[1..]| && x[1..][p] == v && x[1..][q] == v;
      assert x[p + 1] == v && x[q + 1] == v;
    }
  }

  /** Distinct ids survive a permutation. */
  lemma DistinctTransfer(x: seq<Message>, y: seq<Message>)
    requires multiset(x) == multiset(y) && DistinctIds(x)
    ensures DistinctIds(y)
  {
    forall i, j | 0 <= i < |y| && 0 <= j < |y| && i != j
      ensures y[i].messageId != y[j].messageId
    {
      if y[i] == y[j] {
        if i < j { TwoCopies(y, i, j); } else { TwoCopies(y, j, i); }
        CopiesApart(x, y[i]);
        assert false;
      }
      assert y[i] in multiset(x) && y[j] in multiset(x);
      var p :| 0 <= p < |x| && x[p] == y[i];
      var q :| 0 <= q < |x| && x[q] == y[j];
      assert p != q;
    }
  }

  /** Two id-sorted arrangements of the same messages with distinct ids are equal. */
  lemma {:induction false} SortedUnique(a: seq<Message>, b: seq<Message>)
    requires SortedById(a) && SortedById(b) && DistinctIds(a) && DistinctIds(b)
    requires multiset(a) == multiset(b)
    ensures a == b
  {
    if |a| == 0 {
      assert |b| == |multiset(b)| == 0;
    } else {
      assert |b| == |multiset(b)| == |a|;
      SameHead(a, b);
      SameTail(a, b);
      SortedUnique(a[1..], b[1..]);
      assert a == [a[0]] + a[1..];
      assert b == [b[0]] + b[1..];
    }
  }

  lemma SameHead(a: seq<Message>, b: seq<Message>)
    requires SortedById(a) && SortedById(b) && DistinctIds(b)
    requires multiset(a) == multiset(b) && |a| > 0 && |b| > 0
    ensures a[0] == b[0]
  {
    assert a[0] in multiset(b);
    assert b[0] in multiset(a);
    var k :| 0 <= k < |b| && b[k] == a[0];
    var j :| 0 <= j < |a| && a[j] == b[0];
    assert a[0].messageId <= a[j].messageId;
    assert b[0].messageId <= b[k].messageId;
  }

  lemma SameTail(a: seq<Message>, b: seq<Message>)
    requires multiset(a) == multiset(b) && |a| > 0 && |b| > 0 && a[0] == b[0]
    ensures multiset(a[1..]) == multiset(b[1..])
  {
    assert a == [a[0]] + a[1..];
    assert b == [b[0]] + b[1..];
    assert multiset(a[1..]) == multiset(a) - multiset{a[0]};
    assert multiset(b[1..]) == multiset(b) - multiset{b[0]};
  }

  /** Sorting makes the order of arrival irrelevant. */
  lemma SortDeterministic(a: seq<Message>, b: seq<Message>)
    requires multiset(a) == multiset(b) && DistinctIds(a)
    ensures SortById(a) == SortById(b)
  {
    DistinctTransfer(a, SortById(a));
    DistinctTransfer(a, b);
    DistinctTransfer(b, SortById(b));
    SortedUnique(SortById(a), SortById(b));
  }

  // ---------------------------------------------------------------- composing a request

  /** The stripped text of each message, in order. */
  function Texts(ms: seq<Message>): seq<string> {
    seq(|ms|, i requires 0 <= i < |ms| => TextOf(ms[i]))
  }

  function FirstNonEmpty(ts: seq<string>): string {
    if |ts| == 0 then ""
    else if ts[0] != "" then ts[0]
    else FirstNonEmpty(ts[1..])
  }

  lemma {:induction false} FirstNonEmptyMeaning(ts: seq<string>)
    ensures FirstNonEmpty(ts) == "" <==> forall i :: 0 <= i < |ts| ==> ts[i] == ""
    ensures FirstNonEmpty(ts) != "" ==> exists k :: 0 <= k < |ts| && FirstNonEmpty(ts) == ts[k]
                                                   && forall j :: 0 <= j < k ==> ts[j] == ""
  {
    if |ts| > 0 && ts[0] == "" {
      var t := ts[1..];
      FirstNonEmptyMeaning(t);
      assert forall i :: 1 <= i < |ts| ==> ts[i] == t[i - 1];
      if FirstNonEmpty(t) != "" {
        var k :| 0 <= k < |t| && FirstNonEmpty(t) == t[k] && forall j :: 0 <= j < k ==> t[j] == "";
        assert ts[k + 1] == t[k];
      }
    }
  }

  /** The prompt: the first non-empty stripped caption or text, in message order. */
  function FirstText(ms: seq<Message>): string {
    FirstNonEmpty(Texts(ms))
  }

  /** The prompt is empty exactly when every message's text is, and is otherwise the
      text of the first message that has one. */
  lemma FirstTextMeaning(ms: seq<Message>)
    ensures FirstText(ms) == "" <==> forall i :: 0 <= i < |ms| ==> TextOf(ms[i]) == ""
    ensures FirstText(ms) != "" ==> exists k :: 0 <= k < |ms| && FirstText(ms) == TextOf(ms[k])
                                               && forall j :: 0 <= j < k ==> TextOf(ms[j]) == ""
  {
    var ts := Texts(ms);
    FirstNonEmptyMeaning(ts);
    if FirstText(ms) != "" {
      var k :| 0 <= k < |ts| && FirstNonEmpty(ts) == ts[k] && forall j :: 0 <= j < k ==> ts[j] == "";
      assert FirstText(ms) == TextOf(ms[k]);
      assert forall j :: 0 <= j < k ==> TextOf(ms[j]) == "" by {
        forall j | 0 <= j < k ensures TextOf(ms[j]) == "" { assert ts[j] == ""; }
      }
    } else {
      assert forall i :: 0 <= i < |ms| ==> TextOf(ms[i]) == "" by {
        forall i | 0 <= i < |ms| ensures TextOf(ms[i]) == "" { assert ts[i] == ""; }
      }
    }
  }

  lemma TextsCons(ms: seq<Message>)
    requires |ms| > 0
    ensures Texts(ms) == [TextOf(ms[0])] + Texts(ms[1..])
  {
    var t := Texts(ms[1..]);
    assert forall i :: 0 <= i < |t| ==> t[i] == TextOf(ms[i + 1]);
  }

  method ComposeText(ms: seq<Message>) returns (text: string)
    ensures text == FirstText(ms)
  {
    text := "";
    var i := 0;
    while i < |ms|
      invariant 0 <= i <= |ms|
      invariant FirstText(ms) == FirstText(ms[i..])
    {
      TextsCons(ms[i..]);
      assert ms[i..][0] == ms[i] && ms[i..][1..] == ms[i + 1..];
      var t := TextOf(ms[i]);
      if t != "" {
        text := t;
        return;
      }
      i := i + 1;
    }
  }

  predicate AnyImage(ms: seq<Message>) {
    exists i :: 0 <= i < |ms| && HasImage(ms[i])
  }

  /** The size of the first message whose probe succeeds. */
  function FirstDims(ms: seq<Message>): Option<(int, int)> {
    if |ms| == 0 then None
    else if ms[0].probed.Some? then ms[0].probed
    else FirstDims(ms[1..])
  }

  lemma {:induction false} FirstDimsMeaning(ms: seq<Message>)
    ensures FirstDims(ms).None? <==> forall i :: 0 <= i < |ms| ==> ms[i].probed.None?
    ensures FirstDims(ms).Some? ==> exists k :: 0 <= k < |ms| && ms[k].probed == FirstDims(ms)
                                               && forall j :: 0 <= j < k ==> ms[j].probed.None?
  {
    if |ms| > 0 {
      if ms[0].probed.Some? {
        assert FirstDims(ms) == ms[0].probed;
      } else {
        var t := ms[1..];
        FirstDimsMeaning(t);
        assert FirstDims(ms) == FirstDims(t);
        assert forall i :: 1 <= i < |ms| ==> ms[i] == t[i - 1];
        if FirstDims(t).Some? {
          var k :| 0 <= k < |t| && t[k].probed == FirstDims(t) && forall j :: 0 <= j < k ==> t[j].probed.None?;
          assert ms[k + 1] == t[k];
          assert forall j :: 0 <= j < k + 1 ==> ms[j].probed.None?;
        }
      }
    }
  }

  method ProbeDims(ms: seq<Message>) returns (dims: Option<(int, int)>)
    ensures dims == FirstDims(ms)
  {
    dims := None;
    var i := 0;
    while i < |ms|
      invariant 0 <= i <= |ms|
      invariant FirstDims(ms) == FirstDims(ms[i..])
      invariant dims.None?
    {
      assert ms[i..][0] == ms[i] && ms[i..][1..] == ms[i + 1..];
      dims := ms[i].probed;
      if dims.Some? {
        return;
      }
      i := i + 1;
    }
  }

  /** The images that downloaded, in message order. */
  function Downloads(ms: seq<Message>): (r: seq<ImageFile>)
    ensures |r| <= |ms|
  {
    if |ms| == 0 then []
    else (if ms[0].download.Some? then [ms[0].download.value] else []) + Downloads(ms[1..])
  }

  lemma {:induction false} DownloadsConcat(a: seq<Message>, b: seq<Message>)
    ensures Downloads(a + b) == Downloads(a) + Downloads(b)
  {
    if |a| == 0 {
      assert a + b == b;
    } else {
      assert (a + b)[0] == a[0] && (a + b)[1..] == a[1..] + b;
      DownloadsConcat(a[1..], b);
      var h := if a[0].download.Some? then [a[0].download.value] else [];
      assert Downloads(a + b) == h + Downloads(a[1..] + b);
      assert Downloads(a) == h + Downloads(a[1..]);
    }
  }

  /** At most ten images are collected. */
  const MaxImages: int := 10

  function Gathered(ms: seq<Message>): (r: seq<ImageFile>)
    ensures |r| <= MaxImages
    ensures r <= Downloads(ms)
    ensures |Downloads(ms)| <= MaxImages ==> r == Downloads(ms)
  {
    var d := Downloads(ms);
    if |d| <= MaxImages then d else d[..MaxImages]
  }

  method GatherImages(ms: seq<Message>) returns (images: seq<ImageFile>)
    ensures images == Gathered(ms)
  {
    images := [];
    var i := 0;
    while i < |ms|
      invariant 0 <= i <= |ms|
      invariant images == Downloads(ms[..i])
      invariant |images| < MaxImages
    {
      DownloadsStep(ms, i);
      if ms[i].download.Some? {
        images := images + [ms[i].download.value];
      }
      if |images| >= MaxImages {
        GatheredStop(ms, i + 1);
        return;
      }
      i := i + 1;
    }
    assert ms[..i] == ms;
  }

  lemma DownloadsStep(ms: seq<Message>, i: nat)
    requires i < |ms|
    ensures Downloads(ms[..i + 1])
         == Downloads(ms[..i]) + (if ms[i].download.Some? then [ms[i].download.value] else [])
  {
    assert ms[..i + 1] == ms[..i] + [ms[i]];
    DownloadsConcat(ms[..i], [ms[i]]);
    assert Downloads([ms[i]]) == (if ms[i].download.Some? then [ms[i].download.value] else []) + Downloads([]);
  }

  /** Once ten images are found, the rest of the group adds nothing. */
  lemma GatheredStop(ms: seq<Message>, k: nat)
    requires k <= |ms| && |Downloads(ms[..k])| == MaxImages
    ensures Gathered(ms) == Downloads(ms[..k])
  {
    assert ms == ms[..k] + ms[k..];
    DownloadsConcat(ms[..k], ms[k..]);
    var d := Downloads(ms);
    assert d[..MaxImages] == Downloads(ms[..k]);
  }

  function Ids(ms: seq<Message>): (r: seq<int>)
    ensures |r| == |ms| && forall i :: 0 <= i < |ms| ==> r[i] == ms[i].messageId
  {
    if |ms| == 0 then [] else [ms[0].messageId] + Ids(ms[1..])
  }

  /** What _send_and_enqueue is called with, apart from the merged parameters. */
  datatype Submission = Submission(
    chatId: int,
    threadId: int,
    replyTo: Option<int>,
    userId: int,
    prompt: string,
    inline: map<string, Value>,
    dims: Option<(int, int)>,
    inputImage: Option<ImageFile>,
    inputImages: Option<seq<ImageFile>>,
    sourceIds: seq<int>)

  datatype GroupOutcome = Dropped | PromptOrImageRequired | InputImageRequired | Submit(sub: Submission)

  /** Who the job is attributed to: the acting user when given, nobody (0, no limit) for
      an anonymous admin, else the author, else 0. */
  function RequesterId(acting: Option<int>, ref: Message): int {
    if acting.Some? then acting.value
    else if IsAnonLike(ref) then 0
    else if ref.fromUser.Some? then ref.fromUser.value.id
    else 0
  }

  /** The order _handle_messages_group processes messages in. */
  function Arranged(msgs: seq<Message>): (r: seq<Message>)
    ensures |r| == |msgs| && multiset(r) == multiset(msgs) && SortedById(r)
  {
    if |msgs| > 1 then SortById(msgs) else msgs
  }

  /** The input images a topic asks for: multi-image topics take the list, single-image
      topics its first element, and both refuse an empty list. */
  function WithImages(cfg: TopicConfig, images: seq<ImageFile>, sub: Submission): GroupOutcome {
    if NeedsMulti(cfg) then
      if |images| == 0 then InputImageRequired else Submit(sub.(inputImages := Some(images)))
    else if NeedsSingle(cfg) then
      if |images| == 0 then InputImageRequired else Submit(sub.(inputImage := Some(images[0])))
    else Submit(sub)
  }

  lemma WithImagesMeaning(cfg: TopicConfig, images: seq<ImageFile>, sub: Submission)
    requires sub.inputImage.None? && sub.inputImages.None?
    ensures var r := WithImages(cfg, images, sub);
      && (r.Submit? <==> |images| > 0 || (!NeedsMulti(cfg) && !NeedsSingle(cfg)))
      && (!r.Submit? ==> r == InputImageRequired)
      && (r.Submit? ==> r.sub.(inputImage := None, inputImages := None) == sub)
      && (r.Submit? && NeedsMulti(cfg) ==> r.sub.inputImage.None? && r.sub.inputImages == Some(images))
      && (r.Submit? && !NeedsMulti(cfg) && NeedsSingle(cfg) ==> r.sub.inputImages.None? && r.sub.inputImage == Some(images[0]))
      && (r.Submit? && !NeedsMulti(cfg) && !NeedsSingle(cfg) ==> r.sub.inputImage.None? && r.sub.inputImages.None?)
  {
  }

  /** The request before its images: reply target, requester, prompt, size and source ids. */
  function BaseSubmission(ms: seq<Message>, text: string, replyOverride: Option<int>,
                          sourceOverride: Option<seq<int>>, acting: Option<int>): Submission
    requires |ms| > 0 && ms[0].chatId.Some? && ms[0].threadId.Some?
  {
    var inl := ParseInline(text);
    Submission(
      ms[0].chatId.value, ms[0].threadId.value,
      if replyOverride.Some? then replyOverride else Some(ms[0].messageId),
      RequesterId(acting, ms[0]), inl.cleaned, inl.params, FirstDims(ms), None, None,
      if sourceOverride.Some? then sourceOverride.value else Ids(ms))
  }

  /** _handle_messages_group on messages already in processing order. */
  function Compose(cfg: TopicConfig, ms: seq<Message>, replyOverride: Option<int>,
                   sourceOverride: Option<seq<int>>, acting: Option<int>): GroupOutcome
    requires |ms| > 0
  {
    if ms[0].chatId.None? || ms[0].threadId.None? then Dropped
    else
      var text := FirstText(ms);
      if text == "" && !AnyImage(ms) then PromptOrImageRequired
      else WithImages(cfg, Gathered(ms), BaseSubmission(ms, text, replyOverride, sourceOverride, acting))
  }

  /** _handle_messages_group up to the call of _send_and_enqueue. */
  function HandleGroup(cfg: TopicConfig, msgs: seq<Message>, replyOverride: Option<int>,
                       sourceOverride: Option<seq<int>>, acting: Option<int>): GroupOutcome
  {
    if |msgs| == 0 then Dropped else Compose(cfg, Arranged(msgs), replyOverride, sourceOverride, acting)
  }

  /** The first message processed has the smallest id. */
  lemma ArrangedFirstIsMin(msgs: seq<Message>)
    requires |msgs| > 0
    ensures forall i :: 0 <= i < |msgs| ==> Arranged(msgs)[0].messageId <= msgs[i].messageId
  {
    var ms := Arranged(msgs);
    forall i | 0 <= i < |msgs| ensures ms[0].messageId <= msgs[i].messageId {
      assert msgs[i] in multiset(ms);
      var k :| 0 <= k < |ms| && ms[k] == msgs[i];
      assert k == 0 || ms[0].messageId <= ms[k].messageId;
    }
  }

  /** What a submitted request carries: the first non-empty text in id order as prompt,
      at most ten images of which multi-image topics need one and single-image topics
      take the first, the requester, reply target and source ids. */
  lemma GroupSubmitMeaning(cfg: TopicConfig, msgs: seq<Message>, replyOverride: Option<int>,
                           sourceOverride: Option<seq<int>>, acting: Option<int>)
    requires HandleGroup(cfg, msgs, replyOverride, sourceOverride, acting).Submit?
    ensures |msgs| > 0
    ensures var sub := HandleGroup(cfg, msgs, replyOverride, sourceOverride, acting).sub;
      var ms := Arranged(msgs);
      && (FirstText(ms) != "" || AnyImage(ms))
      && (NeedsMulti(cfg) ==> (sub.inputImage.None? && sub.inputImages == Some(Gathered(ms))
                               && 1 <= |sub.inputImages.value| <= MaxImages))
      && (!NeedsMulti(cfg) && NeedsSingle(cfg) ==> (sub.inputImages.None? && |Downloads(ms)| > 0
                                                    && sub.inputImage == Some(Downloads(ms)[0])))
      && (!NeedsMulti(cfg) && !NeedsSingle(cfg) ==> sub.inputImage.None? && sub.inputImages.None?)
      && sub.userId == RequesterId(acting, ms[0])
      && sub.replyTo == (if replyOverride.Some? then replyOverride else Some(ms[0].messageId))
      && (forall i :: 0 <= i < |msgs| ==> ms[0].messageId <= msgs[i].messageId)
      && sub.sourceIds == (if sourceOverride.Some? then sourceOverride.value else Ids(ms))
  {
    var ms := Arranged(msgs);
    var text := FirstText(ms);
    WithImagesMeaning(cfg, Gathered(ms), BaseSubmission(ms, text, replyOverride, sourceOverride, acting));
    ArrangedFirstIsMin(msgs);
  }

  /** The prompt and the inline parameters come from the first non-empty text in id order. */
  lemma GroupPrompt(cfg: TopicConfig, msgs: seq<Message>, replyOverride: Option<int>,
                    sourceOverride: Option<seq<int>>, acting: Option<int>)
    requires HandleGroup(cfg, msgs, replyOverride, sourceOverride, acting).Submit?
    ensures var sub := HandleGroup(cfg, msgs, replyOverride, sourceOverride, acting).sub;
      var inl := ParseInline(FirstText(Arranged(msgs)));
      sub.prompt == inl.cleaned && sub.inline == inl.params
  {
    var ms := Arranged(msgs);
    var text := FirstText(ms);
    WithImagesMeaning(cfg, Gathered(ms), BaseSubmission(ms, text, replyOverride, sourceOverride, acting));
  }

  /** A topic that needs input images rejects a request none of whose messages downloaded one. */
  lemma GroupNeedsImage(cfg: TopicConfig, msgs: seq<Message>, replyOverride: Option<int>,
                        sourceOverride: Option<seq<int>>, acting: Option<int>)
    requires NeedsMulti(cfg) || NeedsSingle(cfg)
    requires forall i :: 0 <= i < |msgs| ==> msgs[i].download.None?
    ensures !HandleGroup(cfg, msgs, replyOverride, sourceOverride, acting).Submit?
  {
    if |msgs| > 0 {
      var ms := Arranged(msgs);
      forall i | 0 <= i < |ms| ensures ms[i].download.None? {
        assert ms[i] in multiset(msgs);
        var k :| 0 <= k < |msgs| && msgs[k] == ms[i];
      }
      NoDownloads(ms);
      ComposeNeedsImage(cfg, ms, replyOverride, sourceOverride, acting);
    }
  }

  lemma ComposeNeedsImage(cfg: TopicConfig, ms: seq<Message>, replyOverride: Option<int>,
                          sourceOverride: Option<seq<int>>, acting: Option<int>)
    requires |ms| > 0 && Downloads(ms) == [] && (NeedsMulti(cfg) || NeedsSingle(cfg))
    ensures !Compose(cfg, ms, replyOverride, sourceOverride, acting).Submit?
  {
    var r := Compose(cfg, ms, replyOverride, sourceOverride, acting);
    if r.Submit? {
      var base := ComposeSubmits(cfg, ms, replyOverride, sourceOverride, acting);
      GatheredNone(ms);
      WithNoImages(cfg, base);
      assert false;
    }
  }

  /** A submitted request is the base submission with its images attached. */
  lemma ComposeSubmits(cfg: TopicConfig, ms: seq<Message>, replyOverride: Option<int>,
                       sourceOverride: Option<seq<int>>, acting: Option<int>) returns (base: Submission)
    requires |ms| > 0 && Compose(cfg, ms, replyOverride, sourceOverride, acting).Submit?
    ensures Compose(cfg, ms, replyOverride, sourceOverride, acting) == WithImages(cfg, Gathered(ms), base)
  {
    base := BaseSubmission(ms, FirstText(ms), replyOverride, sourceOverride, acting);
  }

  lemma GatheredNone(ms: seq<Message>)
    requires Downloads(ms) == []
    ensures Gathered(ms) == []
  {
  }

  lemma WithNoImages(cfg: TopicConfig, sub: Submission)
    requires NeedsMulti(cfg) || NeedsSingle(cfg)
    ensures WithImages(cfg, [], sub) == InputImageRequired
  {
  }

  lemma {:induction false} NoDownloads(ms: seq<Message>)
    requires forall i :: 0 <= i < |ms| ==> ms[i].download.None?
    ensures Downloads(ms) == []
  {
    if |ms| > 0 {
      NoDownloads(ms[1..]);
    }
  }

  /** The messages of a media group may arrive in any order: the outcome is the same. */
  lemma GroupOrderIrrelevant(cfg: TopicConfig, a: seq<Message>, b: seq<Message>, replyOverride: Option<int>,
                             sourceOverride: Option<seq<int>>, acting: Option<int>)
    requires multiset(a) == multiset(b) && DistinctIds(a)
    ensures HandleGroup(cfg, a, replyOverride, sourceOverride, acting)
         == HandleGroup(cfg, b, replyOverride, sourceOverride, acting)
  {
    assert |a| == |multiset(a)| == |multiset(b)| == |b|;
    if |a| > 1 {
      SortDeterministic(a, b);
    } else if |a| == 1 {
      assert b[0] in multiset(a);
      assert a == [a[0]] && b == [b[0]];
    }
  }

  // ---------------------------------------------------------------- reserve, placeholder, enqueue

  datatype SendOutcome = LimitReached | PlaceholderFailed | EnqueueFailed | Enqueued(waiting: bool)

  /** The per-user limit is checked only for a positive int limit and a real user. */
  predicate LimitActive(limit: Option<int>, u: int) {
    limit.Some? && limit.value > 0 && u > 0
  }

  /** The job _send_and_enqueue builds; an empty source id list is stored as None. */
  function JobFor(sub: Submission, alias: string, params: map<string, Value>, placeholderId: int,
                  correlationId: string, ts: real, waiting: bool): GenerateJob
  {
    NewGenerateJob(sub.chatId, sub.threadId, placeholderId, sub.prompt, sub.userId, params, alias,
                   correlationId, sub.inputImage, sub.inputImages, ts, waiting,
                   if |sub.sourceIds| > 0 then Some(sub.sourceIds) else None)
  }

  function Rollback(s: Jobs.QState, reserved: bool, u: int): Jobs.QState {
    if reserved && u > 0 then Jobs.ReleaseUserSlotSpec(s, u) else s
  }

  /** _send_and_enqueue on the queue state. `placeholder` is the id of the placeholder
      message, None when sending it failed. A reservation that fails right after a
      successful can_enqueue cannot happen without concurrency (ReserveAfterCanEnqueue),
      so a job is reserved for exactly when the limit is active. */
  function SendSpec(s: Jobs.QState, alias: string, sub: Submission, params: map<string, Value>,
                    limit: Option<int>, placeholder: Option<int>, correlationId: string, ts: real)
    : (Jobs.QState, SendOutcome)
  {
    var u := sub.userId;
    var active := LimitActive(limit, u);
    if active && !Jobs.CanEnqueueSpec(s, u, limit.value) then (s, LimitReached)
    else
      var s1 := if active then Jobs.ReserveUserSlotSpec(s, u, limit.value).0 else s;
      AfterGate(s1, active, alias, sub, params, placeholder, correlationId, ts)
  }

  /** After the limit gate: estimate the wait, send the placeholder, enqueue. */
  function AfterGate(s: Jobs.QState, reserved: bool, alias: string, sub: Submission, params: map<string, Value>,
                     placeholder: Option<int>, correlationId: string, ts: real): (Jobs.QState, SendOutcome)
  {
    var (s2, wq) := Jobs.WillQueueSpec(s, alias);
    if placeholder.None? then (Rollback(s2, reserved, sub.userId), PlaceholderFailed)
    else AfterPlaceholder(s2, reserved, alias, JobFor(sub, alias, params, placeholder.value, correlationId, ts, wq))
  }

  function AfterPlaceholder(s: Jobs.QState, reserved: bool, alias: string, job: GenerateJob): (Jobs.QState, SendOutcome) {
    var (s3, ok) := Jobs.EnqueueReservedSpec(s, alias, job, reserved);
    if ok then (s3, Enqueued(job.initiallyWaiting)) else (Rollback(s3, reserved, job.userId), EnqueueFailed)
  }

  lemma ReserveAfterCanEnqueue(s: Jobs.QState, u: int, limit: int)
    requires u > 0 && limit > 0 && Jobs.CanEnqueueSpec(s, u, limit)
    ensures Jobs.ReserveUserSlotSpec(s, u, limit).1
  {
  }

  lemma IncDecRestores(p: map<int, int>, u: int)
    requires u > 0 && (u in p ==> p[u] >= 1)
    ensures Jobs.DecPendingMap(Jobs.IncPendingMap(p, u), u) == p
  {
    var q := Jobs.DecPendingMap(Jobs.IncPendingMap(p, u), u);
    if u in p {
      assert q == p[u := p[u]];
    } else {
      assert q.Keys == p.Keys;
    }
  }

  /** Every failure after a reservation releases it: the user's pending count rises by
      one exactly when the job is enqueued, and is otherwise unchanged. */
  lemma SendNetPending(s: Jobs.QState, alias: string, sub: Submission, params: map<string, Value>,
                       limit: Option<int>, placeholder: Option<int>, correlationId: string, ts: real)
    requires Jobs.PendingPositive(s)
    ensures var (t, out) := SendSpec(s, alias, sub, params, limit, placeholder, correlationId, ts);
      t.pending == if out.Enqueued? then Jobs.IncPendingMap(s.pending, sub.userId) else s.pending
  {
    var u := sub.userId;
    var active := LimitActive(limit, u);
    if !(active && !Jobs.CanEnqueueSpec(s, u, limit.value)) {
      var s1 := if active then Jobs.ReserveUserSlotSpec(s, u, limit.value).0 else s;
      assert s1.pending == if active then Jobs.IncPendingMap(s.pending, u) else s.pending;
      if active {
        IncDecRestores(s.pending, u);
      }
      AfterGatePending(s1, active, alias, sub, params, placeholder, correlationId, ts);
    }
  }

  lemma AfterGatePending(s: Jobs.QState, reserved: bool, alias: string, sub: Submission, params: map<string, Value>,
                         placeholder: Option<int>, correlationId: string, ts: real)
    requires reserved ==> sub.userId > 0
    ensures var (t, out) := AfterGate(s, reserved, alias, sub, params, placeholder, correlationId, ts);
      t.pending == if out.Enqueued? then (if reserved then s.pending else Jobs.IncPendingMap(s.pending, sub.userId))
                   else (if reserved then Jobs.DecPendingMap(s.pending, sub.userId) else s.pending)
  {
    var (s2, wq) := Jobs.WillQueueSpec(s, alias);
    assert s2.pending == s.pending;
    if placeholder.Some? {
      EnqueuePending(s2, alias, JobFor(sub, alias, params, placeholder.value, correlationId, ts, wq), reserved);
    }
  }

  lemma EnqueuePending(s: Jobs.QState, alias: string, job: GenerateJob, reserved: bool)
    requires reserved ==> job.userId > 0
    ensures var (t, out) := AfterPlaceholder(s, reserved, alias, job);
      && (out.Enqueued? ==> t.pending == if reserved then s.pending else Jobs.IncPendingMap(s.pending, job.userId))
      && (!out.Enqueued? ==> t.pending == if reserved then Jobs.DecPendingMap(s.pending, job.userId) else s.pending)
  {
  }

  /** The outcome: the limit blocks exactly a real user at or above a positive limit;
      otherwise the job is enqueued when the placeholder was sent and the queue is open
      with a processor, and it is then registered under the placeholder's id. */
  lemma SendOutcomeMeaning(s: Jobs.QState, alias: string, sub: Submission, params: map<string, Value>,
                           limit: Option<int>, placeholder: Option<int>, correlationId: string, ts: real)
    ensures var (t, out) := SendSpec(s, alias, sub, params, limit, placeholder, correlationId, ts);
      && (out == LimitReached <==> LimitActive(limit, sub.userId) && Jobs.Get0(s.pending, sub.userId) >= limit.value)
      && (out.Enqueued? <==> (!(LimitActive(limit, sub.userId) && Jobs.Get0(s.pending, sub.userId) >= limit.value)
                              && placeholder.Some? && !s.closed && s.hasProcessor))
      && (out.Enqueued? ==> (placeholder.value in t.registry && 0 <= t.registry[placeholder.value] < |t.jobs|
            && t.jobs[t.registry[placeholder.value]] == JobFor(sub, alias, params, placeholder.value, correlationId, ts, out.waiting)))
  {
    var u := sub.userId;
    var active := LimitActive(limit, u);
    if !(active && !Jobs.CanEnqueueSpec(s, u, limit.value)) {
      var s1 := if active then Jobs.ReserveUserSlotSpec(s, u, limit.value).0 else s;
      assert s1.closed == s.closed && s1.hasProcessor == s.hasProcessor;
      AfterGateOutcome(s1, active, alias, sub, params, placeholder, correlationId, ts);
    }
  }

  lemma AfterGateOutcome(s: Jobs.QState, reserved: bool, alias: string, sub: Submission, params: map<string, Value>,
                         placeholder: Option<int>, correlationId: string, ts: real)
    ensures var (t, out) := AfterGate(s, reserved, alias, sub, params, placeholder, correlationId, ts);
      && out != LimitReached
      && (out.Enqueued? <==> placeholder.Some? && !s.closed && s.hasProcessor)
      && (out.Enqueued? ==> (placeholder.value in t.registry && 0 <= t.registry[placeholder.value] < |t.jobs|
            && t.jobs[t.registry[placeholder.value]] == JobFor(sub, alias, params, placeholder.value, correlationId, ts, out.waiting)))
  {
    var (s2, wq) := Jobs.WillQueueSpec(s, alias);
    assert s2.closed == s.closed && s2.hasProcessor == s.hasProcessor;
  }

  /** An anonymous admin's request is attributed to nobody: the limit never blocks it
      and it leaves every pending count as it was. */
  lemma AnonymousAdminUnlimited(s: Jobs.QState, alias: string, sub: Submission, ref: Message,
                                params: map<string, Value>, limit: Option<int>, placeholder: Option<int>,
                                correlationId: string, ts: real)
    requires IsAnonLike(ref) && sub.userId == RequesterId(None, ref)
    ensures sub.userId == 0
    ensures var (t, out) := SendSpec(s, alias, sub, params, limit, placeholder, correlationId, ts);
      out != LimitReached && t.pending == s.pending
  {
    AfterGateOutcome(s, false, alias, sub, params, placeholder, correlationId, ts);
    AfterGatePending(s, false, alias, sub, params, placeholder, correlationId, ts);
  }

  /** _send_and_enqueue on the queue object. */
  method SendAndEnqueue(q: Jobs.JobsQueue, alias: string, sub: Submission, params: map<string, Value>,
                        limit: Option<int>, placeholder: Option<int>, correlationId: string, ts: real)
    returns (out: SendOutcome)
    requires q.Valid()
    modifies q
    ensures (q.Model(), out) == SendSpec(old(q.Model()), alias, sub, params, limit, placeholder, correlationId, ts)
    ensures q.Valid()
  {
    var u := sub.userId;
    var reserved := false;
    if limit.Some? && limit.value > 0 && u > 0 {
      var allowed := q.CanEnqueue(u, limit.value);
      if !allowed {
        return LimitReached;
      }
      reserved := q.ReserveUserSlot(u, limit.value);
      assert reserved;
    }
    out := PlaceAndEnqueue(q, reserved, alias, sub, params, placeholder, correlationId, ts);
  }

  /** The placeholder and the enqueue, releasing the reservation on either failure. */
  method PlaceAndEnqueue(q: Jobs.JobsQueue, reserved: bool, alias: string, sub: Submission, params: map<string, Value>,
                         placeholder: Option<int>, correlationId: string, ts: real)
    returns (out: SendOutcome)
    requires q.Valid() && (reserved ==> sub.userId > 0 && Jobs.Res(q.reservations, sub.userId) >= 1)
    modifies q
    ensures (q.Model(), out) == AfterGate(old(q.Model()), reserved, alias, sub, params, placeholder, correlationId, ts)
    ensures q.Valid()
  {
    var u := sub.userId;
    var wq := q.WillQueue(alias);
    if placeholder.None? {
      if reserved && u > 0 {
        q.ReleaseUserSlot(u);
      }
      return PlaceholderFailed;
    }
    var job := JobFor(sub, alias, params, placeholder.value, correlationId, ts, wq);
    var ok := q.EnqueueReserved(alias, job, reserved);
    if !ok {
      if reserved && u > 0 {
        q.ReleaseUserSlot(u);
      }
      return EnqueueFailed;
    }
    return Enqueued(wq);
  }

  /** The loops of _handle_messages_group over messages already in processing order. */
  method ComposeGroup(cfg: TopicConfig, ms: seq<Message>, replyOverride: Option<int>,
                      sourceOverride: Option<seq<int>>, acting: Option<int>) returns (outcome: GroupOutcome)
    requires |ms| > 0
    ensures outcome == Compose(cfg, ms, replyOverride, sourceOverride, acting)
  {
    if ms[0].chatId.None? || ms[0].threadId.None? {
      return Dropped;
    }
    var text := ComposeText(ms);
    if text == "" && !AnyImage(ms) {
      return PromptOrImageRequired;
    }
    outcome := CollectAndSubmit(cfg, ms, text, replyOverride, sourceOverride, acting);
  }

  /** Probing, parsing the prompt, gathering the images and choosing the input images. */
  method CollectAndSubmit(cfg: TopicConfig, ms: seq<Message>, text: string, replyOverride: Option<int>,
                          sourceOverride: Option<seq<int>>, acting: Option<int>) returns (outcome: GroupOutcome)
    requires |ms| > 0 && ms[0].chatId.Some? && ms[0].threadId.Some?
    ensures outcome == WithImages(cfg, Gathered(ms), BaseSubmission(ms, text, replyOverride, sourceOverride, acting))
  {
    var ref := ms[0];
    var dims := ProbeDims(ms);
    var inl := ParseInline(text);
    var images := GatherImages(ms);
    var sub := Submission(
      ref.chatId.value, ref.threadId.value,
      if replyOverride.Some? then replyOverride else Some(ref.messageId),
      RequesterId(acting, ref), inl.cleaned, inl.params, dims, None, None,
      if sourceOverride.Some? then sourceOverride.value else Ids(ms));
    return WithImages(cfg, images, sub);
  }

  /** _handle_messages_group: the decision, then the protocol when there is something to submit. */
  method HandleMessagesGroup(q: Jobs.JobsQueue, cfg: TopicConfig, msgs: seq<Message>, replyOverride: Option<int>,
                             sourceOverride: Option<seq<int>>, acting: Option<int>, params: map<string, Value>,
                             limit: Option<int>, placeholder: Option<int>, correlationId: string, ts: real)
    returns (outcome: GroupOutcome, ok: bool)
    requires q.Valid()
    modifies q
    ensures outcome == HandleGroup(cfg, msgs, replyOverride, sourceOverride, acting)
    ensures outcome.Submit? ==>
      var (t, sent) := SendSpec(old(q.Model()), cfg.alias, outcome.sub, params, limit, placeholder, correlationId, ts);
      q.Model() == t && ok == sent.Enqueued?
    ensures !outcome.Submit? ==> q.Model() == old(q.Model()) && !ok
    ensures q.Valid()
  {
    if |msgs| == 0 {
      return Dropped, false;
    }
    var ms := if |msgs| > 1 then SortById(msgs) else msgs;
    outcome := ComposeGroup(cfg, ms, replyOverride, sourceOverride, acting);
    if !outcome.Submit? {
      return outcome, false;
    }
    var sent := SendAndEnqueue(q, cfg.alias, outcome.sub, params, limit, placeholder, correlationId, ts);
    ok := sent.Enqueued?;
  }

  // ---------------------------------------------------------------- regenerate

  datatype RegenStart =
    | RegenMsgNotFound | RegenWrongChat | RegenNotInTopic | RegenTooSoon
    | RegenNotConfigured | RegenLimited
    | RegenAlbum(cfg: TopicConfig, start: int, count: int)
    | RegenSingle(cfg: TopicConfig)

  /** The debounce of the regenerate button, in seconds. */
  const RegenDebounce: real := 5.0

  /** on_regen up to the choice of flow. `sinceEdit` is the time elapsed since the
      message was last edited or sent (None when it has no date); `clicker` is the
      pressing user's id, 0 without one. */
  function PlanRegen(msg: Option<Message>, allowedChatId: int, sinceEdit: Option<real>,
                     byThread: map<int, TopicConfig>, s: Jobs.QState, limit: Option<int>,
                     clicker: int, data: Option<string>): RegenStart
  {
    if msg.None? then RegenMsgNotFound
    else
      var m := msg.value;
      if m.chatId.None? || m.chatId.value != allowedChatId then RegenWrongChat
      else if m.threadId.None? || m.threadId.value == 0 then RegenNotInTopic
      else if sinceEdit.Some? && sinceEdit.value < RegenDebounce then RegenTooSoon
      else if m.threadId.value !in byThread then RegenNotConfigured
      else if LimitActive(limit, clicker) && !Jobs.CanEnqueueSpec(s, clicker, limit.value) then RegenLimited
      else
        var (start, count) := DecodeRegen(if data.Some? then data.value else RegenCb);
        if AlbumRegen(start, count) then RegenAlbum(byThread[m.threadId.value], start.value, count.value)
        else RegenSingle(byThread[m.threadId.value])
  }

  function Range(start: int, count: nat): (r: seq<int>)
    ensures |r| == count && forall i :: 0 <= i < count ==> r[i] == start + i
    decreases count
  {
    if count == 0 then [] else [start] + Range(start + 1, count - 1)
  }

  function Present(ms: seq<Option<Message>>): seq<Message> {
    if |ms| == 0 then []
    else (if ms[0].Some? then [ms[0].value] else []) + Present(ms[1..])
  }

  /** The album flow: the forwarded copies (None where a forward failed) are handled as a
      group that replies to the first original and records the original ids, on behalf
      of the user who pressed the button. None: nothing could be forwarded. */
  function AlbumRegenGroup(cfg: TopicConfig, start: int, count: nat, forwarded: seq<Option<Message>>,
                           clicker: int): Option<GroupOutcome>
  {
    var copies := Present(forwarded);
    if |copies| == 0 then None
    else Some(HandleGroup(cfg, copies, Some(start), Some(Range(start, count)), Some(clicker)))
  }

  lemma AlbumRegenAttribution(cfg: TopicConfig, start: int, count: nat, forwarded: seq<Option<Message>>, clicker: int)
    requires AlbumRegenGroup(cfg, start, count, forwarded, clicker).Some?
    requires AlbumRegenGroup(cfg, start, count, forwarded, clicker).value.Submit?
    ensures var sub := AlbumRegenGroup(cfg, start, count, forwarded, clicker).value.sub;
      sub.userId == clicker && sub.replyTo == Some(start) && sub.sourceIds == Range(start, count)
  {
    GroupSubmitMeaning(cfg, Present(forwarded), Some(start), Some(Range(start, count)), Some(clicker));
  }

  /** The fallback flow: the prompt and image come from the message the result replies
      to, or the prompt from the result message itself when there is none. */
  function SingleRegen(cfg: TopicConfig, chatId: int, threadId: int, msg: Message, origin: Option<Message>,
                       clicker: int): GroupOutcome
  {
    var text := if origin.Some? then TextOf(origin.value) else TextOf(msg);
    var inl := ParseInline(text);
    var sub := Submission(
      chatId, threadId, if origin.Some? then Some(origin.value.messageId) else None, clicker,
      inl.cleaned, inl.params, if origin.Some? then origin.value.probed else None, None, None,
      if origin.Some? then [origin.value.messageId] else []);
    var image := if origin.Some? then origin.value.download else None;
    if NeedsMulti(cfg) then
      if image.None? then InputImageRequired else Submit(sub.(inputImages := Some([image.value])))
    else if NeedsSingle(cfg) then
      if image.None? then InputImageRequired else Submit(sub.(inputImage := image))
    else Submit(sub)
  }

  /** The button starts a flow exactly when every gate passes; the album flow is taken
      exactly when the button data decodes to a positive start and a count above one. */
  lemma PlanRegenMeaning(msg: Option<Message>, allowedChatId: int, sinceEdit: Option<real>,
                         byThread: map<int, TopicConfig>, s: Jobs.QState, limit: Option<int>,
                         clicker: int, data: Option<string>)
    ensures var r := PlanRegen(msg, allowedChatId, sinceEdit, byThread, s, limit, clicker, data);
      var (start, count) := DecodeRegen(if data.Some? then data.value else RegenCb);
      && ((r.RegenAlbum? || r.RegenSingle?) <==>
           msg.Some? && msg.value.chatId == Some(allowedChatId)
           && msg.value.threadId.Some? && msg.value.threadId.value != 0
           && !(sinceEdit.Some? && sinceEdit.value < RegenDebounce)
           && msg.value.threadId.value in byThread
           && !(LimitActive(limit, clicker) && !Jobs.CanEnqueueSpec(s, clicker, limit.value)))
      && (r.RegenAlbum? || r.RegenSingle? ==> r.cfg == byThread[msg.value.threadId.value])
      && (r.RegenAlbum? <==> (r.RegenAlbum? || r.RegenSingle?) && AlbumRegen(start, count))
      && (r.RegenAlbum? ==> start == Some(r.start) && count == Some(r.count) && r.start > 0 && r.count > 1)
      && (r == RegenTooSoon ==> sinceEdit.Some? && sinceEdit.value < RegenDebounce)
      && (r == RegenLimited ==> LimitActive(limit, clicker) && !Jobs.CanEnqueueSpec(s, clicker, limit.value))
  {
  }

  /** The button of an album job, pressed when every gate passes, replays that album. */
  lemma AlbumButtonReplays(msg: Option<Message>, allowedChatId: int, byThread: map<int, TopicConfig>,
                           s: Jobs.QState, limit: Option<int>, clicker: int, start: int, count: nat)
    requires start > 0 && count > 1
    requires msg.Some? && msg.value.chatId == Some(allowedChatId)
    requires msg.value.threadId.Some? && msg.value.threadId.value != 0 && msg.value.threadId.value in byThread
    requires !(LimitActive(limit, clicker) && !Jobs.CanEnqueueSpec(s, clicker, limit.value))
    ensures PlanRegen(msg, allowedChatId, None, byThread, s, limit, clicker, Some(RegenKeyboard(Some(Range(start, count)))))
      == RegenAlbum(byThread[msg.value.threadId.value], start, count)
  {
    var d := RegenKeyboard(Some(Range(start, count)));
    AlbumRegenRepeats(start, count);
    PlanRegenAlbum(msg, allowedChatId, byThread, s, limit, clicker, d, start, count);
  }

  lemma PlanRegenAlbum(msg: Option<Message>, allowedChatId: int, byThread: map<int, TopicConfig>,
                       s: Jobs.QState, limit: Option<int>, clicker: int, d: string, start: int, count: nat)
    requires start > 0 && count > 1 && DecodeRegen(d) == (Some(start), Some(count))
    requires msg.Some? && msg.value.chatId == Some(allowedChatId)
    requires msg.value.threadId.Some? && msg.value.threadId.value != 0 && msg.value.threadId.value in byThread
    requires !(LimitActive(limit, clicker) && !Jobs.CanEnqueueSpec(s, clicker, limit.value))
    ensures PlanRegen(msg, allowedChatId, None, byThread, s, limit, clicker, Some(d))
      == RegenAlbum(byThread[msg.value.threadId.value], start, count)
  {
    PlanRegenMeaning(msg, allowedChatId, None, byThread, s, limit, clicker, Some(d));
  }

  /** The fallback flow submits exactly when the topic needs no image or the replied-to
      message carries one; the job replies to that message, records it as the source and
      is attributed to the user who pressed the button. */
  lemma SingleRegenMeaning(cfg: TopicConfig, chatId: int, threadId: int, msg: Message, origin: Option<Message>,
                           clicker: int)
    ensures var r := SingleRegen(cfg, chatId, threadId, msg, origin, clicker);
      var text := if origin.Some? then TextOf(origin.value) else TextOf(msg);
      && (r.Submit? <==> (!NeedsMulti(cfg) && !NeedsSingle(cfg)) || (origin.Some? && origin.value.download.Some?))
      && (!r.Submit? ==> r == InputImageRequired)
      && (r.Submit? ==>
           && r.sub.userId == clicker && r.sub.chatId == chatId && r.sub.threadId == threadId
           && r.sub.prompt == ParseInline(text).cleaned && r.sub.inline == ParseInline(text).params
           && r.sub.replyTo == (if origin.Some? then Some(origin.value.messageId) else None)
           && r.sub.sourceIds == (if origin.Some? then [origin.value.messageId] else []))
      && (r.Submit? && NeedsMulti(cfg) ==> r.sub.inputImage.None? && r.sub.inputImages == Some([origin.value.download.value]))
      && (r.Submit? && !NeedsMulti(cfg) && NeedsSingle(cfg) ==> r.sub.inputImages.None? && r.sub.inputImage == origin.value.download)
      && (r.Submit? && !NeedsMulti(cfg) && !NeedsSingle(cfg) ==> r.sub.inputImage.None? && r.sub.inputImages.None?)
  {
  }

  // ---------------------------------------------------------------- cancel

  datatype CancelOutcome = CancelMsgNotFound | CancelWrongChat | CancelUnavailable | CancelForbidden | Canceled(byAdmin: bool)

  /** The author is a non-zero id equal to the job's user. */
  predicate IsAuthor(clicker: int, job: GenerateJob) {
    clicker == job.userId && clicker != 0
  }

  /** on_cancel on the queue state; `admin` is whether the member lookup found an
      administrator or creator (false when it failed or there is no user). */
  function CancelSpec(s: Jobs.QState, msg: Option<Message>, allowedChatId: int, clicker: int, admin: bool)
    : (Jobs.QState, CancelOutcome)
    requires Jobs.RegistryOk(s)
  {
    if msg.None? then (s, CancelMsgNotFound)
    else if msg.value.chatId.None? || msg.value.chatId.value != allowedChatId then (s, CancelWrongChat)
    else
      var job := Jobs.GetJobSpec(s, msg.value.messageId);
      if job.None? then (s, CancelUnavailable)
      else if !(IsAuthor(clicker, job.value) || admin) then (s, CancelForbidden)
      else
        var byAdmin := admin && !IsAuthor(clicker, job.value);
        var (t, ok) := Jobs.CancelJobSpec(s, msg.value.messageId, byAdmin);
        if ok then (t, Canceled(byAdmin)) else (t, CancelUnavailable)
  }

  /** Only the author or an admin cancels, only a job that has neither started nor been
      canceled, and by_admin is set exactly for an admin who is not the author. */
  lemma CancelMeaning(s: Jobs.QState, msg: Option<Message>, allowedChatId: int, clicker: int, admin: bool)
    requires Jobs.RegistryOk(s)
    ensures var (t, out) := CancelSpec(s, msg, allowedChatId, clicker, admin);
      && (!out.Canceled? ==> t == s)
      && (out.Canceled? <==>
            msg.Some? && msg.value.chatId == Some(allowedChatId) && msg.value.messageId in s.registry
            && var job := s.jobs[s.registry[msg.value.messageId]];
               (IsAuthor(clicker, job) || admin) && !job.started && !job.canceled)
      && (out.Canceled? ==>
            var job := s.jobs[s.registry[msg.value.messageId]];
            && out.byAdmin == (admin && !IsAuthor(clicker, job))
            && t.jobs[s.registry[msg.value.messageId]] == job.(canceled := true, canceledByAdmin := out.byAdmin))
  {
  }

  /** A user without an id is never the author, so only an admin can cancel for them. */
  lemma NoIdNoAuthor(job: GenerateJob)
    ensures !IsAuthor(0, job)
  {
  }

  method OnCancel(q: Jobs.JobsQueue, msg: Option<Message>, allowedChatId: int, clicker: int, admin: bool)
    returns (out: CancelOutcome)
    requires q.Valid()
    modifies q
    ensures (q.Model(), out) == CancelSpec(old(q.Model()), msg, allowedChatId, clicker, admin)
    ensures q.Valid()
  {
    if msg.None? {
      return CancelMsgNotFound;
    }
    var m := msg.value;
    if m.chatId.None? || m.chatId.value != allowedChatId {
      return CancelWrongChat;
    }
    var job := q.GetJob(m.messageId);
    if job.None? {
      return CancelUnavailable;
    }
    var author := IsAuthor(clicker, job.value);
    if !(author || admin) {
      return CancelForbidden;
    }
    var byAdmin := admin && !author;
    var ok := q.CancelJob(m.messageId, byAdmin);
    if !ok {
      return CancelUnavailable;
    }
    return Canceled(byAdmin);
  }

  // ---------------------------------------------------------------- processing a job

  datatype Prepared = SkipCanceled | ThemeNotFound | NeedsInputImage
                    | Ready(cfg: TopicConfig, uploads: seq<ImageFile>, upload: Option<ImageFile>)

  /** _process_generate_job before the workflow is built: which images get uploaded.
      An empty byte string counts as no image, and a missing file name becomes
      "tg_<correlation id>.png". */
  function PrepareJob(job: GenerateJob, topics: map<string, TopicConfig>): Prepared {
    if job.canceled then SkipCanceled
    else if job.topicAlias !in topics then ThemeNotFound
    else
      var cfg := topics[job.topicAlias];
      var images := if job.inputImages.Some? then job.inputImages.value else [];
      if NeedsMulti(cfg) && |images| == 0 then NeedsInputImage
      else
        var uploads := if !NeedsMulti(cfg) then [] else if |images| <= MaxImages then images else images[..MaxImages];
        if NeedsSingle(cfg) && job.inputImage.Some? && |job.inputImage.value.data| > 0 then
          var name := if job.inputImage.value.filename != "" then job.inputImage.value.filename
                      else "tg_" + job.correlationId + ".png";
          Ready(cfg, uploads, Some(ImageFile(job.inputImage.value.data, name)))
        else if NeedsSingle(cfg) then NeedsInputImage
        else Ready(cfg, uploads, None)
  }

  lemma PrepareMeaning(job: GenerateJob, topics: map<string, TopicConfig>)
    ensures var p := PrepareJob(job, topics);
      && (p.Ready? ==> !job.canceled && job.topicAlias in topics && p.cfg == topics[job.topicAlias])
      && (p.Ready? ==> |p.uploads| <= MaxImages && (NeedsMulti(p.cfg) <==> |p.uploads| >= 1)
                       && (NeedsMulti(p.cfg) ==> p.uploads <= job.inputImages.value))
      && (p.Ready? ==> (NeedsSingle(p.cfg) <==> p.upload.Some?)
                       && (p.upload.Some? ==> p.upload.value.data == job.inputImage.value.data
                                              && |p.upload.value.data| > 0 && p.upload.value.filename != ""))
      && (p == NeedsInputImage <==>
            !job.canceled && job.topicAlias in topics
            && ((NeedsMulti(topics[job.topicAlias]) && (job.inputImages.None? || |job.inputImages.value| == 0))
                || (NeedsSingle(topics[job.topicAlias]) && (job.inputImage.None? || |job.inputImage.value.data| == 0))))
  {
  }

  // ---------------------------------------------------------------- delivering the results

  function Min(xs: seq<int>): (m: int)
    requires |xs| > 0
    ensures m in xs && forall i :: 0 <= i < |xs| ==> m <= xs[i]
  {
    if |xs| == 1 then xs[0]
    else
      var r := Min(xs[1..]);
      assert forall i :: 1 <= i < |xs| ==> xs[i] == xs[1..][i - 1];
      if xs[0] <= r then xs[0] else r
  }

  /** The regenerate button of a finished job: start and count are encoded only for two
      or more source ids, start being the smallest. */
  function RegenKeyboard(sourceIds: Option<seq<int>>): string {
    if sourceIds.Some? && |sourceIds.value| > 1 then RegenData(Some(Min(sourceIds.value)), Some(|sourceIds.value|))
    else RegenData(None, None)
  }

  /** The button of a job with several source ids starting at a positive id leads back to
      the album flow with the same start and count; otherwise to the fallback flow. */
  lemma RegenKeyboardDecodes(sourceIds: Option<seq<int>>)
    ensures var (start, count) := DecodeRegen(RegenKeyboard(sourceIds));
      if sourceIds.Some? && |sourceIds.value| > 1 && Min(sourceIds.value) > 0
      then start == Some(Min(sourceIds.value)) && count == Some(|sourceIds.value|) && AlbumRegen(start, count)
      else !AlbumRegen(start, count)
  {
    if sourceIds.Some? && |sourceIds.value| > 1 {
      RegenRoundTrip(Some(Min(sourceIds.value)), Some(|sourceIds.value|));
    } else {
      RegenRoundTrip(None, None);
    }
  }

  /** A job made by the album flow carries a button that repeats the album flow. */
  lemma AlbumRegenRepeats(start: int, count: nat)
    requires start > 0 && count > 1
    ensures DecodeRegen(RegenKeyboard(Some(Range(start, count)))) == (Some(start), Some(count))
  {
    var ids := Range(start, count);
    assert Min(ids) == start by {
      assert ids[0] == start;
      assert Min(ids) in ids;
    }
    RegenKeyboardDecodes(Some(ids));
  }

  function OfKind(ms: seq<MediaURL>, k: MediaKind): (r: seq<MediaURL>)
    ensures |r| <= |ms|
  {
    if |ms| == 0 then []
    else (if ms[0].kind == k then [ms[0]] else []) + OfKind(ms[1..], k)
  }

  /** The three lists split the rest exactly: nothing is lost or sent twice. */
  lemma {:induction false} SplitPartition(ms: seq<MediaURL>)
    ensures multiset(OfKind(ms, Image)) + multiset(OfKind(ms, Video)) + multiset(OfKind(ms, Audio)) == multiset(ms)
  {
    if |ms| > 0 {
      var t := ms[1..];
      SplitPartition(t);
      MultisetCons(ms);
      OfKindStep(ms, Image);
      OfKindStep(ms, Video);
      OfKindStep(ms, Audio);
      var m := ms[0];
      var im, vi, au := multiset(OfKind(t, Image)), multiset(OfKind(t, Video)), multiset(OfKind(t, Audio));
      var x := multiset{m};
      var e: multiset<MediaURL> := multiset{};
      if m.kind == Image {
        Regroup(x, e, e, im, vi, au);
      } else if m.kind == Video {
        Regroup(e, x, e, im, vi, au);
      } else {
        Regroup(e, e, x, im, vi, au);
      }
    }
  }

  lemma MultisetCons<T>(s: seq<T>)
    requires |s| > 0
    ensures multiset(s) == multiset{s[0]} + multiset(s[1..])
  {
    assert s == [s[0]] + s[1..];
  }

  lemma Regroup<T>(a: multiset<T>, b: multiset<T>, c: multiset<T>, p: multiset<T>, q: multiset<T>, r: multiset<T>)
    ensures (a + p) + (b + q) + (c + r) == (a + b + c) + (p + q + r)
  {
  }

  lemma OfKindStep(ms: seq<MediaURL>, k: MediaKind)
    requires |ms| > 0
    ensures multiset(OfKind(ms, k)) == (if ms[0].kind == k then multiset{ms[0]} else multiset{}) + multiset(OfKind(ms[1..], k))
  {
    var h := if ms[0].kind == k then [ms[0]] else [];
    assert OfKind(ms, k) == h + OfKind(ms[1..], k);
    assert multiset(h) == if ms[0].kind == k then multiset{ms[0]} else multiset{};
  }

  datatype Delivery = NoMedia | Deliver(first: MediaURL, keyboard: string, images: seq<MediaURL>,
                                        videos: seq<MediaURL>, audios: seq<MediaURL>)

  /** The first artifact replaces the placeholder by its kind (Delivery.first.kind), the
      rest go out as an image album, then videos, then audio, each in original order. */
  function DeliverySpec(media: seq<MediaURL>, sourceIds: Option<seq<int>>): Delivery {
    if |media| == 0 then NoMedia
    else
      var rest := media[1..];
      Deliver(media[0], RegenKeyboard(sourceIds), OfKind(rest, Image), OfKind(rest, Video), OfKind(rest, Audio))
  }

  lemma DeliveryMeaning(media: seq<MediaURL>, sourceIds: Option<seq<int>>)
    ensures var d := DeliverySpec(media, sourceIds);
      && (d.NoMedia? <==> |media| == 0)
      && (d.Deliver? ==> (d.first == media[0]
            && multiset(d.images) + multiset(d.videos) + multiset(d.audios) == multiset(media[1..])
            && |d.images| + |d.videos| + |d.audios| == |media| - 1))
  {
    if |media| > 0 {
      SplitPartition(media[1..]);
      var d := DeliverySpec(media, sourceIds);
      assert |multiset(d.images) + multiset(d.videos) + multiset(d.audios)| == |multiset(media[1..])|;
    }
  }

  lemma {:induction false} OfKindConcat(a: seq<MediaURL>, b: seq<MediaURL>, k: MediaKind)
    ensures OfKind(a + b, k) == OfKind(a, k) + OfKind(b, k)
  {
    if |a| == 0 {
      assert a + b == b;
    } else {
      assert (a + b)[0] == a[0] && (a + b)[1..] == a[1..] + b;
      OfKindConcat(a[1..], b, k);
      var h := if a[0].kind == k then [a[0]] else [];
      assert OfKind(a + b, k) == h + OfKind(a[1..] + b, k);
      assert OfKind(a, k) == h + OfKind(a[1..], k);
    }
  }

  /** The loop over the rest of the artifacts. */
  method SplitRest(rest: seq<MediaURL>) returns (imgs: seq<MediaURL>, vids: seq<MediaURL>, auds: seq<MediaURL>)
    ensures imgs == OfKind(rest, Image) && vids == OfKind(rest, Video) && auds == OfKind(rest, Audio)
  {
    imgs, vids, auds := [], [], [];
    var i := 0;
    while i < |rest|
      invariant 0 <= i <= |rest|
      invariant imgs == OfKind(rest[..i], Image) && vids == OfKind(rest[..i], Video) && auds == OfKind(rest[..i], Audio)
    {
      var m := rest[i];
      assert rest[..i + 1] == rest[..i] + [m];
      OfKindConcat(rest[..i], [m], Image);
      OfKindConcat(rest[..i], [m], Video);
      OfKindConcat(rest[..i], [m], Audio);
      if m.kind == Video {
        vids := vids + [m];
      } else if m.kind == Audio {
        auds := auds + [m];
      } else {
        imgs := imgs + [m];
      }
      i := i + 1;
    }
    assert rest[..i] == rest;
  }

  method Dispatch(media: seq<MediaURL>, sourceIds: Option<seq<int>>) returns (d: Delivery)
    ensures d == DeliverySpec(media, sourceIds)
  {
    if |media| == 0 {
      return NoMedia;
    }
    var kb := RegenKeyboard(sourceIds);
    var imgs, vids, auds := SplitRest(media[1..]);
    return Deliver(media[0], kb, imgs, vids, auds);
  }
}
