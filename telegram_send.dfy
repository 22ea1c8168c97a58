/** The Telegram sending helpers (app/utils/telegram.py): the placeholder file, and the
    album, video and audio senders that split their items into media groups. A send is
    recorded as a Call in the order the helpers issue them; the Bot API itself is not
    part of this model. */
module TelegramSend {
  import opened Wrappers
  import opened Models

  // ---------------------------------------------------------------- placeholder

  /** The built-in 1x1 PNG, ONEPX_PNG_B64 decoded. */
  const OnePxPng: Bytes := [137, 80, 78, 71, 13, 10, 26, 10, 0, 0, 0, 13, 73, 72, 68, 82, 0, 0, 0, 1,
                            0, 0, 0, 1, 8, 4, 0, 0, 0, 181, 28, 12, 2, 0, 0, 0, 11, 73, 68, 65,
                            84, 120, 218, 99, 252, 255, 31, 0, 3, 3, 2, 0, 239, 41, 217, 196, 0, 0,
                            0, 0, 73, 69, 78, 68, 174, 66, 96, 130]

  datatype InputFile = InputFile(data: Bytes, filename: string)

  /** make_placeholder_inputfile. `file` is what reading the placeholder path gives: None
      when the path is empty, does not exist or cannot be read. */
  function PlaceholderFile(dataBytes: Option<Bytes>, file: Option<Bytes>, filename: string): InputFile {
    var data :=
      if dataBytes.Some? then dataBytes.value
      else if file.Some? && |file.value| > 0 then file.value
      else OnePxPng;
    InputFile(data, filename)
  }

  /** load_placeholder_bytes: the file's bytes, or the built-in PNG when there are none. */
  function PlaceholderBytes(file: Option<Bytes>): Bytes {
    if file.Some? && |file.value| > 0 then file.value else OnePxPng
  }

  /** Given bytes win, even empty ones; then a non-empty file; then the built-in PNG, so
      that without given bytes the placeholder is never empty. */
  lemma PlaceholderPrecedence(dataBytes: Option<Bytes>, file: Option<Bytes>, filename: string)
    ensures var f := PlaceholderFile(dataBytes, file, filename);
      && f.filename == filename
      && (dataBytes.Some? ==> f.data == dataBytes.value)
      && (dataBytes.None? ==> f.data == PlaceholderBytes(file) && |f.data| > 0)
      && (dataBytes.None? && (file.None? || file == Some([])) ==> f.data == OnePxPng)
  {
  }

  // ---------------------------------------------------------------- media groups

  /** Telegram's hard limit for one media group. */
  const MaxGroup: nat := 10

  /** One file of a media group with its caption. */
  datatype MediaItem = MediaItem(kind: MediaKind, file: InputFile, caption: Option<string>)

  datatype Call =
    | SendMediaGroup(chatId: int, threadId: int, media: seq<MediaItem>)
    | SendVideo(chatId: int, threadId: int, video: InputFile, caption: Option<string>)
    | SendAudio(chatId: int, threadId: int, audio: InputFile, caption: Option<string>)

  /** The items from position `n` on (a slice past the end is empty). */
  function Drop<T>(xs: seq<T>, n: nat): seq<T> {
    if n >= |xs| then [] else xs[n..]
  }

  /** The consecutive chunks range(0, len, 10) cuts. */
  function Chunks<T>(xs: seq<T>): seq<seq<T>>
    decreases |xs|
  {
    if |xs| == 0 then []
    else if |xs| <= MaxGroup then [xs]
    else [xs[..MaxGroup]] + Chunks(xs[MaxGroup..])
  }

  function Flatten<T>(xss: seq<seq<T>>): seq<T> {
    if |xss| == 0 then [] else xss[0] + Flatten(xss[1..])
  }

  /** The chunks give back the items in order; each holds one to ten items, and all but the
      last hold exactly ten. */
  lemma {:induction false} ChunksMeaning<T>(xs: seq<T>)
    ensures Flatten(Chunks(xs)) == xs
    ensures |Chunks(xs)| == (|xs| + MaxGroup - 1) / MaxGroup
    ensures forall i :: 0 <= i < |Chunks(xs)| ==> 0 < |Chunks(xs)[i]| <= MaxGroup
    ensures forall i :: 0 <= i < |Chunks(xs)| - 1 ==> |Chunks(xs)[i]| == MaxGroup
    decreases |xs|
  {
    if |xs| > MaxGroup {
      var rest := Chunks(xs[MaxGroup..]);
      ChunksMeaning(xs[MaxGroup..]);
      var c := Chunks(xs);
      assert c == [xs[..MaxGroup]] + rest;
      assert c[1..] == rest;
      assert Flatten(c) == xs[..MaxGroup] + Flatten(rest);
      assert xs[..MaxGroup] + xs[MaxGroup..] == xs;
      assert forall i :: 1 <= i < |c| ==> c[i] == rest[i - 1];
    } else if |xs| > 0 {
      assert Flatten([xs]) == xs + Flatten([xs][1..]);
      assert [xs][1..] == [];
    }
  }

  /** The media of one group: only its first item carries `cap`. */
  function MediaOf(kind: MediaKind, chunk: seq<(Bytes, string)>, cap: Option<string>): (r: seq<MediaItem>)
    ensures |r| == |chunk|
  {
    seq(|chunk|, i requires 0 <= i < |chunk| =>
      MediaItem(kind, InputFile(chunk[i].0, chunk[i].1), if i == 0 then cap else None))
  }

  /** One send_media_group per chunk; the caption goes to the first chunk only. */
  function GroupCalls(kind: MediaKind, chunks: seq<seq<(Bytes, string)>>, cap: Option<string>,
                      chatId: int, threadId: int): (r: seq<Call>)
    ensures |r| == |chunks|
  {
    if |chunks| == 0 then []
    else [SendMediaGroup(chatId, threadId, MediaOf(kind, chunks[0], cap))]
         + GroupCalls(kind, chunks[1..], None, chatId, threadId)
  }

  /** send_album */
  function AlbumSpec(images: seq<(Bytes, string)>, caption: Option<string>, chatId: int, threadId: int): seq<Call> {
    if |images| == 0 then [] else GroupCalls(Image, Chunks(images), caption, chatId, threadId)
  }

  /** send_videos and send_audios: a single file goes alone, with its caption. */
  function SingleOrGroups(kind: MediaKind, items: seq<(Bytes, string)>, caption: Option<string>,
                          chatId: int, threadId: int): seq<Call>
    requires kind != Image
  {
    if |items| == 0 then []
    else if |items| == 1 then
      var f := InputFile(items[0].0, items[0].1);
      [if kind == Video then SendVideo(chatId, threadId, f, caption) else SendAudio(chatId, threadId, f, caption)]
    else GroupCalls(kind, Chunks(items), caption, chatId, threadId)
  }

  // ---------------------------------------------------------------- what the calls carry

  /** The files built from (bytes, filename) pairs, in order. */
  function Files(items: seq<(Bytes, string)>): seq<InputFile> {
    seq(|items|, i requires 0 <= i < |items| => InputFile(items[i].0, items[i].1))
  }

  function CallFiles(c: Call): seq<InputFile> {
    match c
    case SendMediaGroup(_, _, media) => seq(|media|, i requires 0 <= i < |media| => media[i].file)
    case SendVideo(_, _, f, _) => [f]
    case SendAudio(_, _, f, _) => [f]
  }

  function CallCaptions(c: Call): seq<Option<string>> {
    match c
    case SendMediaGroup(_, _, media) => seq(|media|, i requires 0 <= i < |media| => media[i].caption)
    case SendVideo(_, _, _, cap) => [cap]
    case SendAudio(_, _, _, cap) => [cap]
  }

  /** Every file sent, call after call. */
  function SentFiles(calls: seq<Call>): seq<InputFile> {
    if |calls| == 0 then [] else CallFiles(calls[0]) + SentFiles(calls[1..])
  }

  /** Every caption sent, one per file, call after call. */
  function SentCaptions(calls: seq<Call>): seq<Option<string>> {
    if |calls| == 0 then [] else CallCaptions(calls[0]) + SentCaptions(calls[1..])
  }

  /** The caption list of n files of which only the first is captioned. */
  function FirstOnly(cap: Option<string>, n: nat): seq<Option<string>> {
    seq(n, i requires 0 <= i < n => if i == 0 then cap else None)
  }

  lemma {:induction false} GroupCallsCarry(kind: MediaKind, chunks: seq<seq<(Bytes, string)>>, cap: Option<string>,
                                           chatId: int, threadId: int)
    ensures SentFiles(GroupCalls(kind, chunks, cap, chatId, threadId)) == Files(Flatten(chunks))
    ensures |chunks| > 0 && |chunks[0]| > 0 ==>
      SentCaptions(GroupCalls(kind, chunks, cap, chatId, threadId)) == FirstOnly(cap, |Flatten(chunks)|)
    ensures (|chunks| == 0 || |chunks[0]| == 0) && cap.None? ==>
      SentCaptions(GroupCalls(kind, chunks, cap, chatId, threadId)) == FirstOnly(None, |Flatten(chunks)|)
    decreases |chunks|
  {
    if |chunks| > 0 {
      var calls := GroupCalls(kind, chunks, cap, chatId, threadId);
      var rest := chunks[1..];
      GroupCallsCarry(kind, rest, None, chatId, threadId);
      NoneCaptions(kind, rest, chatId, threadId);
      assert calls[1..] == GroupCalls(kind, rest, None, chatId, threadId);
      var media := MediaOf(kind, chunks[0], cap);
      assert CallFiles(calls[0]) == Files(chunks[0]);
      FilesConcat(chunks[0], Flatten(rest));
      assert CallCaptions(calls[0]) == FirstOnly(cap, |chunks[0]|) by {
        assert CallCaptions(calls[0]) == seq(|media|, i requires 0 <= i < |media| => media[i].caption);
      }
      FlattenLength(rest);
      if |chunks[0]| > 0 {
        assert FirstOnly(cap, |chunks[0]|) + FirstOnly(None, |Flatten(rest)|) == FirstOnly(cap, |Flatten(chunks)|);
      } else {
        assert chunks[0] + Flatten(rest) == Flatten(rest);
      }
    }
  }

  lemma {:induction false} NoneCaptions(kind: MediaKind, chunks: seq<seq<(Bytes, string)>>, chatId: int, threadId: int)
    ensures SentCaptions(GroupCalls(kind, chunks, None, chatId, threadId)) == FirstOnly(None, |Flatten(chunks)|)
    decreases |chunks|
  {
    if |chunks| > 0 {
      var calls := GroupCalls(kind, chunks, None, chatId, threadId);
      NoneCaptions(kind, chunks[1..], chatId, threadId);
      assert calls[1..] == GroupCalls(kind, chunks[1..], None, chatId, threadId);
      var media := MediaOf(kind, chunks[0], None);
      assert CallCaptions(calls[0]) == FirstOnly(None, |chunks[0]|);
      FlattenLength(chunks[1..]);
      assert FirstOnly(None, |chunks[0]|) + FirstOnly(None, |Flatten(chunks[1..])|) == FirstOnly(None, |Flatten(chunks)|);
    }
  }

  lemma FlattenLength<T>(xss: seq<seq<T>>)
    ensures |xss| > 0 ==> |Flatten(xss)| == |xss[0]| + |Flatten(xss[1..])|
  {
  }

  lemma FilesConcat(a: seq<(Bytes, string)>, b: seq<(Bytes, string)>)
    ensures Files(a + b) == Files(a) + Files(b)
  {
  }

  /** Every image is sent exactly once and in order, and only the first one is captioned;
      an empty album sends nothing. */
  lemma AlbumCarries(images: seq<(Bytes, string)>, caption: Option<string>, chatId: int, threadId: int)
    ensures var calls := AlbumSpec(images, caption, chatId, threadId);
      && (|images| == 0 <==> calls == [])
      && |calls| == (|images| + MaxGroup - 1) / MaxGroup
      && SentFiles(calls) == Files(images)
      && SentCaptions(calls) == FirstOnly(if |images| > 0 then caption else None, |images|)
      && forall j :: 0 <= j < |calls| ==> calls[j].SendMediaGroup? && 0 < |calls[j].media| <= MaxGroup
  {
    if |images| > 0 {
      ChunksMeaning(images);
      GroupCallsCarry(Image, Chunks(images), caption, chatId, threadId);
      GroupCallsShape(Image, Chunks(images), caption, chatId, threadId);
    }
  }

  lemma {:induction false} GroupCallsShape(kind: MediaKind, chunks: seq<seq<(Bytes, string)>>, cap: Option<string>,
                                           chatId: int, threadId: int)
    ensures var calls := GroupCalls(kind, chunks, cap, chatId, threadId);
      forall j :: 0 <= j < |calls| ==> calls[j].SendMediaGroup? && |calls[j].media| == |chunks[j]|
    decreases |chunks|
  {
    if |chunks| > 0 {
      GroupCallsShape(kind, chunks[1..], None, chatId, threadId);
      var calls := GroupCalls(kind, chunks, cap, chatId, threadId);
      assert forall j :: 1 <= j < |calls| ==> calls[j] == GroupCalls(kind, chunks[1..], None, chatId, threadId)[j - 1];
    }
  }

  /** The same for videos and audio; a single file goes out alone with the caption. */
  lemma SingleOrGroupsCarries(kind: MediaKind, items: seq<(Bytes, string)>, caption: Option<string>,
                              chatId: int, threadId: int)
    requires kind != Image
    ensures var calls := SingleOrGroups(kind, items, caption, chatId, threadId);
      && (|items| == 0 <==> calls == [])
      && (|items| == 1 ==> |calls| == 1 && !calls[0].SendMediaGroup?)
      && (|items| > 1 ==> (|calls| == (|items| + MaxGroup - 1) / MaxGroup
                         && forall j :: 0 <= j < |calls| ==> calls[j].SendMediaGroup? && 0 < |calls[j].media| <= MaxGroup))
      && SentFiles(calls) == Files(items)
      && SentCaptions(calls) == FirstOnly(if |items| > 0 then caption else None, |items|)
  {
    var calls := SingleOrGroups(kind, items, caption, chatId, threadId);
    if |items| == 1 {
      assert SentFiles(calls) == CallFiles(calls[0]) + SentFiles([]);
      assert SentCaptions(calls) == CallCaptions(calls[0]) + SentCaptions([]);
    } else if |items| > 1 {
      ChunksMeaning(items);
      GroupCallsCarry(kind, Chunks(items), caption, chatId, threadId);
      GroupCallsShape(kind, Chunks(items), caption, chatId, threadId);
    }
  }

  // ---------------------------------------------------------------- the senders

  /** The inner loop: the media list of one chunk. */
  method BuildMedia(kind: MediaKind, chunk: seq<(Bytes, string)>, caption: Option<string>, start: nat)
    returns (media: seq<MediaItem>)
    ensures media == MediaOf(kind, chunk, if start == 0 then caption else None)
  {
    media := [];
    var i := 0;
    while i < |chunk|
      invariant 0 <= i <= |chunk|
      invariant media == MediaOf(kind, chunk, if start == 0 then caption else None)[..i]
    {
      var cap := if i == 0 && start == 0 then caption else None;
      media := media + [MediaItem(kind, InputFile(chunk[i].0, chunk[i].1), cap)];
      i := i + 1;
    }
    assert MediaOf(kind, chunk, if start == 0 then caption else None)[..i]
        == MediaOf(kind, chunk, if start == 0 then caption else None);
  }

  lemma ChunksStep(items: seq<(Bytes, string)>, start: nat)
    requires start < |items|
    ensures var stop := if start + MaxGroup < |items| then start + MaxGroup else |items|;
      Chunks(Drop(items, start)) == [items[start..stop]] + Chunks(Drop(items, start + MaxGroup))
  {
    var xs := Drop(items, start);
    if |xs| > MaxGroup {
      assert xs == items[start..];
      assert Chunks(xs) == [xs[..MaxGroup]] + Chunks(xs[MaxGroup..]);
      assert xs[..MaxGroup] == items[start..start + MaxGroup];
      assert xs[MaxGroup..] == Drop(items, start + MaxGroup);
    } else {
      assert xs == items[start..];
      assert Chunks(xs) == [xs];
      assert items[start..|items|] == xs;
      var empty: seq<(Bytes, string)> := [];
      assert Drop(items, start + MaxGroup) == empty;
      assert Chunks(empty) == [];
      assert [xs] + [] == [xs];
    }
  }

  /** One turn of the loop over chunk starts shared by the three senders: the call for the chunk at `start`, then the calls for the rest. */
  lemma GroupCallsStep(kind: MediaKind, items: seq<(Bytes, string)>, start: nat, cap: Option<string>,
                       chatId: int, threadId: int)
    requires start < |items|
    ensures var stop := if start + MaxGroup < |items| then start + MaxGroup else |items|;
      GroupCalls(kind, Chunks(Drop(items, start)), cap, chatId, threadId)
      == [SendMediaGroup(chatId, threadId, MediaOf(kind, items[start..stop], cap))]
         + GroupCalls(kind, Chunks(Drop(items, start + MaxGroup)), None, chatId, threadId)
  {
    ChunksStep(items, start);
    var cs := Chunks(Drop(items, start));
    assert cs[1..] == Chunks(Drop(items, start + MaxGroup));
  }

  /** The loop invariant of SendGroups: the calls made so far and those for the items from
      `start` on make up all the calls. */
  ghost predicate SentUpTo(kind: MediaKind, items: seq<(Bytes, string)>, caption: Option<string>,
                           chatId: int, threadId: int, calls: seq<Call>, start: nat) {
    calls + GroupCalls(kind, Chunks(Drop(items, start)), if start == 0 then caption else None, chatId, threadId)
    == GroupCalls(kind, Chunks(items), caption, chatId, threadId)
  }

  lemma SentUpToStep(kind: MediaKind, items: seq<(Bytes, string)>, caption: Option<string>,
                     chatId: int, threadId: int, calls: seq<Call>, start: nat, media: seq<MediaItem>)
    requires start < |items| && SentUpTo(kind, items, caption, chatId, threadId, calls, start)
    requires var stop := if start + MaxGroup < |items| then start + MaxGroup else |items|;
      media == MediaOf(kind, items[start..stop], if start == 0 then caption else None)
    ensures SentUpTo(kind, items, caption, chatId, threadId, calls + [SendMediaGroup(chatId, threadId, media)], start + MaxGroup)
  {
    GroupCallsStep(kind, items, start, if start == 0 then caption else None, chatId, threadId);
    var rest := GroupCalls(kind, Chunks(Drop(items, start + MaxGroup)), None, chatId, threadId);
    assert calls + [SendMediaGroup(chatId, threadId, media)] + rest
        == calls + ([SendMediaGroup(chatId, threadId, media)] + rest);
  }

  method SendGroups(kind: MediaKind, items: seq<(Bytes, string)>, caption: Option<string>, chatId: int, threadId: int)
    returns (calls: seq<Call>)
    ensures calls == GroupCalls(kind, Chunks(items), caption, chatId, threadId)
  {
    calls := [];
    var start := 0;
    assert Drop(items, 0) == items;
    while start < |items|
      invariant SentUpTo(kind, items, caption, chatId, threadId, calls, start)
      decreases |items| - start
    {
      var stop := if start + MaxGroup < |items| then start + MaxGroup else |items|;
      var chunk := items[start..stop];
      var media := BuildMedia(kind, chunk, caption, start);
      SentUpToStep(kind, items, caption, chatId, threadId, calls, start, media);
      calls := calls + [SendMediaGroup(chatId, threadId, media)];
      start := start + MaxGroup;
    }
    assert Drop(items, start) == [];
    assert Chunks(Drop(items, start)) == [];
    assert calls + [] == calls;
  }


  method SendAlbum(chatId: int, threadId: int, images: seq<(Bytes, string)>, caption: Option<string>)
    returns (calls: seq<Call>)
    ensures calls == AlbumSpec(images, caption, chatId, threadId)
  {
    if |images| == 0 {
      return [];
    }
    calls := SendGroups(Image, images, caption, chatId, threadId);
  }

  method SendVideos(chatId: int, threadId: int, videos: seq<(Bytes, string)>, caption: Option<string>)
    returns (calls: seq<Call>)
    ensures calls == SingleOrGroups(Video, videos, caption, chatId, threadId)
  {
    if |videos| == 0 {
      return [];
    }
    if |videos| == 1 {
      return [SendVideo(chatId, threadId, InputFile(videos[0].0, videos[0].1), caption)];
    }
    calls := SendGroups(Video, videos, caption, chatId, threadId);
  }

  method SendAudios(chatId: int, threadId: int, audios: seq<(Bytes, string)>, caption: Option<string>)
    returns (calls: seq<Call>)
    ensures calls == SingleOrGroups(Audio, audios, caption, chatId, threadId)
  {
    if |audios| == 0 {
      return [];
    }
    if |audios| == 1 {
      return [SendAudio(chatId, threadId, InputFile(audios[0].0, audios[0].1), caption)];
    }
    calls := SendGroups(Audio, audios, caption, chatId, threadId);
  }
}
