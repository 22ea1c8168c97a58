/** The parts of ComfyClient (app/comfy/client.py) that decide something once the
    network is taken away: the WebSocket address, the receive loop of submit_and_wait
    as a fold over the frames it receives, the classification of the history outputs
    into media, the MIME tables and the timing formula.

    Frames, clock readings, the prompt id returned by POST /prompt and the outputs
    of GET /history are inputs. */
module Comfy {
  import opened Wrappers
  import opened Text
  import opened Json
  import opened Models

  // ---------------------------------------------------------------- addresses

  /** base_url.rstrip("/") of the constructor. */
  function RStripSlash(s: string): (r: string)
    ensures |r| <= |s| && r == s[..|r|]
    ensures |r| == 0 || r[|r| - 1] != '/'
    ensures forall i :: |r| <= i < |s| ==> s[i] == '/'
    decreases |s|
  {
    if |s| > 0 && s[|s| - 1] == '/' then RStripSlash(s[..|s| - 1]) else s
  }

  /** _ws_url: every "https://" becomes "wss://" when the address starts with it,
      otherwise every "http://" becomes "ws://". */
  function WsUrl(base: string): string {
    if StartsWith(base, "https://") then ReplaceAll(base, "https://", "wss://")
    else ReplaceAll(base, "http://", "ws://")
  }

  /** The address submit_and_wait connects to. */
  function WsEndpoint(base: string, clientId: string): string {
    WsUrl(base) + "/ws?clientId=" + clientId
  }

  /** An https address whose rest never repeats the scheme keeps its rest. */
  lemma WsUrlOfHttps(rest: string)
    requires forall k :: !OccursAt(rest, "https://", k)
    ensures WsUrl("https://" + rest) == "wss://" + rest
  {
    var s := "https://" + rest;
    assert s[..8] == "https://";
    assert s[8..] == rest;
    ReplaceAllAbsent(rest, "https://", "wss://");
  }

  /** An http address whose rest never repeats the scheme keeps its rest. */
  lemma WsUrlOfHttp(rest: string)
    requires forall k :: !OccursAt(rest, "http://", k)
    ensures WsUrl("http://" + rest) == "ws://" + rest
  {
    var s := "http://" + rest;
    assert s[..7] == "http://";
    assert s[7..] == rest;
    assert s[4] == ':';
    assert !StartsWith(s, "https://") by {
      if |s| >= 8 {
        assert s[..8][4] == ':';
      }
    }
    ReplaceAllAbsent(rest, "http://", "ws://");
  }

  // ---------------------------------------------------------------- the receive loop

  /** What ws.recv() gives: a binary frame, a text frame with its JSON value (None when
      it does not parse), or WebSocketTimeoutException. */
  datatype Frame = BinaryFrame | TextFrame(json: Option<Value>) | RecvTimeout

  /** One turn of the loop: the clock reading of the timeout check, the frame, and the
      clock reading a time stamp taken in this turn would get. */
  datatype Event = Event(checkAt: real, frame: Frame, stampAt: real)

  datatype WaitState = WaitState(tExecStart: Option<real>, tExecDone: Option<real>, done: bool)

  const InitWait := WaitState(None, None, false)

  /** How the loop ends. StillOpen means that the frames ran out while the loop would
      still call recv. Crashed is an AttributeError on a frame whose JSON is not an
      object, or whose "data" is not an object. */
  datatype WaitOutcome =
    | Completed(st: WaitState)
    | TimedOut
    | ExecError(message: Value)
    | Crashed
    | StillOpen(st: WaitState)

  datatype StepResult = Continue(next: WaitState) | Stop(outcome: WaitOutcome)

  const DefaultExecError: Value := Str("ComfyUI execution error")

  /** data.get("data", {}) */
  function EventData(data: map<string, Value>): Value {
    if "data" in data then data["data"] else Obj(map[])
  }

  /** `d.get("exception_message") or "ComfyUI execution error"` */
  function ErrorMessage(d: map<string, Value>): (m: Value)
    ensures Truthy(m)
  {
    var e := Get(d, "exception_message");
    if Truthy(e) then e else DefaultExecError
  }

  /** One turn of `while True` in submit_and_wait. */
  function EventStep(st: WaitState, ev: Event, startTs: real, runTimeout: real, promptId: Value): StepResult {
    if ev.checkAt - startTs > runTimeout then Stop(TimedOut)
    else match ev.frame
      case BinaryFrame => Continue(st)
      case RecvTimeout => Continue(st)
      case TextFrame(parsed) =>
        if parsed.None? then Continue(st)
        else if !parsed.value.Obj? then Stop(Crashed)
        else
          var data := parsed.value.fields;
          var t := Get(data, "type");
          if t == Str("executing") then
            var d := EventData(data);
            if !d.Obj? then Stop(Crashed)
            else if Get(d.fields, "prompt_id") != promptId then Continue(st)
            else if Get(d.fields, "node") != Null then
              Continue(if st.tExecStart.None? then st.(tExecStart := Some(ev.stampAt)) else st)
            else Stop(Completed(st.(tExecDone := Some(ev.stampAt), done := true)))
          else if t == Str("execution_error") then
            var d := EventData(data);
            if !d.Obj? then Stop(Crashed) else Stop(ExecError(ErrorMessage(d.fields)))
          else Continue(st)
  }

  /** The loop over the frames received in order. */
  function RunEvents(st: WaitState, evs: seq<Event>, startTs: real, runTimeout: real, promptId: Value): WaitOutcome
    decreases |evs|
  {
    if |evs| == 0 then StillOpen(st)
    else match EventStep(st, evs[0], startTs, runTimeout, promptId)
      case Continue(s1) => RunEvents(s1, evs[1..], startTs, runTimeout, promptId)
      case Stop(o) => o
  }

  /** Frames the loop passes over: binary previews, text that is not JSON, receive
      timeouts, and "executing" events of other prompts. */
  predicate Ignorable(f: Frame, promptId: Value) {
    match f
    case BinaryFrame => true
    case RecvTimeout => true
    case TextFrame(parsed) =>
      parsed.None?
      || (parsed.value.Obj? && Get(parsed.value.fields, "type") == Str("executing")
          && EventData(parsed.value.fields).Obj?
          && Get(EventData(parsed.value.fields).fields, "prompt_id") != promptId)
  }

  /** An executing event of this prompt: node is None when the graph has finished. */
  predicate ExecutingOf(f: Frame, promptId: Value, finished: bool) {
    f.TextFrame? && f.json.Some? && f.json.value.Obj?
    && Get(f.json.value.fields, "type") == Str("executing")
    && EventData(f.json.value.fields).Obj?
    && Get(EventData(f.json.value.fields).fields, "prompt_id") == promptId
    && (finished <==> Get(EventData(f.json.value.fields).fields, "node") == Null)
  }

  /** The clock is checked before every receive, whatever arrives. */
  lemma TimeoutFirst(st: WaitState, ev: Event, startTs: real, runTimeout: real, promptId: Value)
    requires ev.checkAt - startTs > runTimeout
    ensures EventStep(st, ev, startTs, runTimeout, promptId) == Stop(TimedOut)
  {
  }

  /** Ignorable frames leave the state as it is. */
  lemma IgnorableKeepsState(st: WaitState, ev: Event, startTs: real, runTimeout: real, promptId: Value)
    requires ev.checkAt - startTs <= runTimeout && Ignorable(ev.frame, promptId)
    ensures EventStep(st, ev, startTs, runTimeout, promptId) == Continue(st)
  {
  }

  /** The first executing event with a node sets the start time; later ones keep it. */
  lemma NodeEventSetsStartOnce(st: WaitState, ev: Event, startTs: real, runTimeout: real, promptId: Value)
    requires ev.checkAt - startTs <= runTimeout && ExecutingOf(ev.frame, promptId, false)
    ensures EventStep(st, ev, startTs, runTimeout, promptId)
      == Continue(st.(tExecStart := if st.tExecStart.None? then Some(ev.stampAt) else st.tExecStart))
  {
  }

  /** An executing event with node None stops the loop with the done time stamped. */
  lemma FinishEventStops(st: WaitState, ev: Event, startTs: real, runTimeout: real, promptId: Value)
    requires ev.checkAt - startTs <= runTimeout && ExecutingOf(ev.frame, promptId, true)
    ensures EventStep(st, ev, startTs, runTimeout, promptId)
      == Stop(Completed(WaitState(st.tExecStart, Some(ev.stampAt), true)))
  {
  }

  /** An execution_error frame ends the loop with its message or the default one, and
      its prompt id is not looked at. */
  lemma ExecutionErrorOfAnyPrompt(st: WaitState, ev: Event, startTs: real, runTimeout: real, p1: Value, p2: Value)
    requires ev.checkAt - startTs <= runTimeout
    requires ev.frame.TextFrame? && ev.frame.json.Some? && ev.frame.json.value.Obj?
    requires Get(ev.frame.json.value.fields, "type") == Str("execution_error")
    requires EventData(ev.frame.json.value.fields).Obj?
    ensures var d := EventData(ev.frame.json.value.fields).fields;
      var m := Get(d, "exception_message");
      EventStep(st, ev, startTs, runTimeout, p1) == EventStep(st, ev, startTs, runTimeout, p2)
      && EventStep(st, ev, startTs, runTimeout, p1) == Stop(ExecError(if Truthy(m) then m else DefaultExecError))
  {
  }

  /** A step that goes on never changes a start time already taken, never stamps the
      done time and never sets done. */
  lemma StepKeepsStart(st: WaitState, ev: Event, startTs: real, runTimeout: real, promptId: Value)
    requires EventStep(st, ev, startTs, runTimeout, promptId).Continue?
    ensures var s1 := EventStep(st, ev, startTs, runTimeout, promptId).next;
      s1.tExecDone == st.tExecDone && s1.done == st.done
      && (st.tExecStart.Some? ==> s1.tExecStart == st.tExecStart)
      && (s1.tExecStart.Some? || st.tExecStart.None?)
  {
  }

  /** Once taken, the start time is what the loop ends with. */
  lemma {:induction false} RunKeepsStart(st: WaitState, evs: seq<Event>, startTs: real, runTimeout: real, promptId: Value)
    requires st.tExecStart.Some?
    ensures var o := RunEvents(st, evs, startTs, runTimeout, promptId);
      (o.Completed? || o.StillOpen?) ==> o.st.tExecStart == st.tExecStart
    decreases |evs|
  {
    if |evs| > 0 {
      var step := EventStep(st, evs[0], startTs, runTimeout, promptId);
      if step.Continue? {
        StepKeepsStart(st, evs[0], startTs, runTimeout, promptId);
        RunKeepsStart(step.next, evs[1..], startTs, runTimeout, promptId);
      }
    }
  }

  /** From the initial state, a completed loop has done set and the done time stamped,
      and a loop that is still open has neither. */
  lemma {:induction false} RunCompletedIsDone(st: WaitState, evs: seq<Event>, startTs: real, runTimeout: real, promptId: Value)
    requires !st.done && st.tExecDone.None?
    ensures var o := RunEvents(st, evs, startTs, runTimeout, promptId);
      (o.Completed? ==> o.st.done && o.st.tExecDone.Some?)
      && (o.StillOpen? ==> !o.st.done && o.st.tExecDone.None?)
    decreases |evs|
  {
    if |evs| > 0 {
      var step := EventStep(st, evs[0], startTs, runTimeout, promptId);
      if step.Continue? {
        StepKeepsStart(st, evs[0], startTs, runTimeout, promptId);
        RunCompletedIsDone(step.next, evs[1..], startTs, runTimeout, promptId);
      }
    }
  }

  /** Receiving a + b is receiving a and, while the loop is still open, b after it. */
  lemma {:induction false} RunConcat(st: WaitState, a: seq<Event>, b: seq<Event>, startTs: real, runTimeout: real, promptId: Value)
    ensures RunEvents(st, a + b, startTs, runTimeout, promptId)
      == match RunEvents(st, a, startTs, runTimeout, promptId)
         case StillOpen(s) => RunEvents(s, b, startTs, runTimeout, promptId)
         case o => o
    decreases |a|
  {
    if |a| > 0 {
      assert (a + b)[0] == a[0];
      assert (a + b)[1..] == a[1..] + b;
      var step := EventStep(st, a[0], startTs, runTimeout, promptId);
      if step.Continue? {
        RunConcat(step.next, a[1..], b, startTs, runTimeout, promptId);
      }
    } else {
      assert a + b == b;
    }
  }

  /** The receive loop of submit_and_wait with its three state variables. */
  method ReceiveLoop(evs: seq<Event>, startTs: real, runTimeout: real, promptId: Value) returns (o: WaitOutcome)
    ensures o == RunEvents(InitWait, evs, startTs, runTimeout, promptId)
  {
    var tExecStart: Option<real> := None;
    var tExecDone: Option<real> := None;
    var done := false;
    var i := 0;
    while i < |evs|
      invariant 0 <= i <= |evs|
      invariant RunEvents(InitWait, evs, startTs, runTimeout, promptId)
        == RunEvents(WaitState(tExecStart, tExecDone, done), evs[i..], startTs, runTimeout, promptId)
    {
      assert evs[i..][1..] == evs[i + 1..];
      var ev := evs[i];
      if ev.checkAt - startTs > runTimeout {
        return TimedOut;
      }
      i := i + 1;
      if ev.frame.BinaryFrame? || ev.frame.RecvTimeout? || ev.frame.json.None? {
        continue;
      }
      var msg := ev.frame.json.value;
      if !msg.Obj? {
        return Crashed;
      }
      var t := Get(msg.fields, "type");
      if t == Str("executing") {
        var d := EventData(msg.fields);
        if !d.Obj? {
          return Crashed;
        }
        if Get(d.fields, "prompt_id") != promptId {
          continue;
        }
        var node := Get(d.fields, "node");
        if node != Null && tExecStart.None? {
          tExecStart := Some(ev.stampAt);
        }
        if node == Null {
          tExecDone := Some(ev.stampAt);
          done := true;
          return Completed(WaitState(tExecStart, tExecDone, done));
        }
      } else if t == Str("execution_error") {
        var d := EventData(msg.fields);
        if !d.Obj? {
          return Crashed;
        }
        return ExecError(ErrorMessage(d.fields));
      }
    }
    o := StillOpen(WaitState(tExecStart, tExecDone, done));
  }

  // ---------------------------------------------------------------- MIME tables

  /** The suffix tests of a _guess_*_mime helper, in their order. */
  type MimeTable = seq<(string, string)>

  const AudioTable: MimeTable := [(".flac", "audio/flac"), (".wav", "audio/wav"), (".mp3", "audio/mpeg"),
                                  (".m4a", "audio/aac"), (".aac", "audio/aac"),
                                  (".ogg", "audio/ogg"), (".oga", "audio/ogg")]

  const VideoTable: MimeTable := [(".mp4", "video/mp4"), (".m4v", "video/mp4"), (".webm", "video/webm"),
                                  (".mov", "video/quicktime"), (".mkv", "video/x-matroska"),
                                  (".gif", "image/gif")]

  const ImageTable: MimeTable := [(".png", "image/png"), (".jpg", "image/jpeg"), (".jpeg", "image/jpeg"),
                                  (".webp", "image/webp"), (".bmp", "image/bmp"),
                                  (".tiff", "image/tiff"), (".tif", "image/tiff")]

  /** The first entry whose suffix ends the file name, or the default. */
  function Lookup(table: MimeTable, fn: string): string
    decreases |table|
  {
    if |table| == 0 then DefaultMime
    else if EndsWith(fn, table[0].0) then table[0].1
    else Lookup(table[1..], fn)
  }

  /** A guesser lower-cases the file name and looks it up. */
  function GuessMime(table: MimeTable, filename: string): string {
    Lookup(table, Lower(filename))
  }

  predicate NoDefaultIn(table: MimeTable) {
    forall i :: 0 <= i < |table| ==> table[i].1 != DefaultMime
  }

  /** Against a table without the default, the lookup gives the default exactly when no
      suffix matches, and otherwise the MIME type of the first suffix that does. */
  lemma {:induction false} LookupMeaning(table: MimeTable, fn: string)
    requires NoDefaultIn(table)
    ensures Lookup(table, fn) == DefaultMime <==> forall i :: 0 <= i < |table| ==> !EndsWith(fn, table[i].0)
    ensures forall i :: 0 <= i < |table| && EndsWith(fn, table[i].0)
              && (forall j :: 0 <= j < i ==> !EndsWith(fn, table[j].0))
              ==> Lookup(table, fn) == table[i].1
    decreases |table|
  {
    if |table| > 0 {
      assert NoDefaultIn(table[1..]) by {
        forall i | 0 <= i < |table[1..]| ensures table[1..][i].1 != DefaultMime {
          assert table[1..][i] == table[i + 1];
        }
      }
      LookupMeaning(table[1..], fn);
      forall i | 0 < i < |table| ensures table[1..][i - 1] == table[i] { }
    }
  }

  lemma TablesHaveNoDefault()
    ensures NoDefaultIn(AudioTable) && NoDefaultIn(VideoTable) && NoDefaultIn(ImageTable)
  {
  }

  /** The guessers ignore letter case. */
  lemma GuessMimeIgnoresCase(table: MimeTable, filename: string)
    ensures GuessMime(table, Lower(filename)) == GuessMime(table, filename)
  {
    LowerIdempotent(filename);
  }

  lemma LowerIdempotent(s: string)
    ensures Lower(Lower(s)) == Lower(s)
  {
    assert forall i :: 0 <= i < |s| ==> LowerChar(LowerChar(s[i])) == LowerChar(s[i]);
  }

  /** ".gif" sits in the video table but maps to image/gif. */
  lemma GifIsImage(filename: string)
    requires EndsWith(Lower(filename), ".gif")
    ensures GuessMime(VideoTable, filename) == "image/gif"
  {
    var fn := Lower(filename);
    assert fn[|fn| - 1] == 'f';
    assert !EndsWith(fn, ".mp4") && !EndsWith(fn, ".m4v") && !EndsWith(fn, ".mov") && !EndsWith(fn, ".mkv") by {
      assert fn[|fn| - 4..][3] == 'f';
    }
    assert !EndsWith(fn, ".webm") by {
      if |fn| >= 5 {
        assert fn[|fn| - 5..][4] == 'f';
      }
    }
  }

  // ---------------------------------------------------------------- artifacts

  /** One file entry of a node output: the file name, and the subfolder and type exactly
      as the entry holds them. */
  datatype FileRef = FileRef(filename: string, subfolder: Value, kind: Value)

  /** The items `for v in files` visits; None where Python raises. An empty dict or
      string is iterated without items; any other non-list raises once an item is
      indexed or at the loop itself. */
  function FileItems(v: Value): Option<seq<Value>> {
    match v
    case Arr(xs) => Some(xs)
    case Obj(m) => if |m| == 0 then Some([]) else None
    case Str(s) => if s == "" then Some([]) else None
    case _ => None
  }

  /** v["filename"], v["subfolder"], v["type"]: each key must be present, and the file
      name must be a string for the .lower() of the MIME guess; the other two are kept
      as they are. */
  function FileOf(v: Value): Option<FileRef> {
    if v.Obj? && "filename" in v.fields && "subfolder" in v.fields && "type" in v.fields
       && v.fields["filename"].Str?
    then Some(FileRef(v.fields["filename"].s, v.fields["subfolder"], v.fields["type"]))
    else None
  }

  /** The text urlencode gives a query value: str(v). Lists and objects, whose str() is
      Python's repr, are rendered as the empty text here. */
  function QueryText(v: Value): string {
    if v.Null? then "None" else if IsScalar(v) then ScalarText(v) else ""
  }

  /** The /view address of a file; percent-encoding is not part of this model. */
  function ViewUrl(base: string, f: FileRef): string {
    base + "/view?filename=" + f.filename + "&subfolder=" + QueryText(f.subfolder)
      + "&type=" + QueryText(f.kind)
  }

  function TableFor(kind: MediaKind): MimeTable {
    match kind
    case Image => ImageTable
    case Video => VideoTable
    case Audio => AudioTable
  }

  function MediaOf(base: string, f: FileRef, kind: MediaKind): MediaURL {
    MediaURL(ViewUrl(base, f), f.filename, f.subfolder, kind, GuessMime(TableFor(kind), f.filename))
  }

  /** The media of a list of file entries, in order; None when an entry is malformed. */
  function MediaList(base: string, files: seq<Value>, kind: MediaKind): Option<seq<MediaURL>>
    decreases |files|
  {
    if |files| == 0 then Some([])
    else
      var f :- FileOf(files[0]);
      var rest :- MediaList(base, files[1..], kind);
      Some([MediaOf(base, f, kind)] + rest)
  }

  function MediaOfValue(base: string, v: Value, kind: MediaKind): Option<seq<MediaURL>> {
    var files :- FileItems(v);
    MediaList(base, files, kind)
  }

  predicate AllOfKind(ms: seq<MediaURL>, kind: MediaKind) {
    forall i :: 0 <= i < |ms| ==> ms[i].kind == kind
  }

  /** Every media item of a file list has the list's kind and the MIME type of that
      kind's table, and the list is as long as the entries. */
  lemma {:induction false} MediaListKinds(base: string, files: seq<Value>, kind: MediaKind)
    ensures var r := MediaList(base, files, kind);
      r.Some? ==>
        |r.value| == |files| && AllOfKind(r.value, kind)
        && forall i :: 0 <= i < |r.value| ==> r.value[i].mimeType == GuessMime(TableFor(kind), r.value[i].filename)
    decreases |files|
  {
    if |files| > 0 {
      MediaListKinds(base, files[1..], kind);
      var r := MediaList(base, files, kind);
      if r.Some? {
        var rest := MediaList(base, files[1..], kind).value;
        assert r.value == [MediaOf(base, FileOf(files[0]).value, kind)] + rest;
        assert forall i :: 0 < i < |r.value| ==> r.value[i] == rest[i - 1];
      }
    }
  }

  /** The list exists exactly when every entry is an object with the three keys and a
      string file name, whatever the subfolder and type hold. */
  lemma {:induction false} MediaListDefined(base: string, files: seq<Value>, kind: MediaKind)
    ensures MediaList(base, files, kind).Some? <==>
      forall i :: 0 <= i < |files| ==>
        files[i].Obj? && "filename" in files[i].fields && "subfolder" in files[i].fields
        && "type" in files[i].fields && files[i].fields["filename"].Str?
    decreases |files|
  {
    if |files| > 0 {
      MediaListDefined(base, files[1..], kind);
      assert forall i :: 0 < i < |files| ==> files[1..][i - 1] == files[i];
    }
  }

  /** The node ids of the submitted workflow with a given class_type. */
  function SaveNodes(wf: map<string, Value>, cls: string): set<string> {
    set n | n in wf && wf[n].Obj? && Get(wf[n].fields, "class_type") == Str(cls)
  }

  /** `node.get("class_type")` needs every node to be an object. */
  predicate AllObjects(wf: map<string, Value>) {
    forall n :: n in wf ==> wf[n].Obj?
  }

  datatype ArtPass = VideoPass | ImagePass | AudioPass | FallbackPass

  predicate IsVideoNode(nid: string, out: map<string, Value>, saveVideo: set<string>) {
    nid in saveVideo || Truthy(Get(out, "animated"))
  }

  /** The keys a pass reads from one node output, in the order it reads them. */
  function PassKeys(p: ArtPass, nid: string, out: map<string, Value>, saveImage: set<string>, saveVideo: set<string>): seq<string> {
    match p
    case VideoPass =>
      if !IsVideoNode(nid, out, saveVideo) then []
      else if "videos" in out then ["videos"]
      else if "images" in out then ["images"]
      else []
    case ImagePass =>
      if IsVideoNode(nid, out, saveVideo) || "images" !in out || (|saveImage| > 0 && nid !in saveImage) then []
      else ["images"]
    case AudioPass =>
      if "audio" in out then ["audio"] else if "audios" in out then ["audios"] else []
    case FallbackPass =>
      (if "videos" in out then ["videos"] else []) + (if "images" in out then ["images"] else [])
      + (if "audio" in out then ["audio"] else []) + (if "audios" in out then ["audios"] else [])
  }

  /** The kind a pass gives the files under a key. */
  function KindOf(p: ArtPass, key: string, out: map<string, Value>): MediaKind {
    match p
    case VideoPass => Video
    case ImagePass => Image
    case AudioPass => Audio
    case FallbackPass =>
      if key == "videos" || Truthy(Get(out, "animated")) then Video
      else if key == "audio" || key == "audios" then Audio
      else Image
  }

  /** The media one node contributes to a pass, key by key. */
  function KeysMedia(p: ArtPass, base: string, out: map<string, Value>, keys: seq<string>): Option<seq<MediaURL>>
    requires forall i :: 0 <= i < |keys| ==> keys[i] in out
    decreases |keys|
  {
    if |keys| == 0 then Some([])
    else
      var first :- MediaOfValue(base, out[keys[0]], KindOf(p, keys[0], out));
      var rest :- KeysMedia(p, base, out, keys[1..]);
      Some(first + rest)
  }

  lemma PassKeysPresent(p: ArtPass, nid: string, out: map<string, Value>, saveImage: set<string>, saveVideo: set<string>)
    ensures var keys := PassKeys(p, nid, out, saveImage, saveVideo);
      forall i :: 0 <= i < |keys| ==> keys[i] in out
  {
  }

  function NodeMedia(p: ArtPass, base: string, nid: string, out: map<string, Value>,
                     saveImage: set<string>, saveVideo: set<string>): Option<seq<MediaURL>>
  {
    PassKeysPresent(p, nid, out, saveImage, saveVideo);
    KeysMedia(p, base, out, PassKeys(p, nid, out, saveImage, saveVideo))
  }

  /** `for node_id, node_out in outputs.items()` of one pass, in the order of the
      history. */
  function PassMedia(p: ArtPass, base: string, outputs: seq<(string, map<string, Value>)>,
                     saveImage: set<string>, saveVideo: set<string>): Option<seq<MediaURL>>
    decreases |outputs|
  {
    if |outputs| == 0 then Some([])
    else
      var first :- NodeMedia(p, base, outputs[0].0, outputs[0].1, saveImage, saveVideo);
      var rest :- PassMedia(p, base, outputs[1..], saveImage, saveVideo);
      Some(first + rest)
  }

  /** The videos, then the images, then the audio of the history. */
  function PrimaryMedia(base: string, wf: map<string, Value>, outputs: seq<(string, map<string, Value>)>): Option<seq<MediaURL>> {
    var si := SaveNodes(wf, "SaveImage");
    var sv := SaveNodes(wf, "SaveVideo");
    var v :- PassMedia(VideoPass, base, outputs, si, sv);
    var im :- PassMedia(ImagePass, base, outputs, si, sv);
    var a :- PassMedia(AudioPass, base, outputs, si, sv);
    Some(v + im + a)
  }

  /** The media list of submit_and_wait; None where Python raises on a malformed
      workflow node or file entry. The raw fallback runs only when the three passes
      found nothing. */
  function ExtractMedia(base: string, wf: map<string, Value>, outputs: seq<(string, map<string, Value>)>): Option<seq<MediaURL>> {
    if !AllObjects(wf) then None
    else
      var primary :- PrimaryMedia(base, wf, outputs);
      if |primary| > 0 then Some(primary)
      else PassMedia(FallbackPass, base, outputs, SaveNodes(wf, "SaveImage"), SaveNodes(wf, "SaveVideo"))
  }

  /** The passes other than the fallback give media of their own kind only. */
  lemma {:induction false} KeysMediaKinds(p: ArtPass, base: string, out: map<string, Value>, keys: seq<string>)
    requires p != FallbackPass
    requires forall i :: 0 <= i < |keys| ==> keys[i] in out
    ensures var r := KeysMedia(p, base, out, keys);
      r.Some? ==> AllOfKind(r.value, KindOf(p, "", out))
    decreases |keys|
  {
    if |keys| > 0 {
      var kind := KindOf(p, keys[0], out);
      assert kind == KindOf(p, "", out);
      var first := MediaOfValue(base, out[keys[0]], kind);
      if first.Some? {
        MediaListKinds(base, FileItems(out[keys[0]]).value, kind);
        KeysMediaKinds(p, base, out, keys[1..]);
      }
    }
  }

  lemma {:induction false} PassMediaKinds(p: ArtPass, base: string, outputs: seq<(string, map<string, Value>)>,
                                          saveImage: set<string>, saveVideo: set<string>)
    requires p == VideoPass || p == ImagePass || p == AudioPass
    ensures var r := PassMedia(p, base, outputs, saveImage, saveVideo);
      r.Some? ==> AllOfKind(r.value, KindOf(p, "", map[]))
    decreases |outputs|
  {
    if |outputs| > 0 {
      var out := outputs[0].1;
      var first := NodeMedia(p, base, outputs[0].0, out, saveImage, saveVideo);
      if first.Some? {
        PassKeysPresent(p, outputs[0].0, out, saveImage, saveVideo);
        KeysMediaKinds(p, base, out, PassKeys(p, outputs[0].0, out, saveImage, saveVideo));
        PassMediaKinds(p, base, outputs[1..], saveImage, saveVideo);
      }
    }
  }

  function KindRank(k: MediaKind): nat {
    match k
    case Video => 0
    case Image => 1
    case Audio => 2
  }

  /** Videos, then images, then audio are in rank order. */
  lemma GroupedConcat(v: seq<MediaURL>, im: seq<MediaURL>, a: seq<MediaURL>)
    requires AllOfKind(v, Video) && AllOfKind(im, Image) && AllOfKind(a, Audio)
    ensures var m := v + im + a;
      forall i, j :: 0 <= i < j < |m| ==> KindRank(m[i].kind) <= KindRank(m[j].kind)
  {
    var m := v + im + a;
    forall i | 0 <= i < |m|
      ensures KindRank(m[i].kind) == if i < |v| then 0 else if i < |v| + |im| then 1 else 2
    {
      if i < |v| {
        assert m[i] == v[i];
      } else if i < |v| + |im| {
        assert m[i] == im[i - |v|];
      } else {
        assert m[i] == a[i - |v| - |im|];
      }
    }
  }

  /** Unless the fallback ran, every video comes before every image and every image
      before every audio item; the fallback runs exactly when the passes found nothing. */
  lemma ExtractOrder(base: string, wf: map<string, Value>, outputs: seq<(string, map<string, Value>)>)
    requires AllObjects(wf) && PrimaryMedia(base, wf, outputs).Some?
    ensures var primary := PrimaryMedia(base, wf, outputs).value;
      var r := ExtractMedia(base, wf, outputs);
      (|primary| > 0 ==> r == Some(primary))
      && (|primary| == 0 ==> r == PassMedia(FallbackPass, base, outputs, SaveNodes(wf, "SaveImage"), SaveNodes(wf, "SaveVideo")))
      && forall i, j :: 0 <= i < j < |primary| ==> KindRank(primary[i].kind) <= KindRank(primary[j].kind)
  {
    var si := SaveNodes(wf, "SaveImage");
    var sv := SaveNodes(wf, "SaveVideo");
    PassMediaKinds(VideoPass, base, outputs, si, sv);
    PassMediaKinds(ImagePass, base, outputs, si, sv);
    PassMediaKinds(AudioPass, base, outputs, si, sv);
    GroupedConcat(PassMedia(VideoPass, base, outputs, si, sv).value, PassMedia(ImagePass, base, outputs, si, sv).value,
                  PassMedia(AudioPass, base, outputs, si, sv).value);
  }

  /** A video node takes its files from "videos" when it has them, else "images". */
  lemma VideoPrefersVideos(base: string, nid: string, out: map<string, Value>, saveImage: set<string>, saveVideo: set<string>)
    requires IsVideoNode(nid, out, saveVideo) && ("videos" in out || "images" in out)
    ensures NodeMedia(VideoPass, base, nid, out, saveImage, saveVideo)
      == MediaOfValue(base, out[if "videos" in out then "videos" else "images"], Video)
  {
    var key := if "videos" in out then "videos" else "images";
    assert PassKeys(VideoPass, nid, out, saveImage, saveVideo) == [key];
    assert [key][1..] == [];
    assert NodeMedia(VideoPass, base, nid, out, saveImage, saveVideo) == KeysMedia(VideoPass, base, out, [key]);
    assert KeysMedia(VideoPass, base, out, [key][1..]) == Some([]);
    var first := MediaOfValue(base, out[key], Video);
    if first.Some? {
      assert first.value + [] == first.value;
    }
  }

  /** When the workflow has SaveImage nodes, other nodes give no images. */
  lemma ImagesOnlyFromSaveImage(base: string, nid: string, out: map<string, Value>, saveImage: set<string>, saveVideo: set<string>)
    requires |saveImage| > 0 && nid !in saveImage
    ensures NodeMedia(ImagePass, base, nid, out, saveImage, saveVideo) == Some([])
  {
  }

  /** A node with "audio" gives its audio from there, whatever its class. */
  lemma AudioPrefersAudio(base: string, nid: string, out: map<string, Value>, si1: set<string>, sv1: set<string>,
                          si2: set<string>, sv2: set<string>)
    requires "audio" in out || "audios" in out
    ensures NodeMedia(AudioPass, base, nid, out, si1, sv1) == NodeMedia(AudioPass, base, nid, out, si2, sv2)
      == MediaOfValue(base, out[if "audio" in out then "audio" else "audios"], Audio)
  {
    var key := if "audio" in out then "audio" else "audios";
    assert PassKeys(AudioPass, nid, out, si1, sv1) == [key] == PassKeys(AudioPass, nid, out, si2, sv2);
    assert [key][1..] == [];
    assert NodeMedia(AudioPass, base, nid, out, si1, sv1) == KeysMedia(AudioPass, base, out, [key]);
    assert NodeMedia(AudioPass, base, nid, out, si2, sv2) == KeysMedia(AudioPass, base, out, [key]);
    assert KeysMedia(AudioPass, base, out, [key][1..]) == Some([]);
    var first := MediaOfValue(base, out[key], Audio);
    if first.Some? {
      assert first.value + [] == first.value;
    }
  }

  // ---------------------------------------------------------------- the media loops

  function AppendOpt(acc: seq<MediaURL>, o: Option<seq<MediaURL>>): Option<seq<MediaURL>> {
    if o.Some? then Some(acc + o.value) else None
  }

  /** One file of the loop below: a file entry is appended, anything else ends the list. */
  lemma AppendStep(acc: seq<MediaURL>, base: string, files: seq<Value>, i: nat, kind: MediaKind)
    requires i < |files|
    ensures var f := FileOf(files[i]);
      AppendOpt(acc, MediaList(base, files[i..], kind))
      == if f.None? then None else AppendOpt(acc + [MediaOf(base, f.value, kind)], MediaList(base, files[i + 1..], kind))
  {
    assert files[i..][0] == files[i] && files[i..][1..] == files[i + 1..];
    var f := FileOf(files[i]);
    var rest := MediaList(base, files[i + 1..], kind);
    if f.Some? && rest.Some? {
      assert acc + ([MediaOf(base, f.value, kind)] + rest.value) == (acc + [MediaOf(base, f.value, kind)]) + rest.value;
    }
  }

  /** `for v in files: media.append(MediaURL(...))` */
  method AppendFiles(media: seq<MediaURL>, base: string, files: seq<Value>, kind: MediaKind)
    returns (r: Option<seq<MediaURL>>)
    ensures r == AppendOpt(media, MediaList(base, files, kind))
  {
    var acc := media;
    var i := 0;
    while i < |files|
      invariant 0 <= i <= |files|
      invariant AppendOpt(media, MediaList(base, files, kind)) == AppendOpt(acc, MediaList(base, files[i..], kind))
    {
      AppendStep(acc, base, files, i, kind);
      var f := FileOf(files[i]);
      if f.None? {
        return None;
      }
      acc := acc + [MediaOf(base, f.value, kind)];
      i := i + 1;
    }
    assert files[i..] == [] && acc + [] == acc;
    return Some(acc);
  }

  lemma AppendOptEmpty(o: Option<seq<MediaURL>>)
    ensures AppendOpt([], o) == o
  {
    if o.Some? {
      assert [] + o.value == o.value;
    }
  }

  /** Appending the media of a key list is appending its first key's, then the rest. */
  lemma KeysMediaStep(acc: seq<MediaURL>, p: ArtPass, base: string, out: map<string, Value>, keys: seq<string>)
    requires |keys| > 0 && forall i :: 0 <= i < |keys| ==> keys[i] in out
    ensures var first := MediaOfValue(base, out[keys[0]], KindOf(p, keys[0], out));
      AppendOpt(acc, KeysMedia(p, base, out, keys))
        == if first.None? then None else AppendOpt(acc + first.value, KeysMedia(p, base, out, keys[1..]))
  {
    var first := MediaOfValue(base, out[keys[0]], KindOf(p, keys[0], out));
    var rest := KeysMedia(p, base, out, keys[1..]);
    if first.Some? && rest.Some? {
      assert acc + (first.value + rest.value) == (acc + first.value) + rest.value;
    }
  }

  /** Appending the media of a pass is appending its first node's, then the rest. */
  lemma PassMediaStep(acc: seq<MediaURL>, p: ArtPass, base: string, outputs: seq<(string, map<string, Value>)>,
                      saveImage: set<string>, saveVideo: set<string>)
    requires |outputs| > 0
    ensures var first := NodeMedia(p, base, outputs[0].0, outputs[0].1, saveImage, saveVideo);
      AppendOpt(acc, PassMedia(p, base, outputs, saveImage, saveVideo))
        == if first.None? then None else AppendOpt(acc + first.value, PassMedia(p, base, outputs[1..], saveImage, saveVideo))
  {
    var first := NodeMedia(p, base, outputs[0].0, outputs[0].1, saveImage, saveVideo);
    var rest := PassMedia(p, base, outputs[1..], saveImage, saveVideo);
    if first.Some? && rest.Some? {
      assert acc + (first.value + rest.value) == (acc + first.value) + rest.value;
    }
  }

  /** One node of one pass: the keys it reads, each list appended in turn. */
  method AppendNode(media: seq<MediaURL>, p: ArtPass, base: string, nid: string, out: map<string, Value>,
                    saveImage: set<string>, saveVideo: set<string>) returns (r: Option<seq<MediaURL>>)
    ensures r == AppendOpt(media, NodeMedia(p, base, nid, out, saveImage, saveVideo))
  {
    var keys := PassKeys(p, nid, out, saveImage, saveVideo);
    PassKeysPresent(p, nid, out, saveImage, saveVideo);
    assert NodeMedia(p, base, nid, out, saveImage, saveVideo) == KeysMedia(p, base, out, keys);
    var acc := media;
    var i := 0;
    while i < |keys|
      invariant 0 <= i <= |keys|
      invariant AppendOpt(media, KeysMedia(p, base, out, keys)) == AppendOpt(acc, KeysMedia(p, base, out, keys[i..]))
    {
      assert keys[i..][1..] == keys[i + 1..];
      KeysMediaStep(acc, p, base, out, keys[i..]);
      var files := FileItems(out[keys[i]]);
      if files.None? {
        return None;
      }
      var next := AppendFiles(acc, base, files.value, KindOf(p, keys[i], out));
      if next.None? {
        return None;
      }
      acc := next.value;
      i := i + 1;
    }
    assert keys[i..] == [] && acc + [] == acc;
    return Some(acc);
  }

  /** One pass over the outputs, appending to media. */
  method AppendPass(media: seq<MediaURL>, p: ArtPass, base: string, outputs: seq<(string, map<string, Value>)>,
                    saveImage: set<string>, saveVideo: set<string>) returns (r: Option<seq<MediaURL>>)
    ensures r == AppendOpt(media, PassMedia(p, base, outputs, saveImage, saveVideo))
  {
    var acc := media;
    var i := 0;
    while i < |outputs|
      invariant 0 <= i <= |outputs|
      invariant AppendOpt(media, PassMedia(p, base, outputs, saveImage, saveVideo))
        == AppendOpt(acc, PassMedia(p, base, outputs[i..], saveImage, saveVideo))
    {
      assert outputs[i..][1..] == outputs[i + 1..];
      PassMediaStep(acc, p, base, outputs[i..], saveImage, saveVideo);
      var next := AppendNode(acc, p, base, outputs[i].0, outputs[i].1, saveImage, saveVideo);
      if next.None? {
        return None;
      }
      acc := next.value;
      i := i + 1;
    }
    assert outputs[i..] == [] && acc + [] == acc;
    return Some(acc);
  }

  /** The media collection of submit_and_wait: the three passes, then the fallback when
      media is still empty. */
  method CollectMedia(base: string, wf: map<string, Value>, outputs: seq<(string, map<string, Value>)>)
    returns (r: Option<seq<MediaURL>>)
    ensures r == ExtractMedia(base, wf, outputs)
  {
    if !AllObjects(wf) {
      return None;
    }
    var si := SaveNodes(wf, "SaveImage");
    var sv := SaveNodes(wf, "SaveVideo");
    var v := AppendPass([], VideoPass, base, outputs, si, sv);
    AppendOptEmpty(PassMedia(VideoPass, base, outputs, si, sv));
    if v.None? {
      return None;
    }
    var vi := AppendPass(v.value, ImagePass, base, outputs, si, sv);
    if vi.None? {
      return None;
    }
    var via := AppendPass(vi.value, AudioPass, base, outputs, si, sv);
    if via.None? {
      return None;
    }
    assert PrimaryMedia(base, wf, outputs) == via;
    if |via.value| > 0 {
      return via;
    }
    r := AppendPass([], FallbackPass, base, outputs, si, sv);
    AppendOptEmpty(PassMedia(FallbackPass, base, outputs, si, sv));
  }

  // ---------------------------------------------------------------- timings

  function Max0(x: real): real {
    if x > 0.0 then x else 0.0
  }

  /** `t_exec_done or time.time()`: a done time of 0.0 is falsy as well. */
  function DoneOr(tExecDone: Option<real>, now: real): real {
    if tExecDone.Some? && tExecDone.value != 0.0 then tExecDone.value else now
  }

  /** (comfy_queue_s, comfy_exec_s); start_ts stands in for a missing queue time. */
  function Timings(startTs: real, tQueued: Option<real>, tExecStart: Option<real>, tExecDone: Option<real>, now: real): (r: (real, real))
    ensures r.0 >= 0.0 && r.1 >= 0.0
    ensures tExecStart.None? ==> r.1 == 0.0
  {
    var q := if tQueued.Some? then tQueued.value else startTs;
    if tExecStart.None? then (Max0(DoneOr(tExecDone, now) - q), 0.0)
    else (Max0(tExecStart.value - q), Max0(DoneOr(tExecDone, now) - tExecStart.value))
  }

  /** With the clock readings in order, queue and execution time add up to the time
      from queueing to done; without a node event it is all queue time. */
  lemma TimingsAddUp(startTs: real, tQueued: real, tExecStart: Option<real>, tDone: real, now: real)
    requires tDone != 0.0
    requires tExecStart.Some? ==> tQueued <= tExecStart.value <= tDone
    requires tExecStart.None? ==> tQueued <= tDone
    ensures var r := Timings(startTs, Some(tQueued), tExecStart, Some(tDone), now);
      r.0 + r.1 == tDone - tQueued
      && (tExecStart.Some? ==> r.0 == tExecStart.value - tQueued)
  {
  }

  // ---------------------------------------------------------------- submit_and_wait

  /** The ComfyError (or other exception) that ends submit_and_wait. EventsExhausted
      stands for a receive that never returns. */
  datatype SubmitError = TimeoutExceeded | ExecutionFailed(message: Value) | Malformed | EventsExhausted

  /** The message of the ComfyError of a timeout. */
  const TimeoutMessage: string := "Generation timeout exceeded"

  /** submit_and_wait after POST /prompt: the receive loop, then the media of the
      history outputs and the timings. */
  function SubmitSpec(base: string, wf: map<string, Value>, evs: seq<Event>, startTs: real, runTimeout: real,
                      promptId: Value, tQueued: real, outputs: seq<(string, map<string, Value>)>, now: real)
    : Result<GenerationResult, SubmitError>
  {
    match RunEvents(InitWait, evs, startTs, runTimeout, promptId)
    case TimedOut => Failure(TimeoutExceeded)
    case ExecError(m) => Failure(ExecutionFailed(m))
    case Crashed => Failure(Malformed)
    case StillOpen(_) => Failure(EventsExhausted)
    case Completed(st) =>
      match ExtractMedia(base, wf, outputs)
      case None => Failure(Malformed)
      case Some(media) =>
        var t := Timings(startTs, Some(tQueued), st.tExecStart, st.tExecDone, now);
        Success(GenerationResult(media, t.0, t.1))
  }

  /** A successful run reports the extracted media and non-negative timings; without a
      node event the execution time is 0. */
  lemma SubmitTimingsNonNegative(base: string, wf: map<string, Value>, evs: seq<Event>, startTs: real, runTimeout: real,
                                 promptId: Value, tQueued: real, outputs: seq<(string, map<string, Value>)>, now: real)
    ensures var r := SubmitSpec(base, wf, evs, startTs, runTimeout, promptId, tQueued, outputs, now);
      r.Success? ==>
        r.value.queueSeconds >= 0.0 && r.value.execSeconds >= 0.0
        && r.value.media == ExtractMedia(base, wf, outputs).value
        && RunEvents(InitWait, evs, startTs, runTimeout, promptId).Completed?
        && (RunEvents(InitWait, evs, startTs, runTimeout, promptId).st.tExecStart.None? ==> r.value.execSeconds == 0.0)
  {
  }

  method SubmitAndWait(base: string, wf: map<string, Value>, evs: seq<Event>, startTs: real, runTimeout: real,
                       promptId: Value, tQueued: real, outputs: seq<(string, map<string, Value>)>, now: real)
    returns (r: Result<GenerationResult, SubmitError>)
    ensures r == SubmitSpec(base, wf, evs, startTs, runTimeout, promptId, tQueued, outputs, now)
  {
    var o := ReceiveLoop(evs, startTs, runTimeout, promptId);
    match o {
      case TimedOut => return Failure(TimeoutExceeded);
      case ExecError(m) => return Failure(ExecutionFailed(m));
      case Crashed => return Failure(Malformed);
      case StillOpen(_) => return Failure(EventsExhausted);
      case Completed(st) =>
        var media := CollectMedia(base, wf, outputs);
        if media.None? {
          return Failure(Malformed);
        }
        var t := Timings(startTs, Some(tQueued), st.tExecStart, st.tExecDone, now);
        return Success(GenerationResult(media.value, t.0, t.1));
    }
  }
}
