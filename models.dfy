/** The records shared by the queue, the ComfyUI client and the Telegram layer. */
module Models {
  import opened Wrappers
  import opened Json

  type byte = x: int | 0 <= x < 256

  type Bytes = seq<byte>

  /** One entry of nodes.json: which workflow inputs a rule of a given kind writes. */
  datatype NodeRule = NodeRule(kind: string, nodeIds: seq<string>, key: string, param: Option<string>)

  datatype NodesMap = NodesMap(nodes: seq<NodeRule>, defaults: map<string, Value>)

  /** A rule written without a param: the param takes its declared default, None. */
  function NewNodeRule(kind: string, nodeIds: seq<string>, key: string): (rule: NodeRule)
    ensures rule.param.None?
    ensures rule.kind == kind && rule.nodeIds == nodeIds && rule.key == key
  {
    NodeRule(kind, nodeIds, key, None)
  }

  /** NodesMap(): no rules and no defaults. */
  function EmptyNodesMap(): (m: NodesMap)
    ensures |m.nodes| == 0 && |m.defaults| == 0
  {
    NodesMap([], map[])
  }

  /** A topic: its workflow template, node mapping and inline-parameter policy.
      inlineAllowed == None means that every supported inline key is allowed. */
  datatype TopicConfig = TopicConfig(
    alias: string,
    title: string,
    description: Option<string>,
    topicId: Option<int>,
    permissions: map<string, Value>,
    defaults: map<string, Value>,
    paths: map<string, string>,
    emoji: Option<string>,
    iconCustomEmojiId: Option<string>,
    inlineAllowed: Option<seq<string>>,
    inlineLimits: map<string, Value>,
    workflow: map<string, Value>,
    nodesMap: NodesMap)

  /** An uploaded image: its bytes and its file name. */
  datatype ImageFile = ImageFile(data: Bytes, filename: string)

  datatype GenerateJob = GenerateJob(
    chatId: int,
    threadId: int,
    messageId: int,
    prompt: string,
    userId: int,
    params: map<string, Value>,
    topicAlias: string,
    correlationId: string,
    inputImage: Option<ImageFile>,
    inputImages: Option<seq<ImageFile>>,
    placeholderTs: real,
    initiallyWaiting: bool,
    canceled: bool,
    canceledByAdmin: bool,
    started: bool,
    sourceMessageIds: Option<seq<int>>)

  /** A job that still waits for a worker: not started and not canceled. */
  predicate Waiting(job: GenerateJob) {
    !job.started && !job.canceled
  }

  /** A job as the bot creates it: the lifecycle flags take their declared defaults. */
  function NewGenerateJob(chatId: int, threadId: int, messageId: int, prompt: string, userId: int,
                          params: map<string, Value>, topicAlias: string, correlationId: string,
                          inputImage: Option<ImageFile>, inputImages: Option<seq<ImageFile>>,
                          placeholderTs: real, initiallyWaiting: bool,
                          sourceMessageIds: Option<seq<int>>): (job: GenerateJob)
    ensures Waiting(job) && !job.canceledByAdmin
    ensures job.messageId == messageId && job.userId == userId && job.topicAlias == topicAlias
    ensures job.params == params && job.sourceMessageIds == sourceMessageIds
  {
    GenerateJob(chatId, threadId, messageId, prompt, userId, params, topicAlias, correlationId,
                inputImage, inputImages, placeholderTs, initiallyWaiting, false, false, false,
                sourceMessageIds)
  }

  datatype MediaKind = Image | Video | Audio

  datatype MediaURL = MediaURL(url: string, filename: string, subfolder: Value, kind: MediaKind, mimeType: string)

  const DefaultMime: string := "application/octet-stream"

  /** A MediaURL built without a MIME type carries the generic binary type. */
  function NewMediaURL(url: string, filename: string, subfolder: Value, kind: MediaKind): (m: MediaURL)
    ensures m.mimeType == DefaultMime
    ensures m.url == url && m.filename == filename && m.subfolder == subfolder && m.kind == kind
  {
    MediaURL(url, filename, subfolder, kind, DefaultMime)
  }

  datatype GenerationResult = GenerationResult(media: seq<MediaURL>, queueSeconds: real, execSeconds: real)
}
