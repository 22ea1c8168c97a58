# TeleComfy core in Dafny

TeleComfy is a Telegram bot. It turns messages posted in the topics of one forum
supergroup into ComfyUI generation jobs. Each topic is a directory holding a ComfyUI
workflow, a `nodes.json` mapping of rules onto workflow inputs, and a `meta.json`
with the title, permissions, defaults and inline-parameter policy. This project
models the logic that decides what happens to a message and to a job:

- the routing and grouping of incoming messages and albums, which yields the prompt,
  the input images and the requester (`Bot`);
- inline `key=value` parameters, their merge with topic defaults, and the limits
  on them (`Helpers`);
- the per-topic job queue with its worker pools, per-user pending counters and
  cancellation (`Jobs`);
- the rewriting of a workflow template from the node rules (`Templating`);
- the processing of ComfyUI's progress events and the selection of produced media
  (`Comfy`);
- the topic repository, which reads topic directories, validates them and keeps
  the forum topics in sync (`TopicsRepo`);
- the image-size probes for PNG, JPEG and WebP headers (`Images`);
- the delivery of media as albums and groups (`TelegramSend`);
- configuration loading (`Config`) and message translation (`I18n`).

Pure code is modelled as functions with lemmas. Code that updates state in place is
modelled imperatively:

- the job queue and the topic repository are classes whose methods are proved
  against step functions on a value of their state;
- loops in the source are `while` loops with invariants, proved against a function
  that specifies them.

Python's `int` is unbounded like Dafny's, so no widths are modelled; the one place the
source passes an integer through a float, the inline-parameter clamp, is listed under
"## Left out". The image
probes read big- and little-endian words from bytes (`seq<byte>`) explicitly.

Modules (one file each): `Wrappers`, `Json` (JSON values; Python's `bool` counts as
an `int` where the source uses `isinstance(v, int)`), `Text` (string helpers),
`Counting`, `Models`, `Jobs`, `Templating`, `Comfy`, `Helpers`, `TopicsRepo`,
`Images`, `Bot`, `Config`, `I18n`, `TelegramSend`.

## Model

| member | source | states |
|---|---|---|
| Models.NewNodeRule | app/domain/models.py:5-14 | a rule written without `param` gets None and keeps its kind, node ids and key |
| Models.EmptyNodesMap | app/domain/models.py:16-19 | a default nodes map has no rules and no defaults |
| Models.NewGenerateJob | app/domain/models.py:44-62 | a new job is waiting (not started, not canceled), is not canceled by an admin, and keeps the ids, params and source ids it is given |
| Models.NewMediaURL | app/domain/models.py:64-70 | a media URL built without a MIME type carries `application/octet-stream` |
| Jobs.IncPendingMapEffect | app/infra/jobs_queue.py:94-97 | `_inc_pending` raises the count of a positive user id by one and changes no other user's count |
| Jobs.DecPendingMapEffect | app/infra/jobs_queue.py:99-106 | `_dec_pending` lowers a positive user's count by one (removing the entry at zero) and changes no other user's count |
| Jobs.CounterUpdates | app/infra/jobs_queue.py:94-106 | both updates keep every stored count at least one and every stored user positive; both ignore non-positive ids; a decrement from one drops the entry |
| Jobs.InitEstablishes | app/infra/jobs_queue.py:23-50 | the fresh queue satisfies the queue invariant, and `per_topic_limit` is clamped to at least one |
| Jobs.SetProcessorPreserves | app/infra/jobs_queue.py:52-57 | setting the processor keeps the invariant |
| Jobs.EnsureWorkersPreserves | app/infra/jobs_queue.py:82-92 | creating a topic's pool (per_topic_limit idle workers, an existing pool left alone) keeps the invariant and changes neither jobs nor counters |
| Jobs.EnqueuePreserves | app/infra/jobs_queue.py:158-173 | an accepted waiting job keeps the invariant: each user's pending count equals their waiting jobs plus reserved slots |
| Jobs.EnqueueLimitedPreserves | app/infra/jobs_queue.py:175-194 | enqueue_limited keeps the invariant whether it accepts or rejects |
| Jobs.EnqueueReservedPreserves | app/infra/jobs_queue.py:231-247 | enqueue_reserved keeps the invariant; a reserved slot is consumed by the job it was reserved for |
| Jobs.ReserveUserSlotPreserves | app/infra/jobs_queue.py:207-219 | a successful reservation adds one reserved slot to the invariant's accounting |
| Jobs.ReleaseUserSlotPreserves | app/infra/jobs_queue.py:221-229 | releasing a held reservation keeps the invariant with that reservation removed |
| Jobs.WillQueuePreserves | app/infra/jobs_queue.py:249-268 | will_queue keeps the invariant |
| Jobs.CancelJobPreserves | app/infra/jobs_queue.py:276-293 | cancel_job keeps the invariant: the canceled job stops counting and its owner's count drops by one |
| Jobs.DequeuePreserves | app/infra/jobs_queue.py:117-127 | a worker taking the head of its queue (a pill, a canceled job, or a live job) keeps the invariant |
| Jobs.StartCheckedPreserves | app/infra/jobs_queue.py:129-137 | the corrected start (one that re-checks `canceled` after the semaphore) keeps the invariant |
| Jobs.FinishPreserves | app/infra/jobs_queue.py:148-154 | finishing a job (counters floored at zero, registry entry dropped) keeps the invariant |
| Jobs.ClosePreserves | app/infra/jobs_queue.py:63-69 | closing and putting the pills keeps the invariant |
| Jobs.ClearPreserves | app/infra/jobs_queue.py:77-80 | clearing the tables after every worker has stopped leaves a state that satisfies the invariant with no reservations |
| Jobs.CanEnqueueMeaning | app/infra/jobs_queue.py:196-205 | for a real user and an active limit, can_enqueue is true exactly when their waiting jobs plus reserved slots are below the limit |
| Jobs.ReserveUserSlotMeaning | app/infra/jobs_queue.py:207-219 | the reservation succeeds exactly when the limit is on, the user is real and can_enqueue holds; it then raises that user's count by one, never above the limit, and otherwise changes nothing |
| Jobs.ReleaseUserSlotMeaning | app/infra/jobs_queue.py:221-229 | release lowers a positive count by one, ignores everything else, and leaves every count positive |
| Jobs.EnqueueReservedEffect | app/infra/jobs_queue.py:231-247 | accepted exactly when open with a processor; an accepted job is registered under its message id and is last in its own queue, other queues are unchanged, and the count moves only without a reservation |
| Jobs.EnqueueLimitedEffect | app/infra/jobs_queue.py:175-194 | rejected exactly when closed, without processor, or the user is at the limit; an accepted job is registered, queued last and counted; a rejection changes no job, counter or registry entry |
| Jobs.EnqueueEffect | app/infra/jobs_queue.py:158-173 | raises "closed" on a closed queue and "processor not set" without one; otherwise the job is registered and queued last |
| Jobs.CancelJobMeaning | app/infra/jobs_queue.py:276-293 | succeeds exactly on a registered job that is neither started nor canceled; sets both flags, lowers the owner's count by one, and a second cancel fails; a failed cancel changes nothing |
| Jobs.StartedNotCancelable | app/infra/jobs_queue.py:284-285 | a started job cannot be canceled, by anyone |
| Jobs.DequeueCanceledEffect | app/infra/jobs_queue.py:122-127 | a canceled job at the head is dropped from the queue and the registry, and no counter moves |
| Jobs.DequeueTakesHead | app/infra/jobs_queue.py:117-120 | a worker takes the head of its own topic's queue, first in first out, without touching counters |
| Jobs.ClosedDequeueStops | app/infra/jobs_queue.py:119-120 | after shutdown, a worker that receives anything stops |
| Jobs.StartCheckedLiveEffect | app/infra/jobs_queue.py:129-137 | starting a live job lowers its owner's count by one, raises both activity counters by one, and marks the job started |
| Jobs.FinishEffect | app/infra/jobs_queue.py:148-154 | finishing restores both activity counters and removes the job from the registry |
| Jobs.ActiveBounds | app/infra/jobs_queue.py:29-31 | no topic runs more than per_topic_limit jobs, and no more than max_workers run in all |
| Jobs.WillQueueMeaning | app/infra/jobs_queue.py:249-268 | true exactly when the topic queue is non-empty, the topic is at its limit, or no global slot is free |
| Jobs.NotQueuedStartsAtOnce | app/infra/jobs_queue.py:249-268 | when will_queue says no (and no worker sits between dequeue and semaphore), a job enqueued next is taken by an idle worker of its topic that can start it at once |
| Jobs.CloseEffect | app/infra/jobs_queue.py:63-69 | shutdown closes the queue, appends one pill per worker of each pool (one for an empty pool), and later enqueues fail |
| Jobs.StartAfterCancelBreaksPendingInv | app/infra/jobs_queue.py:129-132 | as written, starting a job canceled during the semaphore wait lowers its owner's count a second time, one below their real waiting jobs |
| Jobs.CancelDuringSemaphoreWait | app/infra/jobs_queue.py:123-137 | a concrete run with one global permit held by topic "a"'s running job, so that topic "t"'s worker waits for it holding job 10 of user u; job 10 is canceled during that wait, the permit is released, and the as-written start then leaves u's count at 0 with job 11 waiting, so a limit of one lets u in again; the corrected start keeps the count at 1 |
| Jobs.JobsQueue.constructor | app/infra/jobs_queue.py:23-50 | the new queue's state is the initial state, and it is valid |
| Jobs.JobsQueue.SetProcessor | app/infra/jobs_queue.py:52-57 | records the processor and keeps the queue valid |
| Jobs.JobsQueue.EnsureWorkers | app/infra/jobs_queue.py:82-92 | the new state is the pool-creation step |
| Jobs.JobsQueue.IncPending | app/infra/jobs_queue.py:94-97 | the counters become the incremented map |
| Jobs.JobsQueue.DecPending | app/infra/jobs_queue.py:99-106 | the counters become the decremented map |
| Jobs.JobsQueue.PendingCountByUser | app/infra/jobs_queue.py:108-112 | returns a user's waiting jobs plus reserved slots, and zero for a non-positive id |
| Jobs.JobsQueue.Enqueue | app/infra/jobs_queue.py:158-173 | result and new state are the enqueue step; the queue stays valid |
| Jobs.JobsQueue.EnqueueLimited | app/infra/jobs_queue.py:175-194 | result and new state are the enqueue_limited step; the queue stays valid |
| Jobs.JobsQueue.CanEnqueue | app/infra/jobs_queue.py:196-205 | answers whether waiting jobs plus reservations are below the limit, and changes nothing |
| Jobs.JobsQueue.ReserveUserSlot | app/infra/jobs_queue.py:207-219 | the reservation step; a success records one more reserved slot; the queue stays valid |
| Jobs.JobsQueue.ReleaseUserSlot | app/infra/jobs_queue.py:221-229 | the release step; the queue stays valid when a slot was actually reserved |
| Jobs.JobsQueue.EnqueueReserved | app/infra/jobs_queue.py:231-247 | the enqueue_reserved step, consuming the reservation; the queue stays valid |
| Jobs.JobsQueue.WillQueue | app/infra/jobs_queue.py:249-268 | the will_queue step; the queue stays valid |
| Jobs.JobsQueue.GetJob | app/infra/jobs_queue.py:270-274 | returns a job exactly when its message id is registered |
| Jobs.JobsQueue.CancelJob | app/infra/jobs_queue.py:276-293 | the cancel step; the queue stays valid |
| Jobs.JobsQueue.Dequeue | app/infra/jobs_queue.py:117-127 | the worker's take step; the queue stays valid |
| Jobs.JobsQueue.Start | app/infra/jobs_queue.py:129-137 | the corrected start step (a job canceled during the wait is dropped, not run); the queue stays valid |
| Jobs.JobsQueue.Finish | app/infra/jobs_queue.py:148-154 | the finish step; the queue stays valid |
| Jobs.JobsQueue.Close | app/infra/jobs_queue.py:63-69 | the close step; the queue stays valid |
| Jobs.JobsQueue.ClearAfterWorkersStopped | app/infra/jobs_queue.py:77-80 | the clearing step after all workers stopped; no reservations remain; the queue stays valid |
| Templating.EffectiveParams | app/comfy/client.py:89-91 | the effective params always hold a seed: the caller's when given and not None, otherwise the drawn one, which is below 2^48; every other key is kept as given |
| Templating.PutInput | app/comfy/client.py:125 | writing one input sets exactly that key of the node's `inputs` and keeps every other field of the node |
| Templating.SetInput | app/comfy/client.py:125 | the write succeeds exactly when the node exists and has an `inputs` object; a missing node is a NodeNotFound error (Python's KeyError) and one without inputs is InputsUnavailable |
| Templating.SetAllMeaning | app/comfy/client.py:124-125 | writing to a list of nodes succeeds exactly when every listed node has inputs; it then sets that key on each listed node and leaves every other node as it was |
| Templating.PutInputTwice | app/comfy/client.py:124-125 | writing the same input twice equals writing it once, so duplicate node ids are harmless |
| Templating.SetAllWrites | app/comfy/client.py:124-125 | after a successful write every listed node holds the value under the rule's key |
| Templating.SetAllMissingNode | app/comfy/client.py:124-125 | a listed node that is absent from the workflow makes the write fail |
| Templating.UnlinkMeaning | app/comfy/client.py:95-115 | `_unlink_and_remove_nodes` removes exactly the listed nodes, leaves no input that is an edge to one of them, and keeps every other input and every other field of the remaining nodes; an empty list changes nothing |
| Templating.AssignImagesKeys | app/comfy/client.py:170-177 | the sequential assignment of file names adds and removes no node, and a node has inputs after it exactly when it had them before |
| Templating.AssignImagesMeaning | app/comfy/client.py:170-177 | with distinct node ids, the i-th file name lands in the i-th node for every i below both lengths (when that node has inputs); other nodes are unchanged |
| Templating.AssignImagesUntouched | app/comfy/client.py:170-177 | nodes outside the rule's list are never written by the assignment |
| Templating.ImagesRulePrunes | app/comfy/client.py:162-186 | with m file names used, `node_ids[m..]` are removed, no remaining input is an edge to them, and nodes outside the rule keep every input that is not such an edge; without file names every declared node is removed |
| Templating.PromptRuleWrites | app/comfy/client.py:123-126 | a prompt rule writes the prompt into every listed node, and fails exactly when one of them has no inputs |
| Templating.RuleNeedsValue | app/comfy/client.py:128-159 | a negative_prompt, text-like, input_image or scalar rule changes the workflow only when the parameter it reads is present and not None; it then writes that value to every listed node |
| Templating.ScalarPassSkipsText | app/comfy/client.py:189-192 | the scalar pass skips every rule whose type begins with "text" or "string" |
| Templating.SeedRuleWrites | app/comfy/client.py:89-91 | a seed rule always writes: the caller's seed when given, otherwise the drawn one |
| Templating.ApplyPassKeys | app/comfy/client.py:117-198 | a pass never adds a node |
| Templating.ApplyRuleKeys | app/comfy/client.py:117-198 | a single rule never adds a node |
| Templating.SetAllKeys | app/comfy/client.py:124-125 | a successful write keeps the set of node ids |
| Templating.ScalarRuleFailsOnMissingNode | app/comfy/client.py:194-198 | a scalar rule with a value to write that names a missing node fails |
| Templating.ScalarPassFailsOnPrunedNode | app/comfy/client.py:180-198 | a pruned image node that a later scalar rule still names makes the scalar pass fail (the KeyError the source raises) |
| Templating.SetInputs | app/comfy/client.py:124-125 | the loop computes the list write |
| Templating.AssignImageList | app/comfy/client.py:170-177 | the loop computes the sequential assignment |
| Templating.StripInputs | app/comfy/client.py:104-109 | the loop drops exactly the edges to removed nodes from one inputs object |
| Templating.StripAllNodes | app/comfy/client.py:99-112 | the loop strips those edges from every node |
| Templating.PopAll | app/comfy/client.py:114-115 | the loop removes exactly the listed ids |
| Templating.UnlinkAndRemove | app/comfy/client.py:95-115 | the method computes the unlink-and-remove function |
| Templating.RunImagesRule | app/comfy/client.py:162-186 | the method computes one input_images rule |
| Templating.RunRule | app/comfy/client.py:117-198 | the method computes one rule of a pass |
| Templating.RunPass | app/comfy/client.py:117-198 | the loop computes a whole pass over the rules |
| Templating.PrepareWorkflow | app/comfy/client.py:76-207 | the four passes run in the source's order (text, input_image, input_images, scalars) on the effective params |
| Comfy.RStripSlash | app/comfy/client.py:36 | the base URL is the longest prefix of the given one that does not end in '/'; only slashes are removed |
| Comfy.WsUrlOfHttps | app/comfy/client.py:63-65 | an https base URL becomes the wss URL of the same host and path |
| Comfy.WsUrlOfHttp | app/comfy/client.py:63-66 | an http base URL becomes the ws URL of the same host and path |
| Comfy.ErrorMessage | app/comfy/client.py:284 | an execution error's message is a truthy value: the server's exception_message when truthy, otherwise "ComfyUI execution error" |
| Comfy.TimeoutFirst | app/comfy/client.py:246-247 | the clock is checked before every receive: past run_timeout the loop stops with a timeout, whatever arrives |
| Comfy.IgnorableKeepsState | app/comfy/client.py:249-264 | receive timeouts, binary preview frames, undecodable text, other event types and executing events of other prompts leave the wait state unchanged |
| Comfy.NodeEventSetsStartOnce | app/comfy/client.py:267-272 | the first executing event with a node stamps the execution start; later ones keep it |
| Comfy.FinishEventStops | app/comfy/client.py:274-280 | an executing event with node None stops the loop as done, with the done time stamped |
| Comfy.ExecutionErrorOfAnyPrompt | app/comfy/client.py:282-286 | an execution_error event ends the loop with its message whatever prompt it belongs to |
| Comfy.StepKeepsStart | app/comfy/client.py:245-286 | a step that goes on never changes a start time already taken, never stamps the done time and never sets done |
| Comfy.RunKeepsStart | app/comfy/client.py:245-286 | once taken, the start time is the one the loop ends with |
| Comfy.RunCompletedIsDone | app/comfy/client.py:276-289 | a completed loop has done set and the done time stamped; when the frames run out first (`StillOpen`, which the caller turns into EventsExhausted) neither is set; the "not completed" raise of lines 288-289 cannot be reached after a completed loop |
| Comfy.RunConcat | app/comfy/client.py:245-286 | receiving a then b is receiving a and, while the loop is still open, b after it |
| Comfy.ReceiveLoop | app/comfy/client.py:245-289 | the loop computes the fold of the step over the events |
| Comfy.LookupMeaning | app/comfy/client.py:315-355 | a MIME guess is the type of the first table suffix the name ends with, and the generic binary type exactly when none matches |
| Comfy.TablesHaveNoDefault | app/comfy/client.py:315-355 | none of the audio, video and image tables maps a suffix to the generic type, so the generic type means "no match" |
| Comfy.GuessMimeIgnoresCase | app/comfy/client.py:316 | guessing on the lower-cased name gives the same type |
| Comfy.GifIsImage | app/comfy/client.py:339-340 | the video guesser reports a .gif file as image/gif |
| Comfy.MediaListKinds | app/comfy/client.py:368-374 | a node's file list yields one media item per entry, all of the pass's kind, each typed by its kind's table |
| Comfy.MediaListDefined | app/comfy/client.py:368-374 | the list is defined exactly when every entry is an object holding `filename` (a str, for the MIME guess), `subfolder` and `type` of any value; otherwise the source raises |
| Comfy.PassMediaKinds | app/comfy/client.py:357-410 | the video, image and audio passes only produce items of their own kind |
| Comfy.GroupedConcat | app/comfy/client.py:357-410 | videos, then images, then audio are in rank order |
| Comfy.ExtractOrder | app/comfy/client.py:357-436 | unless the fallback ran, every video precedes every image and every image precedes every audio item; the fallback runs exactly when the three passes found nothing |
| Comfy.VideoPrefersVideos | app/comfy/client.py:361-367 | a video node (SaveVideo or animated) takes its files from "videos" when present, else from "images" |
| Comfy.ImagesOnlyFromSaveImage | app/comfy/client.py:382-383 | when the workflow has SaveImage nodes, other nodes give no images |
| Comfy.AudioPrefersAudio | app/comfy/client.py:394-410 | a node with "audio" (else "audios") gives its audio from there, whatever its class |
| Comfy.AppendFiles | app/comfy/client.py:368-374 | the loop appends one node's files in order |
| Comfy.AppendNode | app/comfy/client.py:358-374 | the loop appends every file list a node contributes to a pass |
| Comfy.AppendPass | app/comfy/client.py:358-410 | the loop appends a whole pass over the outputs in order |
| Comfy.CollectMedia | app/comfy/client.py:357-436 | the method computes the media extraction, fallback included |
| Comfy.Timings | app/comfy/client.py:438-446 | both durations are non-negative; without an execution start all time is queue time |
| Comfy.TimingsAddUp | app/comfy/client.py:438-446 | with the clock readings in order, queue time plus execution time is the time from queueing to done |
| Comfy.SubmitTimingsNonNegative | app/comfy/client.py:209-455 | a successful run completed its loop and reports the extracted media and non-negative timings; without a node event the execution time is zero |
| Comfy.SubmitAndWait | app/comfy/client.py:209-455 | the method computes the submission result: a timeout, an execution error, a malformed answer, or the media with their timings |
| Helpers.ParseIntTokenNone | app/tg/helpers.py:14-30 | `_parse_int_token` finds nothing exactly when the string has no digit |
| Helpers.ParseIntTokenOf | app/tg/helpers.py:14-30 | the first integer written in a string (after text without digits, before a non-digit) is read back exactly, sign included |
| Helpers.ParseIntTokenTrailingComma | app/tg/helpers.py:18 | "1080," reads as 1080, the docstring's example |
| Helpers.RemovePairsLength | app/tg/helpers.py:88-110 | the substitution removes exactly the characters of the matches the scan finds |
| Helpers.RemovePairsNone | app/tg/helpers.py:110 | without a match the substitution leaves the text unchanged |
| Helpers.Collapse | app/tg/helpers.py:114 | collapsing whitespace runs never lengthens the text, keeps whether it starts and ends with whitespace, and leaves no two adjacent whitespace characters |
| Helpers.ApplyPairsKeys | app/tg/helpers.py:89-107 | the key=value loop only adds recognised keys |
| Helpers.IntKeyNeedsToken | app/tg/helpers.py:98-101 | an integer key is set to the parsed token, and skipped when the value holds no integer |
| Helpers.CleanedIsTidy | app/tg/helpers.py:112-114 | the cleaned prompt has no leading or trailing whitespace and no run of two whitespace characters |
| Helpers.InlineKeys | app/tg/helpers.py:52-119 | only the recognised keys appear among the parsed parameters |
| Helpers.FenceFirst | app/tg/helpers.py:66-72 | a fenced text block wins; it is cut out of the text before the prompt is cleaned, and its stripped content, when non-empty, is the text parameter |
| Helpers.TailSecond | app/tg/helpers.py:74-80 | without a fence, a "text:" tail is cut off, and its non-empty stripped content is the text parameter |
| Helpers.FillParams | app/tg/helpers.py:89-107 | the loop computes the key=value assignment in match order, later matches winning |
| Helpers.ParseInlineParams | app/tg/helpers.py:52-119 | the method computes the cleaned prompt and the parameters of the text |
| Helpers.ClampMeaning | app/tg/helpers.py:159-175 | the clamp is the identity without a limits object or for a non-number; otherwise it is at most max, at least min (when min is not above max), and the value itself when already within both |
| Helpers.Inherit | app/tg/helpers.py:140-146 | inheriting input dimensions changes no key set (only a zero default width or height takes the input's) |
| Helpers.FilterInlineMeaning | app/tg/helpers.py:148-154 | every filtered key is an allowed lower-cased inline key, and every allowed inline key is kept |
| Helpers.ApplyInline | app/tg/helpers.py:177-182 | the inline overrides add exactly the filtered keys other than width and height |
| Helpers.MergePrecedence | app/tg/helpers.py:122-182 | for every key other than width and height: an allowed inline value (clamped) wins, then the meta default, then the nodes default; the key is present exactly when one of them has it |
| Helpers.MergedOthers | app/tg/helpers.py:184-240 | the width and height step changes no other key |
| Helpers.MergeFilters | app/tg/helpers.py:148-154 | a filtered key is allowed and comes from some inline key, lower-cased |
| Helpers.MergeWidthWithoutLimits | app/tg/helpers.py:184-240 | without limits on width and height the merge never scales: an inline width wins, and otherwise a zero default takes the input's width |
| Helpers.RegenRoundTrip | app/tg/helpers.py:285-288 | decoding the regen callback data gives back the start and count when both are positive, and nothing otherwise (decoding is the parse at app/tg/bot.py:537-548) |
| Helpers.RegenPairRoundTrip | app/tg/helpers.py:285-286 | "regen:<start>:<count>" decodes to the pair it encodes |
| Helpers.NoColonInInt | app/tg/helpers.py:286 | a written integer holds no ':', so the three-part split is unambiguous |
| Helpers.KeyboardsRouted | app/tg/helpers.py:280-300 | the cancel button's data routes to the cancel handler (app/tg/bot.py:677) and the regen button's to the regen handler (app/tg/bot.py:485), and the cancel data carries no album range |
| TopicsRepo.ParseParamMeaning | app/infra/topics_repo.py:87-93 | a rule's param is kept exactly when it is a scalar whose text, stripped, is non-empty; it is then that stripped text |
| TopicsRepo.ParseRule | app/infra/topics_repo.py:84-94 | a rule entry raises exactly when it is not an object, lacks "type", "node_ids" or "key", or its node_ids is not iterable; a parsed rule carries the entry's type, key, node ids and normalised param |
| TopicsRepo.ParseRulesRaises | app/infra/topics_repo.py:83-94 | the rule loop raises exactly when some entry raises |
| TopicsRepo.ParseRulesIsFold | app/infra/topics_repo.py:83-94 | the rule loop is the left fold of the per-entry outcomes |
| TopicsRepo.FoldParsed | app/infra/topics_repo.py:83-94 | the fold yields rules exactly when every entry parsed |
| TopicsRepo.ParseRulesDefined | app/infra/topics_repo.py:83-94 | the rule list exists exactly when every entry parses |
| TopicsRepo.ParseRulesParsed | app/infra/topics_repo.py:83-94 | a parsed list has one rule per entry, in order |
| TopicsRepo.ParseNodesMapLoop | app/infra/topics_repo.py:81-96 | the loop computes `_parse_nodes_map` (rules in order, defaults, or the exception) |
| TopicsRepo.RaisesSticks | app/infra/topics_repo.py:83-94 | once a prefix of the entries raises, the whole loop raises |
| TopicsRepo.FirstBadRefIn | app/infra/topics_repo.py:101-105 | no bad id is reported exactly when every id of the rule names a workflow node that has "inputs"; a reported id is a bad one of the rule |
| TopicsRepo.FirstBadRef | app/infra/topics_repo.py:98-105 | validation passes exactly when every node id of every rule names a workflow node with "inputs"; a reported id is such a failure |
| TopicsRepo.ValidatedRulesApply | app/infra/topics_repo.py:98-105 | after validation, writing a value through a rule (app/comfy/client.py:124-125) succeeds exactly when each of its nodes is an object, given that node inputs are objects |
| TopicsRepo.TitleOf | app/infra/topics_repo.py:127 | the title is the meta title when it is a non-empty string, and the alias when the title is falsy (a truthy non-string title: see Left out) |
| TopicsRepo.NonEmptyStr | app/infra/topics_repo.py:132-133 | the emoji and icon id are kept exactly when they are non-empty strings (a truthy non-string value: see Left out) |
| TopicsRepo.LowerScalars | app/infra/topics_repo.py:139-140 | the allowed list has at most one entry per meta entry, and every entry is lower-case |
| TopicsRepo.AllowedOf | app/infra/topics_repo.py:136-142 | inline_allowed is a list (of lower-case keys) exactly when the meta value is a list; otherwise None, meaning all allowed |
| TopicsRepo.TopicIdOf | app/infra/topics_repo.py:147-153 | a topic id is read from the index exactly when the record's topic_id is an int |
| TopicsRepo.TopicOf | app/infra/topics_repo.py:127-166 | for an object meta.json, the built configuration carries the alias, rules, workflow, title, inline policy, emoji fields and index topic id as scan derives them |
| TopicsRepo.LoadTopic | app/infra/topics_repo.py:110-166 | a loaded topic has its directory's alias |
| TopicsRepo.LoadTopicMeaning | app/infra/topics_repo.py:110-166 | a directory yields a topic exactly when its files were read, its rules parsed, validation passed and meta.json is an object; where the scan as written does not abort, the two agree; it aborts exactly when `_parse_nodes_map` raises (line 121; always so for a nodes.json that is not an object, which has no `.get`) or a validated topic's meta.json is not an object (line 127) |
| TopicsRepo.LoadedTopicIsValid | app/infra/topics_repo.py:122-126 | every node id of a loaded topic names a workflow node with "inputs" |
| TopicsRepo.Scan | app/infra/topics_repo.py:107-167 | the scan yields at most one topic per directory |
| TopicsRepo.ScanMembers | app/infra/topics_repo.py:107-167 | the corrected scan keeps exactly the topics that load: a bad directory loses only its own topic |
| TopicsRepo.ScanAsWrittenMeaning | app/infra/topics_repo.py:110-127 | as written, the scan fails exactly when some directory aborts: its nodes.json raises in `_parse_nodes_map` (a bad rule, a non-iterable "nodes", or a document that is not an object), or it passed validation with a meta.json that is not an object; otherwise it equals the corrected scan |
| TopicsRepo.OneBadRuleLosesAllTopics | app/infra/topics_repo.py:84-121 | a rule without "type" in one topic makes the scan as written lose the other, good topic too; the corrected scan keeps it |
| TopicsRepo.NonObjectMetaLosesAllTopics | app/infra/topics_repo.py:127 | a meta.json holding a list in one topic makes the scan as written lose the other, good topic too; the corrected scan keeps it |
| TopicsRepo.ScanDistinct | app/infra/topics_repo.py:107-167 | the scanned aliases are distinct directory names |
| TopicsRepo.EmojiMapKeys | app/infra/topics_repo.py:175-180 | an emoji is mapped exactly when some sticker has both an emoji and a custom id |
| TopicsRepo.EmojiMapKeeps | app/infra/topics_repo.py:179 | an emoji already mapped keeps its first id |
| TopicsRepo.EmojiMapFirst | app/infra/topics_repo.py:176-180 | an emoji maps to the id of the first usable sticker that has it |
| TopicsRepo.ResolveIconMeaning | app/infra/topics_repo.py:187-198 | an explicit icon id wins; otherwise an emoji maps through the sticker map (None when unmapped); with neither there is no icon |
| TopicsRepo.CreatedMember | app/infra/topics_repo.py:220-237 | a topic counts as created exactly when it had no topic id in the index and its creation succeeded |
| TopicsRepo.CountedWithin | app/infra/topics_repo.py:211-257 | only discovered topics are counted as created or updated |
| TopicsRepo.SyncAllOther | app/infra/topics_repo.py:211-257 | the sync loop leaves the record of every undiscovered alias alone |
| TopicsRepo.SyncAllOwn | app/infra/topics_repo.py:211-257 | each discovered topic's record becomes what its own step decides from the index the sync started from |
| TopicsRepo.SyncAllCounts | app/infra/topics_repo.py:229-251 | the created and updated counts are the numbers of distinct created and edited aliases |
| TopicsRepo.RecordAfterMeaning | app/infra/topics_repo.py:220-257 | a new topic's record holds the new thread id, title and icon; an existing one is edited exactly when its title or icon differs (an empty icon equals none), and its record changes only when the edit succeeds |
| TopicsRepo.KeepDiscovered | app/infra/topics_repo.py:259-265 | the removal step keeps exactly the discovered aliases, with their records |
| TopicsRepo.SyncIndexKeys | app/infra/topics_repo.py:211-265 | after sync and removal, the index holds the discovered aliases it already had plus the created ones, and loses exactly the undiscovered ones |
| TopicsRepo.SyncKeptAlias | app/infra/topics_repo.py:211-257 | a discovered alias is in the index after the loop exactly when it was before or its topic was created |
| TopicsRepo.SyncRemoved | app/infra/topics_repo.py:259-265 | the create/update loop neither adds nor drops an undiscovered alias, so removal deletes exactly the indexed undiscovered aliases |
| TopicsRepo.CacheStepConsistent | app/infra/topics_repo.py:276-283 | caching one more topic keeps the thread cache consistent with the alias cache |
| TopicsRepo.CacheAllConsistent | app/infra/topics_repo.py:272-283 | reloading keeps every cached thread id non-zero and pointing at the alias cache's entry |
| TopicsRepo.CacheAllAliases | app/infra/topics_repo.py:276-281 | every scanned alias is cached with the index's topic id |
| TopicsRepo.CacheAllKeeps | app/infra/topics_repo.py:276-281 | an alias not rescanned keeps its cached entry within one pass |
| TopicsRepo.CacheAllThreads | app/infra/topics_repo.py:282-283 | a thread id is cached exactly when some scanned topic has it in the index and it is not zero |
| TopicsRepo.IconStateStep | app/infra/topics_repo.py:169-198 | the sticker map is built the first time a topic needs it and is the same map afterwards |
| TopicsRepo.TopicsRepository.constructor | app/infra/topics_repo.py:21-46 | the index is loaded from the file (empty when missing, unreadable or not an object); the caches and the icon map start empty |
| TopicsRepo.TopicsRepository.EnsureIconEmojiMap | app/infra/topics_repo.py:169-185 | the icon map becomes the map already held or the one built from the stickers (empty when fetching failed); nothing else changes |
| TopicsRepo.TopicsRepository.ResolveIconId | app/infra/topics_repo.py:187-198 | returns the icon resolved against the held or newly built map; the map is stored only when the topic needs it (no explicit icon id, an emoji); nothing else changes |
| TopicsRepo.TopicsRepository.ScanTopics | app/infra/topics_repo.py:107-167 | the loop computes the corrected scan |
| TopicsRepo.TopicsRepository.ReloadCache | app/infra/topics_repo.py:272-283 | the caches become those built from a rescan with the index's topic ids; the index and icon map are unchanged and the repository stays valid |
| TopicsRepo.TopicsRepository.SyncTopic | app/infra/topics_repo.py:211-257 | one iteration of the sync loop: the index, counts and forum calls advance by the sync step |
| TopicsRepo.TopicsRepository.DetachRemoved | app/infra/topics_repo.py:259-265 | the index keeps exactly the discovered aliases, and the deleted count is the number removed |
| TopicsRepo.TopicsRepository.ScanAndSync | app/infra/topics_repo.py:200-270 | the counts, forum calls, new index and icon map are those of the sync fold over the scanned topics; the caches are then reloaded and the repository is valid |
| TopicsRepo.TopicsRepository.ResolveByThreadId | app/infra/topics_repo.py:285-286 | a thread resolves exactly when cached, to a topic with that non-zero thread id that is also the alias cache's entry |
| TopicsRepo.TopicsRepository.AllTopics | app/infra/topics_repo.py:288-289 | returns the alias cache, each entry under its own alias |
| Config.GetIntDefault | app/core/config.py:32-42 | an unset or empty variable, or one int() rejects, gives the default; otherwise the parsed integer |
| Config.GetIntRoundTrip | app/core/config.py:32-42 | a variable holding the decimal text of n reads back as n |
| Config.GetIntOverrides | app/core/config.py:135-141 | a variable that parses makes the YAML default irrelevant |
| Config.DotGet | app/core/config.py:56-66 | the loop walks the dot-separated keys through nested mappings, giving None (a JSON null) when a key is missing or a value on the way is not a mapping |
| Config.WalkConcat | app/core/config.py:61-66 | walking a + b is walking a and then b from where a ended |
| Config.WalkNest | app/core/config.py:61-66 | walking a path through the mappings nested along it finds the value placed there |
| Config.DotGetDocument | app/core/config.py:56-66 | a value placed under a dotted path in a YAML document is what that path reads |
| Config.WalkMissingPrefix | app/core/config.py:63-64 | once a prefix of the path is missing, the whole path is |
| Config.YGetStrMeaning | app/core/config.py:69-81 | a string is returned as is; an int or bool as its Python text (an int's text reads back as the int; True/False); a missing value or a non-scalar gives the default |
| Config.YGetIntTextOrNumber | app/core/config.py:84-97 | a YAML value written as an int or as its decimal text reads as that int |
| Config.YGetMissing | app/core/config.py:74-97 | a missing path gives the defaults of both getters |
| Config.NormalizeLocaleMeaning | app/core/config.py:144-147 | the locale is always ru, en or zh: the stripped, lower-cased setting when it is one of them, else en; normalising twice changes nothing |
| Config.LocaleFixed | app/core/config.py:145-146 | each supported locale is left alone by stripping and lower-casing |
| Config.LoadConfigMeaning | app/core/config.py:100-175 | load_config fails with the token, chat id or base URL error exactly when that setting (in this order) is empty or zero; otherwise the configuration is the merged one, with a supported locale and an API key that is None rather than empty |
| Config.RequiredSources | app/core/config.py:109-123 | token, chat id and base URL come from the environment when set there (a chat id int() rejects becomes 0), else from the YAML file |
| Config.BadChatIdInEnvRejected | app/core/config.py:112-154 | a set chat id that is not an integer fails with "ALLOWED_CHAT_ID is required" even when the YAML file has a valid one |
| Config.EnvOverridesYaml | app/core/config.py:100-175 | once the environment sets every variable (the integer ones parseable), the YAML file does not affect the result |
| Config.CombineOverrides | app/core/config.py:109-148 | the same precedence for the merged settings before validation |
| Config.EnvOrRespects | app/core/config.py:130-148 | a variable that is unset and one set to "" are the same to `getenv(...) or fallback` |
| Config.GetIntRespects | app/core/config.py:36-38 | the same for `_get_int` |
| Config.CombineRespects | app/core/config.py:104-148 | the merged settings depend only on the non-empty variables |
| Config.LoadConfigRespects | app/core/config.py:100-175 | load_config treats an empty variable exactly like an unset one |
| I18n.NewTranslatorMeaning | app/core/i18n.py:12-32 | the locale is the given one (en when None or empty), lower-cased and never empty; the primary table is that locale's file (empty when missing) and the fallback is en's |
| I18n.LookupMeaning | app/core/i18n.py:39 | the primary locale's non-empty text wins, then English's, then the key itself; a non-empty key never gives empty text |
| I18n.CloseBrace | app/core/i18n.py:42 | the closing brace found for a field is the first `}` after it, with no brace in between |
| I18n.FormatPlain | app/core/i18n.py:42 | text without braces formats to itself whatever the arguments |
| I18n.FormatEscape | app/core/i18n.py:42 | text whose braces are doubled formats back to the original |
| I18n.CloseBraceAfterName | app/core/i18n.py:42 | the field `{name}` closes right after the name |
| I18n.CloseBraceScan | app/core/i18n.py:42 | the scan for that brace from inside the name finds the same position |
| I18n.FormatField | app/core/i18n.py:42-45 | a `{name}` field is replaced by the argument of that name; a missing argument makes formatting fail |
| I18n.TMeaning | app/core/i18n.py:34-46 | without arguments, on a formatting failure, or for text without braces the text is returned unformatted; otherwise it is the formatted text |
| I18n.UntranslatedKey | app/core/i18n.py:39-46 | a key in neither table, without braces, is its own translation |
| TelegramSend.PlaceholderPrecedence | app/utils/telegram.py:32-52 | bytes passed in are used as they are; otherwise the file's bytes, or the built-in 1x1 PNG when the file is missing, unreadable or empty; the data is then never empty and the filename is kept |
| TelegramSend.ChunksMeaning | app/utils/telegram.py:161-163 | the chunks give back the items in order; there are ceil(n/10) of them, each with one to ten items, all but the last with exactly ten |
| TelegramSend.MediaOf | app/utils/telegram.py:164-167 | one media entry per file of the chunk |
| TelegramSend.GroupCalls | app/utils/telegram.py:162-173 | one send_media_group call per chunk |
| TelegramSend.GroupCallsCarry | app/utils/telegram.py:162-173 | the group calls send exactly the chunks' files, in order (the reference `Files`: each (bytes, filename) pair as one file), with the caption on the very first file only (the reference `FirstOnly`) |
| TelegramSend.NoneCaptions | app/utils/telegram.py:166 | without a caption no item carries one |
| TelegramSend.GroupCallsShape | app/utils/telegram.py:162-173 | each call is a media group holding exactly its chunk |
| TelegramSend.AlbumCarries | app/utils/telegram.py:153-173 | send_album makes no call for no images; otherwise ceil(n/10) media groups of one to ten photos that together send every image once, in order, with the caption on the first only (against the references `Files` and `FirstOnly`) |
| TelegramSend.SingleOrGroupsCarries | app/utils/telegram.py:176-245 | videos and audios: none makes no call, one is sent alone (send_video/send_audio) with the caption, more go as media groups of at most ten; every file is sent once, in order, captioned first only (against the references `Files` and `FirstOnly`) |
| TelegramSend.BuildMedia | app/utils/telegram.py:164-167 | the inner loop builds the chunk's media, captioned only in the first chunk |
| TelegramSend.ChunksStep | app/utils/telegram.py:162-163 | one step of range(0, n, 10) takes items[start:start+10] and leaves the chunks of the rest |
| TelegramSend.GroupCallsStep | app/utils/telegram.py:162-173 | one iteration of the outer loop sends that chunk; later chunks carry no caption |
| TelegramSend.SendGroups | app/utils/telegram.py:162-173 | the outer loop issues exactly the group calls of the chunked items |
| TelegramSend.SendAlbum | app/utils/telegram.py:153-173 | the calls are those of send_album's specification |
| TelegramSend.SendVideos | app/utils/telegram.py:176-210 | the calls are those of send_videos' specification |
| TelegramSend.SendAudios | app/utils/telegram.py:213-245 | the calls are those of send_audios' specification |
| Images.BERoundTrip | app/utils/images.py:18-19 | the big-endian reading of `struct.unpack(">I"/">H")` inverts big-endian encoding |
| Images.LERoundTrip | app/utils/images.py:78-79 | the little-endian reading of `struct.unpack("<I"/"<H")` inverts little-endian encoding |
| Images.SizeFromPng | app/utils/images.py:6-24 | a PNG size is found only in data of at least 24 bytes that starts with the PNG signature and has IHDR at bytes 12-16; both sides are positive |
| Images.PngRoundTrip | app/utils/images.py:6-24 | the size written into a PNG header (any positive 32-bit width and height) is the size read back, whatever follows |
| Images.PngZeroWidth | app/utils/images.py:20-24 | a zero width gives no size |
| Images.SkipFill | app/utils/images.py:40-41 | the fill-byte skip stops at the first byte that is not 0xFF, or at the end |
| Images.JpegFrom | app/utils/images.py:35-67 | the marker walk reports only positive sizes |
| Images.JpegSize | app/utils/images.py:27-67 | a JPEG size needs at least 4 bytes starting with SOI (FF D8); both sides are positive |
| Images.SizeFromJpeg | app/utils/images.py:27-67 | the loop computes the marker walk's answer |
| Images.JpegFindsSof | app/utils/images.py:44-63 | a start-of-frame segment (markers C0-CF except C4, C8, CC) where the walk stands gives the width and height stored in it |
| Images.JpegSkipsSegment | app/utils/images.py:49-66 | any other marker with a length field skips exactly that many bytes |
| Images.JpegBadLength | app/utils/images.py:52-53 | a segment length below 2 ends the walk with no size |
| Images.JpegRoundTrip | app/utils/images.py:27-67 | SOI followed by a frame header reads back the header's positive 16-bit width and height |
| Images.FindStartCode | app/utils/images.py:108-116 | the VP8 scan finds the first 9D 01 2A start code that fits before the search end, or reports that none does |
| Images.ScanStartCode | app/utils/images.py:108-116 | the scanning loop returns that position, or -1 |
| Images.Vp8xSize | app/utils/images.py:91-102 | the VP8X canvas size is the stored 24-bit values plus one, so always positive |
| Images.Vp8lSize | app/utils/images.py:125-141 | the VP8L size from the 14-bit fields plus one, so always positive |
| Images.Vp8Size | app/utils/images.py:104-123 | a VP8 size is given only when both 14-bit fields after the start code are positive |
| Images.ChunkSize | app/utils/images.py:91-141 | a chunk's answer is a positive size or none |
| Images.WebpFrom | app/utils/images.py:81-145 | the chunk walk reports only positive sizes |
| Images.WebpSize | app/utils/images.py:70-145 | a WebP size needs at least 16 bytes with RIFF at 0 and WEBP at 8; both sides are positive |
| Images.DecodeChunk | app/utils/images.py:91-141 | the per-chunk code computes the chunk's answer |
| Images.SizeFromWebp | app/utils/images.py:70-145 | the loop computes the chunk walk's answer |
| Images.ChunkFields | app/utils/images.py:84-87 | an encoded chunk is read back as its tag, length and payload |
| Images.WebpSkipsChunk | app/utils/images.py:143-144 | a chunk that is not VP8X, VP8 or VP8L is skipped by its length, padded to even |
| Images.WebpFileStart | app/utils/images.py:73-81 | a RIFF/WEBP file built from chunks passes the header check and starts its walk at byte 12 |
| Images.Vp8xRoundTrip | app/utils/images.py:91-102 | a VP8X chunk reads back the canvas size written into it (1 to 2^24 on each side) |
| Images.Vp8lRoundTrip | app/utils/images.py:125-141 | a VP8L chunk reads back the size written into it (1 to 16384 on each side) |
| Images.Vp8lDecodes | app/utils/images.py:132-139 | the VP8L bit unpacking inverts the bit packing |
| Images.Vp8FindsStartCode | app/utils/images.py:108-116 | the scan finds a start code placed three bytes into the payload |
| Images.Vp8RoundTrip | app/utils/images.py:104-123 | a VP8 chunk reads back the positive 14-bit size written after its start code |
| Images.Vp8Decodes | app/utils/images.py:117-121 | the same for the payload alone |
| Images.WebpVp8xFile | app/utils/images.py:70-102 | a whole WebP file whose first chunk is VP8X reads back its canvas size |
| Images.LastIndex | app/utils/images.py:161 | the last occurrence of a character, or none when it does not occur |
| Images.Extension | app/utils/images.py:157-161 | the extension is the lower-cased name after its last dot, and is empty without a name or a dot |
| Images.TryOrder | app/utils/images.py:165-173 | every order tries each of PNG, JPEG and WebP once |
| Images.TryOrderFirst | app/utils/images.py:166-173 | a type naming png puts PNG first; a type naming no format leaves the choice to the extension, PNG by default |
| Images.FirstSize | app/utils/images.py:175-183 | the answer is that of the first parser in the order that recognises the data; none when none does |
| Images.ImageSize | app/utils/images.py:148-185 | empty data has no size; any size is positive |
| Images.ImageSizeMeaning | app/utils/images.py:148-185 | the name and type only reorder the parsers: data that any parser recognises gets a size, and the hinted parser's answer wins when it has one |
| Images.SizeFromFormat | app/utils/images.py:175-181 | one parser of the order, as a method |
| Images.GetImageSizeFromBytes | app/utils/images.py:148-185 | the loop computes the guided answer |
| Bot.RouteFilter | app/tg/bot.py:445-483 | a message reaches a topic exactly when it is in the allowed chat and a topic and is not authored as another chat or by a bot, unless it is an anonymous admin (sender chat = the chat); it is handled or buffered only for a configured thread, and buffered only in a multi-image topic when it carries its media group id |
| Bot.InsertById | app/tg/bot.py:140-141 | inserting into a list sorted by message id keeps it sorted and adds exactly that message |
| Bot.SortById | app/tg/bot.py:140-141 | the sort yields a permutation of the messages in ascending message id order |
| Bot.SortDeterministic | app/tg/bot.py:140-141 | for messages with distinct ids, the order they arrived in does not affect the sorted list |
| Bot.FirstNonEmptyMeaning | app/tg/bot.py:152-157 | the chosen text is empty exactly when all are, and otherwise the first non-empty one |
| Bot.FirstTextMeaning | app/tg/bot.py:151-157 | the prompt text is the first message's stripped caption-or-text that is non-empty, or empty when none is |
| Bot.ComposeText | app/tg/bot.py:151-157 | the loop with its early break picks that text |
| Bot.FirstDimsMeaning | app/tg/bot.py:171-176 | the input size is that of the first message whose probe succeeds, None when none does |
| Bot.ProbeDims | app/tg/bot.py:171-176 | the probing loop computes that size |
| Bot.Downloads | app/tg/bot.py:182-186 | at most one image per message |
| Bot.DownloadsConcat | app/tg/bot.py:182-186 | the images of two runs of messages are those of each, concatenated |
| Bot.Gathered | app/tg/bot.py:181-188 | at most ten images are kept: a prefix of all the downloads, and all of them when there are no more than ten |
| Bot.GatherImages | app/tg/bot.py:181-188 | the loop with its stop at ten gathers exactly those images |
| Bot.Ids | app/tg/bot.py:197 | the source ids are the messages' ids, in order |
| Bot.Arranged | app/tg/bot.py:139-141 | the group is processed as a permutation of its messages in ascending id order |
| Bot.ArrangedFirstIsMin | app/tg/bot.py:143-194 | the reference message, and the default reply target, has the smallest id |
| Bot.WithImagesMeaning | app/tg/bot.py:213-263 | a multi-image topic attaches all gathered images, a single-image topic the first; either rejects with "requires_input_image" when there is none; a topic needing no image submits without one; nothing else of the request changes |
| Bot.GroupSubmitMeaning | app/tg/bot.py:119-263 | a submitted group had some text or image; its images follow the topic's needs (one to ten for multi-image); the user is the acting user, else 0 for an anonymous admin, else the author; the reply target and source ids are the overrides or the first message and all ids in order |
| Bot.GroupPrompt | app/tg/bot.py:178 | the submitted prompt and inline parameters are parse_inline_params of the chosen text |
| Bot.GroupNeedsImage | app/tg/bot.py:213-247 | a topic that needs an image never submits a group without one |
| Bot.ComposeNeedsImage | app/tg/bot.py:213-247 | the same for the group after sorting |
| Bot.GroupOrderIrrelevant | app/tg/bot.py:139-263 | a media group gives the same outcome whatever order its messages arrived in |
| Bot.ReserveAfterCanEnqueue | app/tg/bot.py:293-315 | without interleaving, a reservation right after a successful can_enqueue always succeeds |
| Bot.IncDecRestores | app/tg/bot.py:382-385 | releasing a reserved slot restores the pending counts exactly |
| Bot.SendNetPending | app/tg/bot.py:290-401 | the user's pending count rises by one when the job is enqueued and is unchanged otherwise; every failure after a reservation releases it |
| Bot.AfterGatePending | app/tg/bot.py:337-401 | after the limit gate: a reserved slot is kept when the job is enqueued and released otherwise; without a reservation enqueueing adds one |
| Bot.EnqueuePending | app/tg/bot.py:382-401 | the same once the placeholder was sent |
| Bot.SendOutcomeMeaning | app/tg/bot.py:290-401 | the limit answer comes exactly when the limit is active (a positive limit, a positive user) and reached; the job is enqueued exactly when the limit allows, the placeholder was sent and the queue is open with a processor; the enqueued job is registered under its placeholder id with the request's fields |
| Bot.AfterGateOutcome | app/tg/bot.py:337-401 | after the gate there is no limit answer, and the job is enqueued exactly when the placeholder was sent and the queue accepts it |
| Bot.AnonymousAdminUnlimited | app/tg/bot.py:204-293 | an anonymous admin's request is attributed to user 0, is never limited and leaves the pending counts alone |
| Bot.SendAndEnqueue | app/tg/bot.py:265-401 | the queue and the outcome are those of the specification above, and the queue stays valid |
| Bot.PlaceAndEnqueue | app/tg/bot.py:337-401 | the placeholder and enqueue steps, with rollback, as specified; the queue stays valid |
| Bot.ComposeGroup | app/tg/bot.py:143-263 | the outcome of composing the sorted group |
| Bot.CollectAndSubmit | app/tg/bot.py:181-263 | gathering the images and applying the topic's image needs |
| Bot.HandleMessagesGroup | app/tg/bot.py:119-263 | the outcome of handling the group; a submitted request goes through send-and-enqueue, any other outcome leaves the queue alone and reports False |
| Bot.PlanRegenMeaning | app/tg/bot.py:486-551 | the button starts a flow exactly when the message exists, is in the allowed chat and a topic, is at least five seconds old, the topic is configured and the presser is under the limit; the album flow is taken exactly when the data decodes to a positive start and a count above one |
| Bot.AlbumButtonReplays | app/tg/bot.py:537-551 | the button a finished album job gets, pressed when the gates pass, replays the album from the same start with the same count |
| Bot.SingleRegenMeaning | app/tg/bot.py:607-664 | the fallback flow submits exactly when the topic needs no image or the replied-to message has one; the prompt comes from that message (else the result message); the job replies to it, records it as the only source and belongs to the presser |
| Bot.Range | app/tg/bot.py:554-576 | range(start, start + count) |
| Bot.AlbumRegenAttribution | app/tg/bot.py:550-584 | an album regeneration is attributed to the presser, replies to the first original and records the original ids, not the forwarded copies' |
| Bot.Min | app/tg/bot.py:878-880 | the first of the sorted ids is the smallest one and is among them |
| Bot.RegenKeyboardDecodes | app/tg/bot.py:874-885 | a job with several source ids starting at a positive id gets a button that decodes to that start and count and takes the album flow; any other job's button takes the fallback flow |
| Bot.AlbumRegenRepeats | app/tg/bot.py:874-885 | the ids of a replayed album produce a button with the same start and count again |
| Bot.CancelMeaning | app/tg/bot.py:678-713 | cancel succeeds exactly when the message is in the allowed chat, is registered, the presser is its author (a non-zero equal id) or an admin, and the job has not started or been canceled; the job is then marked canceled, by admin exactly when the presser is an admin and not the author; on every other answer nothing changes |
| Bot.NoIdNoAuthor | app/tg/bot.py:694-695 | a presser without an id is never the author |
| Bot.OnCancel | app/tg/bot.py:678-728 | the queue and the answer follow the cancel specification; the queue stays valid |
| Bot.PrepareMeaning | app/tg/bot.py:744-809 | a job proceeds only when not canceled and its topic exists; a multi-image topic uploads one to ten of the job's images, a single-image topic uploads its image under its name or "tg_<correlation id>.png"; the job stops with "requires_input_image" exactly when the topic needs images the job lacks |
| Bot.OfKind | app/tg/bot.py:900-907 | the selection is no longer than the media list |
| Bot.OfKindConcat | app/tg/bot.py:900-907 | selecting by kind distributes over concatenation |
| Bot.SplitPartition | app/tg/bot.py:895-907 | the image, video and audio lists together are exactly the remaining media |
| Bot.DeliveryMeaning | app/tg/bot.py:861-913 | no media gives "no_media"; otherwise the first item replaces the placeholder and the rest are split by kind, every item once |
| Bot.SplitRest | app/tg/bot.py:895-907 | the loop builds the three lists by kind, in order |
| Bot.Dispatch | app/tg/bot.py:861-913 | the delivery follows its specification |
| Text.ParsePyIntOfIntToString | app/core/config.py:40 | the int() the code relies on reads back every integer's decimal text |
| Text.ParsePyIntSpaced | app/core/config.py:40 | int() ignores whitespace around the number |
| Text.SplitJoin | app/core/config.py:62 | splitting on "." recovers the path's keys when no key contains a dot |
| Text.JoinSplit | app/core/config.py:62 | joining the pieces of a split gives the path back |

## Left out

- Network transport is not modelled: the HTTP helpers `_post_json`, `_get_json` and `_download_bytes`, `verify_server`, `upload_image` with its multipart body, the websocket connection, and `download_image_bytes` (app/comfy/client.py). Their results are inputs to the model: the frames and clock readings of the receive loop, the history document, and the uploaded file names.
- Telegram calls are not modelled as such: sending, editing, forwarding and deleting messages, `get_chat_member`, `send_placeholder`, the `edit_to_*` helpers, and the file downloads inside `download_attached_image` and `probe_attached_image_size`. Their outcomes are inputs: a sent placeholder's id or None, an admin flag, and each message's downloaded image and probed size. Chat replies and callback answers are named by outcome (`InputImageRequired`, `LimitReached`, `CancelForbidden`, …), not by their text.
- asyncio concurrency is modelled only by steps, for these reasons:
  - Blocking on the semaphore and queues, the worker tasks and awaiting them in `shutdown` are replaced by atomic steps: Dequeue, Start, Finish, Close, ClearAfterWorkersStopped. The one suspension that matters, the semaphore wait at app/infra/jobs_queue.py:129, falls between Dequeue and Start.
  - The media-group debounce (app/tg/bot.py:67-117 and 472-480) is not modelled. This covers its sleep, its lock and its buffers. A buffered group reaches the model as the list of its messages.
  - `asyncio.wait_for` around the generation call (app/tg/bot.py:842-859) becomes an outcome of that call.
  - The re-check of `job.canceled` after the uploads (app/tg/bot.py:812) would only matter under interleaving.
- Disk and environment are not modelled, since they are I/O: reading topic directories, `index_load`'s file, `index_save`, `load_dotenv`, YAML parsing, `os.makedirs`, the placeholder file and the locale files. The model takes the environment as a map, the YAML document as a value, each topic directory's files as values (or as unreadable), and the locale tables as maps.
- Floating point is not modelled: the JSON value type has no floats.
  - `_parse_float_token` with the fps and length keys, `_fmt_duration` and `build_caption` are not modelled.
  - Float values in YAML, JSON and limits are not modelled, and neither is `str()` of a float.
  - Timestamps are reals from an injected clock.
- Helpers.MergeParams: the proportional width/height scaling (app/tg/helpers.py:193-223) is not modelled, because it is float arithmetic; that path returns `NeedsScaling` with the parameters merged so far.
- Randomness and ids are parameters: the random seed of `prepare_workflow`, the websocket client id and the job's correlation id.
- Python's `bool` is an `int`. The model follows this explicitly: wherever the code checks `isinstance(v, int)`, a JSON `true`/`false` is taken as 1/0.
- Library internals are replaced by specific definitions: the regular expressions of the inline parser, `json` round trips, `urlencode`, `struct` and `str.format_map`. The model's format_map handles plain `{name}` fields and doubled braces; any other field syntax counts as a formatting failure.
- TopicsRepo.ParseRule: a rule whose "type" or "key" is a JSON array or object is refused (the topic is skipped), whereas Python would use the value's `repr` as a string; such a rule could never match a workflow input anyway. A `node_ids` that is a list with non-string items, or a non-empty object, is refused the same way.
- The `/topic_scan` command handler (app/tg/bot.py:403-439) is only its admin gate and the calls `scan_and_sync` and `reload_cache`. Those two calls are modelled as `TopicsRepo.TopicsRepository.ScanAndSync`, which also reloads the caches. The gate is not modelled.
- Non-object node outputs in the ComfyUI history are not modelled. The model's outputs are an ordered list of (node id, object) pairs in dictionary order.
- Logging and the processor call inside the worker are not modelled. The processor's run is the span between Start and Finish.
- Application wiring in app/main.py is not part of this model.
- Bot.HandleMessagesGroup: the parameters of the enqueued job are an argument, not computed with `merge_params` from the parsed inline parameters and the probed size (app/tg/bot.py:179). The model's parsed inline parameters are a map without the insertion order that `merge_params` depends on when two keys lower-case to the same name, and the scaling branch is float arithmetic. Helpers.MergeParams models the merge on its own.
- Bot.SendAndEnqueue: the job's parameters are an argument, for the same reason as Bot.HandleMessagesGroup; nothing ties them to the submission's inline parameters.
- Bot.SingleRegen: the single-message regenerate flow's `merge_params` call (app/tg/bot.py:625) is not modelled, for the same reason; its submission carries the parsed inline parameters and the probed size, not the merged parameters.
- Text.IsDigit: only ASCII digits. The `\d` class of `re` also accepts every other Unicode decimal digit, so contracts built on it hold for ASCII text only.
- Text.IsWordChar: only ASCII letters, digits and `_`. The `\w` class of `re` on str patterns accepts every Unicode letter and digit.
- Text.Lower: lower-cases ASCII letters only. Python's `str.lower()` also maps other letters (and can change the length of the text, as with "İ").
- Text.ParsePyInt: reads ASCII digits only. Python's `int()` also accepts other Unicode decimal digits, and since Python 3.11 it refuses texts longer than 4300 digits.
- Helpers.ParseIntTokenNone: holds for the model's ASCII `\d`; a token of non-ASCII decimal digits, which `int()` and `\d` accept, is not covered.
- Helpers.ParseIntTokenOf: same ASCII restriction as Helpers.ParseIntTokenNone.
- Config.GetIntDefault: follows Text.ParsePyInt, so an environment value in non-ASCII digits is read as not a number here, though Python reads it.
- Config.RequiredSources: same ASCII restriction on the chat id as Config.GetIntDefault.
- Config.BadChatIdInEnvRejected: same ASCII restriction; a chat id in non-ASCII digits is rejected here and accepted by Python.
- Helpers.ClampValue: `_clamp_value` computes through `float()`. Above 2^53 the clamped integer can be rounded, and an integer beyond the float range makes `float()` raise OverflowError outside the `try`, so `merge_params` raises. The model clamps exact integers and never raises.
- Helpers.ClampMeaning: states the exact integer clamp of Helpers.ClampValue, so it shares that model's gap for integers above 2^53.
- Comfy.ViewUrl: a list or object `subfolder` or `type` is rendered as the empty text, where `urlencode` would use Python's `repr` of it. Null, booleans, integers and strings are rendered as `str()` renders them.
- TopicsRepo.TitleOf: `meta.get("title") or alias` keeps any truthy value, such as a number or a list. The model keeps only a non-empty string and otherwise uses the alias.
- TopicsRepo.NonEmptyStr: `emoji` and `icon_custom_emoji_id` keep any truthy value in Python (`or None`); the model keeps only a non-empty string.
- TopicsRepo.ObjOrEmpty: `permissions` and `defaults` (`meta.get(key, {}) or {}`) keep any truthy value in Python; the model replaces a non-object with the empty map. For `inline_limits` the replacement is exact, as the source tests `isinstance(…, dict)`.
- TopicsRepo.TopicOf: builds the topic with the three restrictions above, and takes `description` only when it is a string, where Python keeps whatever value `meta.get("description")` gives. A topic whose meta holds such values differs from the one Python builds.
- TopicsRepo.TopicFiles: workflow.json is taken as an object (a map). A workflow file holding another JSON value loads in Python as long as no rule names a node, and that case is not modelled.

## Findings

| source | as written | input that shows it | evidently intended | confidence | as-written member | corrected member |
|---|---|---|---|---|---|---|
| app/infra/jobs_queue.py:123-137 | The worker checks `job.canceled` before awaiting the global semaphore. After the wait it lowers the user's pending count and starts the job unconditionally. `cancel_job` (lines 281-292) can run during that wait: it marks the job canceled and lowers the count as well, so the count is lowered twice. | `max_workers=1`, `per_topic_limit=1`. User 8 queues job 20 in topic "a"; user 7 queues jobs 10 and 11 in topic "t". Worker "a" starts job 20 and holds the only permit. Worker "t" takes job 10 and suspends in `async with self._global_sema`. Job 10 is canceled during that wait. Job 20 finishes and releases the permit, and worker "t" starts job 10. User 7's count reads 0 while job 11 still waits, so a per-user limit of 1 lets a third job in; the canceled job 10 also runs. (With a free permit the `async with` does not suspend, so the cancel cannot fall between the check and the start.) | A job canceled during the wait is dropped like one canceled in the queue. Its count is lowered once, and the pending count still equals the user's waiting jobs plus reservations. | not executed | Jobs.CancelDuringSemaphoreWait | Jobs.StartCheckedPreserves |
| app/infra/topics_repo.py:84-121 | `_parse_nodes_map` indexes `n["type"]`, `n["node_ids"]` and `n["key"]` without a guard. It is called at line 121, between the `try` blocks of lines 114-120 and 122-126, so a KeyError or TypeError ends the whole scan. | Two topic directories: a valid one and one whose nodes.json is `{"nodes": [{}]}`. The scan raises, so no topic is loaded, including the valid one. | A topic with malformed nodes.json is skipped, like one with unreadable files or failed validation. The other topics still load. | not executed | TopicsRepo.OneBadRuleLosesAllTopics | TopicsRepo.ScanMembers |
| app/infra/topics_repo.py:127 | `meta.get("title")` runs outside any `try`. `_load_json` returns whatever JSON the file holds, so a meta.json that is a list, string or number raises AttributeError there and ends the whole scan. | Two topic directories: a valid one and one whose meta.json is `[]` and whose nodes.json is `{}`. The scan raises, so no topic is loaded, including the valid one. | A topic with a meta.json that is not an object is skipped. The other topics still load. | not executed | TopicsRepo.NonObjectMetaLosesAllTopics | TopicsRepo.ScanMembers |
