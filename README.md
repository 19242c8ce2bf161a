# camrstp — a verified model of the camera relay core

camrstp is a small web service that relays several RTSP camera feeds to browsers
as MJPEG streams behind a login page. For each configured stream, a background
capture worker reads decoded frames from the camera and pushes them into a
bounded queue of ten frames. A consumer generator pops frames from that queue,
encodes them as JPEG and writes each one as one part of a
`multipart/x-mixed-replace` response. A cached "camera unavailable" placeholder
frame stands in whenever there is no camera frame. A session flag gates every
page and stream.

This project models that core in Dafny and proves its properties:

- `Frames`: frames are opaque decoded rasters, and bytes are a `byte` newtype.
- `Placeholder`: the lazily loaded placeholder is the class `ErrorFrameCache`, with the fallback frame.
- `FrameQueues`: the bounded queue is the class `FrameQueue`. It is specified by pure functions on its contents: `Pushed`, `Run`, `Popped` and `Drain`.
- `Capture`: the worker is the class `CaptureWorker`. It has a connect step and the degraded and streaming loop bodies.
- `Registry`: the process-wide table of streams is the class `StreamRegistry`. It provides `StartCaptureThread` and the start-up pass `InitStreams`.
- `Mjpeg`: the multipart framing is pure functions on bytes, with its round trip.
- `Publisher`: the consumer generator, as one iteration or a bounded number of them.
- `Access`: the routes' decisions are pure functions over the session flag, with a request-trace semantics.

Further modelling choices:

- Calls into the image library become parameters:
  - the result of probing and decoding the asset (`Asset`);
  - the open result (`Connect(isOpened)`);
  - each read result (`Option<Frame>`);
  - the JPEG encoder (`encode: Frame -> seq<byte>`).
- The environment becomes a `map<string, string>` from variable name to value (`RtspUrls`).
- The configured login and password are a `Credentials` value.

Behaviour of the code worth noting:

- The stream route starts no worker. It checks the session, then checks the id against the configured ids.
- The generator looks the queue up by id. A configured id whose worker was never started has no queue, and the lookup fails: `Failure(UnknownStream)`.
- An offer onto a full queue removes one entry and discards the offered frame. It does not retry.
- The encoder's success flag is never checked, so there is no encode-failure path.
- The parts carry no Content-Length header.
- Starting a stream replaces any queue already present for that id.
- The login check compares the submitted fields with the configured values, where an absent value is `None`. With neither variable set, a submission carrying neither field is accepted (`Access.UnsetCredentialsAcceptEmptyForm`).

## Model

| member | source | states |
|---|---|---|
| Placeholder.FromAsset | app.py:29-43 | A decodable asset yields its own image. A missing or undecodable one yields the 480x640x3 blank frame labelled "Камера недоступна". |
| Placeholder.ErrorFrameCache.constructor | app.py:23 | The cache starts empty. |
| Placeholder.ErrorFrameCache.Load | app.py:27-44 | Always returns a frame, and the cache is then set to that frame. The first call fills the cache from the asset. Later calls return the cached value unchanged. |
| Placeholder.AfterLoad | app.py:27-44 | After a load the cache always holds a frame. A filled cache is kept as it is, and an empty one takes the frame the asset yields. |
| Placeholder.AfterLoadSettles | app.py:27-44 | A second load leaves the cache as the first left it, whatever the second probe finds. |
| Placeholder.LoadTwice | app.py:27-44 | Two loads return the same frame, whatever the second probe finds. |
| FrameQueues.Pushed | app.py:64-69 | Below capacity, the offer is appended at the back and earlier entries are kept in order. At capacity, exactly the oldest entry is removed, the offer is not admitted and the length drops by one. The bound of 10 is kept. |
| FrameQueues.Run | app.py:74-82 | Any number of offers keeps a queue within capacity. |
| FrameQueues.RunSnoc | app.py:74-82 | One more offer after a run equals a run one offer longer. |
| FrameQueues.RunStaysNearFull | app.py:78-82 | Once full, the queue holds 9 or 10 frames after any further offers. |
| FrameQueues.FullQueueAdmitsEveryOtherFrame | app.py:78-82 | On a full queue, two offers drop the oldest entry and admit only the second frame. |
| FrameQueues.RunKeepsOfferOrder | app.py:74-82 | FIFO: the queue stays an order-preserving selection of everything offered. |
| FrameQueues.FreshQueueHoldsOfferedFrames | app.py:86 | From a fresh queue, every queued frame is one that was offered, in offer order. |
| FrameQueues.SubsequenceDropFront | app.py:82 | Removing the oldest entry keeps the queue an ordered selection of the offers. |
| FrameQueues.SubsequenceMembers | app.py:79 | Every entry of an ordered selection is among the offers. |
| FrameQueues.Popped | app.py:95-98 | A non-empty queue yields its front frame and keeps the rest in order. An empty queue yields the placeholder and stays empty. |
| FrameQueues.Drain | app.py:94-98 | n pops yield exactly n frames. |
| FrameQueues.DrainInOrder | app.py:94-98 | n pops with no producer running yield the queued frames oldest first, then only the placeholder. |
| FrameQueues.DrainSnoc | app.py:94-98 | One more pop yields the front of what is left and removes it. |
| FrameQueues.FrameQueue.constructor | app.py:86 | A new queue is empty. |
| FrameQueues.FrameQueue.PutNowait | app.py:66 | A non-blocking put succeeds exactly below capacity and then appends. Otherwise it reports "full" and leaves the queue unchanged. |
| FrameQueues.FrameQueue.Get | app.py:69 | Removes and returns the front entry of a non-empty queue. |
| FrameQueues.FrameQueue.GetTimeout | app.py:95-98 | Returns and removes the front entry, or `None` on an empty queue, which it leaves empty. |
| FrameQueues.FrameQueue.Push | app.py:78-82 | The producer's put-or-drop leaves the contents `Pushed(old, f)`. It reports insertion exactly below capacity. |
| Capture.OfferedFrame | app.py:61-77 | The degraded loop offers only the placeholder. The streaming loop offers the read frame on success and the placeholder on a failed read. |
| Capture.Offers | app.py:64-82 | Each iteration offers the frame `OfferedFrame` picks for its read result. |
| Capture.OnlyPlaceholderThroughout | app.py:64-69 | If only the placeholder is ever offered, a placeholder-only queue stays placeholder-only after every iteration. |
| Capture.DegradedQueueOnlyPlaceholder | app.py:61-69 | An unopened source leaves only the placeholder in its queue, after every iteration. |
| Capture.FailedReadsOnlyPlaceholder | app.py:74-82 | A streaming worker whose reads all fail leaves only the placeholder in its queue. The worker stays in streaming mode throughout, because `Step` and `Steps` keep the mode. |
| Capture.StreamingKeepsReadOrder | app.py:74-82 | A streaming worker's queue holds an ordered selection of what it offered. |
| Capture.CaptureWorker.constructor | app.py:88-89 | A new worker is bound to its stream id and url and has not yet opened its source. |
| Capture.CaptureWorker.Connect | app.py:58-61 | The single open attempt selects the streaming loop when the source opened, and the degraded loop for good otherwise. |
| Capture.CaptureWorker.Step | app.py:64-82 | One iteration offers `OfferedFrame(...)` and leaves the queue `Pushed(old, offered)`. It inserts exactly below capacity. The mode is unchanged: neither loop stops or reconnects. |
| Capture.CaptureWorker.Steps | app.py:64-82 | Several iterations leave the queue `Run(old, Offers(...))`, and the mode is unchanged. |
| Capture.StepExtendsRun | app.py:74-82 | The queue after one more iteration is the previous one with that iteration's offer pushed. |
| Registry.ConfiguredIdsDistinct | app.py:105-109 | The configured ids are distinct. |
| Registry.RtspUrls | app.py:105-109 | Exactly the three configured ids are keys, each mapped to its variable's value, or `None` when the variable is unset. |
| Registry.Unstarted | app.py:113-115 | The ids a start-up pass starts: exactly the configured ids without a queue, in configuration order. |
| Registry.UnstartedAfterInit | app.py:112-115 | After a pass every configured id is present, so nothing is left to start. |
| Registry.UnstartedSnoc | app.py:113-115 | One more id starts exactly when it is absent. |
| Registry.NothingToStart | app.py:114 | When every id is present, the pass starts nothing. |
| Registry.ProgressStarting | app.py:114-115 | Starting an absent id advances the pass's bookkeeping by one id. |
| Registry.ProgressSkipping | app.py:114 | Skipping a present id advances the pass's bookkeeping by one id. |
| Registry.PassComplete | app.py:112-115 | A finished pass started exactly the absent ids, in order. The table gained exactly the ids and kept every earlier entry. With every id already present, nothing was started and the table is unchanged. The cache is unchanged when nothing was started, and otherwise loaded from the asset. |
| Registry.StreamRegistry.constructor | app.py:47-48 | The registry starts with no streams and an empty placeholder cache. |
| Registry.StreamRegistry.StartCaptureThread | app.py:50-90 | Loads the placeholder: the cache becomes `AfterLoad(old cache, asset)`. Installs, for the id only, a freshly allocated empty queue and a new worker that is started but not yet connected (mode `Connecting`). Any previous entry is replaced and nothing else changes. |
| Registry.StreamRegistry.InitStep | app.py:113-115 | Starts the next id exactly when it has no queue, and keeps every earlier entry. The placeholder cache is loaded once some id has been started, and is untouched when the id is skipped. |
| Registry.StreamRegistry.InitStreams | app.py:112-115 | Returns exactly the absent ids, in order. Afterwards every configured id has a queue. Existing entries are unchanged and new ones are idle. The placeholder cache is unchanged when nothing was started, and otherwise loaded from the asset. When all were present, nothing is started or changed. |
| Registry.StreamRegistry.InitConfiguredStreams | app.py:105-115 | The start-up pass over the three configured streams, with sources from the environment: it starts exactly the absent ones. The placeholder cache is unchanged when nothing was started, and otherwise loaded from the asset. When all three were present, nothing is started and the table is unchanged. |
| Registry.CacheAfterStart | app.py:27-44 | Across a pass, the cache is the old one until the first start, and afterwards the cache loaded from the asset. Further starts leave it as it is. |
| Registry.UnstartedAllAbsent | app.py:113-115 | On an empty table, a pass starts every id, in order. |
| Registry.StartUp | app.py:112-115 | A fresh registry after a first pass over distinct ids: every id is started, each entry is idle with its own url, the table holds exactly those ids, and the cache holds the frame the asset yields. |
| Registry.StreamRegistry.CaptureStep | app.py:66-82 | A worker's iteration pushes into the queue currently registered under its id. |
| Registry.InitStreamsTwice | app.py:112-115 | After a first pass every id is present. A second pass then starts nothing and leaves the table and the placeholder cache exactly as the first pass left them: the pass is idempotent. |
| Mjpeg.Ascii | app.py:101-102 | Byte literals as one byte per ASCII character. |
| Mjpeg.MimetypeText | app.py:152 | The media type is `multipart/x-mixed-replace; boundary=frame`. |
| Mjpeg.PartLinesText | app.py:101-102 | The delimiter line is `--frame\r\n` and the part header is `Content-Type: image/jpeg\r\n\r\n`. |
| Mjpeg.FramingText | app.py:101-102 | The prefix is the bytes of `--frame\r\n` then of `Content-Type: image/jpeg\r\n\r\n`, 37 bytes in all. The suffix is the 2 bytes of `\r\n`. |
| Mjpeg.PrefixOpensWithDelimiter | app.py:101 | Every part opens with `--` and the boundary that the media type announces. |
| Mjpeg.Segment | app.py:101-102 | A part is exactly the prefix, the payload and the suffix. |
| Mjpeg.Unframe | app.py:101-102 | Reads a payload back exactly when the prefix and the suffix are present. |
| Mjpeg.UnframeSegment | app.py:101-102 | Stripping the framing recovers the payload, for every payload. |
| Mjpeg.SegmentUnframe | app.py:101-102 | Every well-framed part is the segment of the payload it carries. |
| Mjpeg.SegmentInjective | app.py:101-102 | Distinct payloads give distinct parts. |
| Publisher.Segments | app.py:99-102 | Each part unframes to the encoding of its frame. |
| Publisher.NextSegment | app.py:93-102 | An id without a queue fails. Otherwise the result is the part for the popped frame (the placeholder when the queue is empty), and the queue keeps the rest. |
| Publisher.GenFrames | app.py:93-102 | n iterations emit the parts for `Drain(queue, n, placeholder)`. The queue keeps its entries past the first n. |
| Access.Accepted | app.py:127 | A submission passes the credential test exactly when it carries the configured login and password, absent values included. |
| Access.IndexRoute | app.py:118-120 | The root redirects to the video page and leaves the session alone. |
| Access.LoginRoute | app.py:122-132 | A GET renders the form. A POST logs in and redirects exactly when both fields match. A rejected POST renders the error message and keeps the session. |
| Access.VideoRoute | app.py:134-138 | The video page is rendered if and only if logged in, and otherwise redirects to login. |
| Access.LogoutRoute | app.py:140-143 | Logging out clears the flag and redirects to login. |
| Access.StreamRoute | app.py:146-152 | Returns 401 if and only if logged out, whatever the id. When logged in, returns 404 if and only if the id is not configured, and otherwise the stream with the multipart media type. |
| Access.Handle | app.py:118-152 | The route table. Only the login and logout requests can change the session. A stream reply answers only a stream request for that same id, from a logged-in session. |
| Access.HandleSession | app.py:122-143 | After any request the session is logged in iff that request was an accepted login, or it was logged in before and the request was not a logout. |
| Access.Serve | app.py:118-152 | One reply per request. |
| Access.LoggedInIffLoginStands | app.py:127-142 | From a fresh session, a client is logged in iff some accepted login was not followed by a logout. |
| Access.ReplyAt | app.py:118-152 | Each reply is its route's answer in the session the earlier requests left. |
| Access.StreamNeedsLogin | app.py:146-152 | A stream reply goes only to a configured id, and only after an accepted login with no logout since. |
| Access.UnsetCredentialsAcceptEmptyForm | app.py:125-129 | With both variables unset, a submission without either field logs in. |

## Left out

- Image library calls (opening, reading, decoding, drawing text, JPEG encoding) are foreign code. Their results are parameters or opaque values, and the encoder is a total function on frames.
- Threads, daemon workers and blocking queue waits are not modelled.
  - The producer and the consumers are modelled as sequential operations on the queue.
  - Races between a worker and its consumers are out of scope, and so are races between several consumers of one queue.
  - `Get` requires a non-empty queue. Without a concurrent consumer this holds, because the producer only calls it on a full queue.
- The pacing sleeps, the one-second pop timeout (modelled as an immediate "empty") and the FFmpeg transport and timeout variable are timing and environment side effects.
- The endless loops are not modelled; only one iteration or a bounded number of them is. Also left out are the unreachable `return` and capture release after them, and the buffer-size setting on the capture.
- Flask plumbing is reduced to the `Reply` values: templates, redirects, response objects, the session store and the 404 error page. Logging is left out.
- The secret key and the other configuration reads are left out. Only the three stream URLs and the login pair are modelled, as parameters.
- static/js/modalWindow.js is browser UI code and is not part of this model.
- Registry.StreamRegistry: the source keeps two dicts, one of queues and one of threads. Both are written together for the same id and both have the ids as keys. The model keeps one table from id to a (queue, worker) pair.
- Registry.StreamRegistry.InitStreams: states that the new entries are idle (empty queue, and a worker for the configured url that is started but not yet connected), but not that their objects are freshly allocated. `StartCaptureThread` states freshness for each entry it installs.
- Registry.StreamRegistry.InitStreams: takes the configuration's ids and sources as parameters. `InitConfiguredStreams` applies it to the three configured streams.
- Access.StreamRoute: checks the id against the configured ids, which are exactly the keys of the source's URL table (`Registry.RtspUrls`).
