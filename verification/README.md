# RJR, verified

A Dafny model of the parts of RJR that carry its logic, with proofs over every input, every run
and every interleaving. RJR is a JSON-RPC 2.0 library: Ruby nodes that exchange messages over
streams, queues or in process, and a JavaScript client that talks to them over a WebSocket.

Check everything with `dafny verify dfyconfig.toml`.

| file | what it models |
|---|---|
| Basics | JSON values shared by all parts |
| Scanner, Framing | the brace scanner that cuts messages out of a byte stream, and the reassembly loop of a connection |
| Printer, PrintedStream | the client's JSON printer, a reader for its output, and printed objects travelling through the framing |
| ThreadPool, PoolProofs, PoolWorkers, PoolTiming, PoolExamples, PoolObject | the worker pool as a machine over its atomic steps, its invariants, the number of its workers, its timing, two runs that show the limits of the exact claims, and the object with its loops |
| Messages, ClosedSystem | requests, notifications, responses and results, the header table all messages of a node share, and any number of nodes talking to each other |
| Dispatcher | registration and lookup of handlers |
| Correlation, CorrelationProofs, LocalInvoke, LocalProgress | the tables that match responses to waiting calls, all their interleavings, the whole call cycle of the local node, and when its calls end |
| TaggedObjects, TaggedLoops, WsNode | the client's conversions of objects with a `json_class`, and its WebSocket node |
| Arguments | the keyword walk over argument lists |

## How the model is built

- What the source changes in place is a class whose methods are proved against specification
  functions; what the source computes is a function.
- Threads are machines. A step is what one thread does between two points where another may run.
  `Step` is total: an event that cannot happen changes nothing. `Exec` folds any sequence of
  events, so a lemma about `Exec(run)` is about every run. History that no step depends on (places of
  jobs, delivery numbers, outcomes) is part of the state so that lemmas can speak about the past.
- Every main result has an independent partner: the scanner is compared with a grammar of frames, the
  printer with a reader written from RFC 8259, the handler table with its registration log, the
  validator with the extractor, the wrapping with the unwrapping and with the parser.
- The environment is a parameter: clock values come with events and never go back, ids are distinct,
  handlers are a relation between arguments and outcomes, regular expressions are a match predicate.

## Where a promised property fails

The code is modelled as written. Where a natural property is false of it, there is a concrete
counterexample and the exact condition.

- A timeout kill may hit a worker that runs another job (`PoolExamples.RaisingJobKillsAnother`). It hits the
  worker of the overdue job if and only if that job has neither raised nor lost its thread
  (`PoolProofs.KillTarget`); without raising handlers, if and only if the job was not running at an earlier
  shutdown (`PoolWorkers.TimeoutIsExactIff`).
- The pool may list more workers than configured, even if no handler raises
  (`PoolExamples.RestartAddsWorker`). In every run a timeout adds a worker if and only if the thread
  recorded for the job had been killed before (`PoolWorkers.ExamineAddsIff`). Without raising
  handlers the number is exact if and only if, since the start, no job that was running at an earlier shutdown has
  come up as overdue (`PoolWorkers.ListedExactlyIff`).
- A message may fail to parse back because headers overwrite its own fields
  (`Messages.ForeignParamsSpoilRequests`). It parses back if and only if its headers are harmless to it
  (`Messages.ParsesBackIff`).
- A call that is answered before it has registered may wait for ever (`LocalProgress.EarlyAnswerIsLost`). Held
  responses survive another waiter's poll if and only if that poll fails or their id is pending and
  within its deadline (`CorrelationProofs.SurviveIff`). An answered call ends at its next poll within the
  deadline if and only if no other waiter's poll in between has pruned its id
  (`LocalProgress.AnsweredCallEndsIff`), so one that is answered while it waits does end
  (`LocalProgress.AnsweredCallEnds`).
- Line 123 of site/jrw.js misspells `JRMessage`, so an array in an array in a tagged object
  throws (`TaggedProofs.NestedArrayThrows`). Line 186 looks at the wrapper, not at the property, so arrays in
  tagged objects are not parsed (`TaggedProofs.ArrayStaysWrapped`). `TaggedProofs.ComesBackIffFaithful` and
  `TaggedProofs.ParamsParseBackIff` state the exact domains.
- A second `open` sends unanswered requests again (`WsNode.ReopeningSendsAgain`). No request is sent twice if
  and only if no opening finds a request in the table that was sent before (`WsNode.SentOnceIff`).
- A second `open` replaces the socket at once, so a request invoked while the new one is connecting is stored,
  not sent, and `invoke` throws (`WsNode.ReopeningDelays`); it may never be sent (`WsNode.AnsweredBeforeSent`). An
  invoked request is sent by the time the node is open with no socket connecting if and only if no message with
  its id took it out of the table before it was sent (`WsNode.SentUnlessTaken`).
- The comments of lib/rjr/util/args.rb say that arguments are turned into strings before they are
  compared; the hash form of `validate!` and `extract` turn only keys into strings, so a number is not taken for the
  key it spells (`Arguments.NumberIsNoKey`). They do as documented exactly as far as every argument
  taken for a key is a string (`Arguments.AcceptsAsDocumentedIff`, `Arguments.ExtractsAsDocumentedIff`).

One departure from a standard is kept as it is: an unknown method is answered with error code -32602,
where section 5.1 of the JSON-RPC 2.0 specification assigns -32601.

## Model

| member | source | states |
|---|---|---|
| Scanner.ExtractJsonFrom | lib/rjr/util/json_parser.rb:21-77 | the method with the source's index loop yields the extraction that `ExtractIff` characterises by a grammar |
| Scanner.FindMark | lib/rjr/util/json_parser.rb:27-73 | the loop over the flags for escapes, quotes and open brackets finds the closing brace of the specification, and leaves the mark at 0 exactly if there is none |
| Scanner.ExtractIff | lib/rjr/util/json_parser.rb:21-77 | a message and a rest are extracted if and only if the data is text without an opening brace, then a frame of the grammar (balanced, quotes and escapes respected), then the rest |
| Scanner.FramesArePrefixFree | lib/rjr/util/json_parser.rb:68-72 | no frame is a proper prefix of another, so what is extracted is the shortest balanced run |
| Scanner.ExtractIsStable | lib/rjr/util/json_parser.rb:21-77 | data that arrives later never changes an extraction that has succeeded |
| Scanner.SkipGroup | lib/rjr/util/json_parser.rb:33-73 | at any depth a whole frame is read as one unit, whatever follows it |
| Scanner.GroupOfClose | lib/rjr/util/json_parser.rb:33-73 | whatever the scanner accepts from an opening brace on is the text of a frame |
| Framing.TCPConnection.constructor | lib/rjr/nodes/tcp.rb:29-37 | a new connection has an empty buffer |
| Framing.TCPConnection.ReceiveData | lib/rjr/nodes/tcp.rb:44-53 | one packet hands on all messages that are complete by now, in order, and leaves the residue; the loop terminates |
| Framing.TCPConnection.ReceivePackets | lib/rjr/nodes/tcp.rb:44-53 | the callbacks over a connection's life hand on what `Feed` says |
| Framing.DrainIff | lib/rjr/nodes/tcp.rb:44-53 | messages and residue are the unique reading of a stream as frames separated by text without an opening brace, with no frame in the residue |
| Framing.FeedIsDrain | lib/rjr/nodes/tcp.rb:44-53 | packet by packet gives the same as the whole stream at once |
| Framing.PacketsDoNotMatter | lib/rjr/nodes/tcp.rb:44-53 | any two ways of cutting any stream into packets hand on the same messages and leave the same buffer |
| Printer.ToJson | site/json.js:40-141 | the loops that push onto the list of pairs produce the text that `ReadsPrinted` shows to mean the value |
| Printer.EscapedForm | site/json.js:17-26 | a character is escaped if and only if it is a quote, a backslash or a control character of either range; it gets its two-letter escape if there is one, and otherwise four lower-case hex digits |
| Printer.QuotesNoControl | site/json.js:185-197 | no control character is ever printed raw |
| Reader.ReadsEscaped | site/json.js:17-26 | every character's escape reads back as that character, by a reader that refuses raw control characters, and does not close the string |
| Reader.ReadsQuoted | site/json.js:185-197 | every quoted string reads back as itself, whatever follows |
| Reader.ReadsPrinted | site/json.js:40-141 | every printed value reads back as itself by the grammar of RFC 8259, and nothing after it is consumed; only a number needs a delimiter after it |
| PrintedStream.SpellsPrinted | site/json.js:40-141 | printed text, braces and quotes in strings included, is well formed for the frame grammar |
| PrintedStream.PrintedObjectsArrive | lib/rjr/nodes/tcp.rb:44-53 | for every list of objects, printed, concatenated and cut into packets anywhere, exactly the printed texts are handed on in order, the buffer ends empty, and each text reads back as its object |
| PoolProofs.ExecSafe | lib/rjr/util/thread_pool.rb:60-226 | the pool invariant holds after every run |
| PoolProofs.ExactlyOnePlace | lib/rjr/util/thread_pool.rb:99-143 | at every moment each submitted job is in exactly one place: work queue, a worker's hands, the manager's queues, or out of the pool |
| PoolProofs.ClaimedInOrder | lib/rjr/util/thread_pool.rb:99-115 | a claim takes the earliest submitted job not yet claimed |
| PoolProofs.StartedOnce | lib/rjr/util/thread_pool.rb:60-75 | over any continuation of any run a job is started at most once and its record is final once completed |
| PoolProofs.KillTarget | lib/rjr/util/thread_pool.rb:126-140 | a timeout kill removes exactly the thread recorded for the overdue job, and that thread executes this job if and only if the job has neither raised nor been orphaned |
| PoolProofs.LeavesPoolIff | lib/rjr/util/thread_pool.rb:118-143 | in every run, whatever the workers do during a pass, a job leaves the manager's queues if and only if the manager examines it and it has been started and either completed or running for more than the timeout |
| PoolWorkers.KillsIff | lib/rjr/util/thread_pool.rb:119-135 | in every run a step kills a live thread if and only if it shuts down a pool told to terminate, or examines an uncompleted job that this thread started more than the timeout ago |
| PoolWorkers.ExamineAddsIff | lib/rjr/util/thread_pool.rb:130-135 | in every run examining an overdue job adds a worker to the list if and only if an earlier step had killed the thread recorded for it |
| PoolWorkers.ListedWorkers | lib/rjr/util/thread_pool.rb:99-143 | while the pool is up the listed workers are the live ones, never fewer than configured, and more by exactly the number of times since the start that the manager replaced a thread which an earlier step of the run had killed |
| PoolWorkers.TimeoutIsExactIff | lib/rjr/util/thread_pool.rb:118-143 | in every run without raising handlers, restarts included, a timeout kills the worker executing the overdue job and adds no worker if and only if the job was not running at an earlier shutdown |
| PoolWorkers.ListedExactlyIff | lib/rjr/util/thread_pool.rb:118-195 | in every run without raising handlers exactly the configured number of workers is listed if and only if, since the start, no job that was running at an earlier shutdown was examined as overdue |
| PoolWorkers.CalmRunsAreExact | lib/rjr/util/thread_pool.rb:118-195 | if no handler raises and no shutdown interrupts a running job then, restarts included, every kill hits the worker executing the overdue job and exactly the configured number of workers is listed |
| PoolTiming.NoJobRunsForever | lib/rjr/util/thread_pool.rb:118-159 | if the manager oversleeps by at most a slack and a pass takes at most a given time, no job, raising handlers included, still runs later than twice the timeout, two passes and the slack after its start |
| PoolTiming.PassesAreApart | lib/rjr/util/thread_pool.rb:146-159 | in every run a pass begins only in a pool not told to terminate, and at least the timeout after the previous pass began or the pool was started |
| PoolTiming.RecordsAreHonest | lib/rjr/util/thread_pool.rb:60-75 | in every run a completed job was started before it was completed, neither lies in the future, and a completed job has no thread |
| PoolExamples.RaisingJobKillsAnother | lib/rjr/util/thread_pool.rb:108-112 | a run in which the timeout of a job that raised kills the thread of a job that is not overdue |
| PoolExamples.RestartAddsWorker | lib/rjr/util/thread_pool.rb:189-226 | a run without raising handlers in which a restarted pool lists a worker too many |
| PoolObject.WorkerPool.constructor | lib/rjr/util/thread_pool.rb:162-176 | a new pool is the machine's initial state and is safe |
| PoolObject.WorkerPool.Push | lib/rjr/util/thread_pool.rb:206-210 | submitting is a step of the machine and keeps the pool safe |
| PoolObject.WorkerPool.PopWork | lib/rjr/util/thread_pool.rb:101 | a worker's pop is a step of the machine, keeps the pool safe and yields the oldest job |
| PoolObject.WorkerPool.PushRunning | lib/rjr/util/thread_pool.rb:104 | a worker's report to the manager is a step of the machine and keeps the pool safe |
| PoolObject.WorkerPool.BeginExec | lib/rjr/util/thread_pool.rb:60-64 | the first locked block of a job is a step of the machine and keeps the pool safe |
| PoolObject.WorkerPool.EndExec | lib/rjr/util/thread_pool.rb:71-74 | the second locked block of a job is a step of the machine and keeps the pool safe |
| PoolObject.WorkerPool.ExamineWork | lib/rjr/util/thread_pool.rb:130-139 | the manager's locked block reaches exactly the pool after the examining step, and puts back the job unless it is overdue or completed |
| PoolObject.WorkerPool.ScanRunning | lib/rjr/util/thread_pool.rb:126-140 | the scanning loop is a run of the machine, empties the running queue, and keeps in order the jobs that are neither overdue nor completed |
| PoolObject.KeptIff | lib/rjr/util/thread_pool.rb:131-138 | a pass puts back exactly the jobs of the queue that are not completed and have not run for more than the timeout |
| PoolObject.WorkerPool.ReaddAll | lib/rjr/util/thread_pool.rb:141 | the loop that puts jobs back is a run of the machine and appends them in order |
| PoolObject.WorkerPool.KillAll | lib/rjr/util/thread_pool.rb:119-123 | killing the listed threads one by one leaves no worker alive and is the machine's shutdown step |
| PoolObject.WorkerPool.CheckWorkers | lib/rjr/util/thread_pool.rb:118-143 | one whole pass is a run of the machine after which the running queue holds, in order, exactly the jobs that are neither overdue nor completed |
| PoolObject.WorkerPool.Start | lib/rjr/util/thread_pool.rb:189-195 | starting is a step of the machine and keeps the pool safe; on a running pool it changes nothing |
| PoolObject.WorkerPool.Stop | lib/rjr/util/thread_pool.rb:215-226 | stopping is a step of the machine and keeps the pool safe |
| Messages.ParsesBackIff | lib/rjr/node.rb:193-212 | a serialised message is recognised as its own kind and parses back to the same id, method, arguments or result if and only if its headers are harmless to it |
| Messages.MessageContents | lib/rjr/messages/request.rb:80-85 | a message of any kind has exactly the words of its kind and the headers as keys; the version is 2.0, and every header has its value unless a response's own result takes its place |
| Messages.FailuresOnWire | lib/rjr/dispatcher.rb:150-168 | the answer for an unknown method carries code -32602, the text with its name and no class; the answer of a handler that raised carries -32000, its text and its class |
| Messages.LearnedIff | lib/rjr/messages/request.rb:62-66 | after a message a table holds the message's value under every name that is not one of the words, and its old value under every other name |
| Messages.StringErrorReads | lib/rjr/messages/response.rb:67-73 | an error that is a string reads as the names of the fields that occur in it |
| Messages.ForeignParamsSpoilRequests | lib/rjr/messages/response.rb:78-82 | a response that carries `params` makes the receiver's next request carry them instead of its own arguments |
| MessageObjects.HeaderTable.ParseHeaders | lib/rjr/messages/request.rb:62-66 | the shared table gains every key of the message that is not one of the given words, and nothing else changes |
| MessageObjects.RequestMessage.Received | lib/rjr/messages/request.rb:53-66 | a received request says what the message's fields say, and teaches the shared table |
| MessageObjects.NotificationMessage.Received | lib/rjr/messages/notification.rb:50-62 | a received notification says what the message's fields say, and teaches the shared table |
| MessageObjects.ReceiveResponse | lib/rjr/messages/response.rb:51-82 | a received response says what the message's fields say and teaches the shared table; it raises, with the table untouched, exactly if the error is neither an object nor a string and there is no result |
| MessageObjects.HandleRequest | lib/rjr/node.rb:215-249 | the answer has the request's id and carries everything the node has learnt, this request and the handler's additions included |
| ClosedSystem.MessagesMeanWhatWasSaid | lib/rjr/node.rb:193-268 | in every interleaving of sending, parsing, handlers at work and answering by any number of nodes with clean configured headers and handlers that add no reserved name, every table stays clean, every message ever sent carries the version and all of its sender's headers and parses back to what its sender meant, and every response has the id of an earlier request |
| ClosedSystem.AnsweredOnceEach | lib/rjr/node.rb:215-249 | in every run and for every id, the responses sent and the handlers still at work are together as many as the requests received |
| ClosedSystem.AllThatWasSaid | lib/rjr/node.rb:215-249 | in every run the packets in flight are, in order, the requests and notifications sent and the handlers' results under the ids of their requests |
| ClosedSystem.ReceiverLearns | lib/rjr/node.rb:193-268 | in every run receiving a packet teaches the node exactly the sender's headers, sets a handler to work for a request under its id, and changes nothing else |
| ClosedSystem.TablesAreLearnt | lib/rjr/node.rb:215-268 | in every run each table is the configured headers overwritten in order by those of the senders heard and those added by handlers |
| Dispatcher.Dispatcher.constructor | lib/rjr/dispatcher.rb:37-52 | a new table agrees with the empty registration log |
| Dispatcher.Dispatcher.Handle | lib/rjr/dispatcher.rb:75-83 | a registration, nested arrays and callback and block together included, extends the log by its assignments, and the table still agrees with the log |
| Dispatcher.Dispatcher.HandlerFor | lib/rjr/dispatcher.rb:91-99 | the handler found is the last given for the exact name or else the last given for the earliest registered pattern that matches |
| Dispatcher.TableAgrees | lib/rjr/dispatcher.rb:91-99 | searching the insertion-ordered table finds the earliest registered signature with its latest handler, for every log and every test |
| Dispatcher.LookupMeans | lib/rjr/dispatcher.rb:91-99 | a lookup fails if and only if no registered signature applies; otherwise it finds the last handler of the exact name if that was registered, and else of the first registered pattern that matches |
| Dispatcher.RegistersGiven | lib/rjr/dispatcher.rb:75-83 | after a registration every signature named in it has the block, or without one the callback, as its handler; with neither, and for every other signature, nothing changes |
| Dispatcher.RegistersInOrder | lib/rjr/dispatcher.rb:76-79 | signatures in nested arrays are registered in the order in which they are named |
| Correlation.Node.constructor | lib/rjr/node.rb:103-115 | a new node has nothing pending and no responses |
| Correlation.Node.HandleResponse | lib/rjr/node.rb:262-267 | a delivery is appended to the responses and nothing else changes |
| Correlation.Node.Register | lib/rjr/node.rb:274 | the id becomes pending from now on and nothing else changes |
| Correlation.Node.PollOnce | lib/rjr/node.rb:276-293 | one locked turn of the waiting loop is the poll that the lemmas below are about |
| CorrelationProofs.FailsIffPastDeadline | lib/rjr/node.rb:271-296 | in every run a poll fails if and only if a timeout is set and more than it has passed since registration; otherwise all responses kept belong to pending ids |
| CorrelationProofs.ReturnedInOrder | lib/rjr/node.rb:252-296 | in every run each returned response was delivered, none is returned twice, and those for one id are returned in order of delivery |
| CorrelationProofs.Retained | lib/rjr/node.rb:271-296 | once an id is pending, the responses held for it are exactly those held at first and those delivered since, through any number of other waiters' polls, until its own waiter polls or a poll sees its deadline passed |
| CorrelationProofs.WaiterGetsFirst | lib/rjr/node.rb:285-293 | the waiter's next timely poll then returns the earliest of them, and waits exactly if there is none |
| CorrelationProofs.SurviveIff | lib/rjr/node.rb:276-293 | responses held for an id survive another waiter's poll if and only if that poll fails or the id is pending and within its deadline |
| CorrelationProofs.PollDropsOrKeeps | lib/rjr/node.rb:285-289 | another waiter's poll drops all responses held for an id or keeps them all, in order |
| CorrelationProofs.PollLeavesIff | lib/rjr/node.rb:276-293 | a response stays after a poll if and only if the poll fails, or its id is pending and it does not equal the response returned |
| LocalInvoke.ExecKeeps | lib/rjr/nodes/local.rb:83-123 | the invariant of the local node holds after every interleaving |
| LocalInvoke.EveryCallEndsWithItsOwn | lib/rjr/nodes/local.rb:83-123 | in every interleaving of any number of calls with distinct ids, a call returns only what its own handler made of its own arguments (false becomes nil), fails only with its own handler's or the method-not-found text, and times out only past its own deadline |
| LocalProgress.PollMeans | lib/rjr/node.rb:275-295 | in every run a waiting call that polls past its deadline ends with a timeout there; within it, it goes on waiting if nothing is held for it and else ends with what was delivered first; no other call changes |
| LocalProgress.DeadlineIsFixed | lib/rjr/node.rb:274 | a call's deadline counts from its registration, and no other call moves it |
| LocalProgress.HeadersAreConfiguredOrAdded | lib/rjr/node.rb:215-249 | in every run the names of the headers a local node knows are those configured and those its handlers added |
| LocalProgress.AnsweredCallEndsIff | lib/rjr/nodes/local.rb:83-123 | a call that has been answered, before or after it registered, ends at its next poll within the deadline if and only if no other waiter's poll in between has pruned its id |
| LocalProgress.AnsweredCallEnds | lib/rjr/nodes/local.rb:83-123 | a call that is answered while it waits ends with its own outcome at its next poll within the deadline, whatever other calls, polls and answers come in between |
| LocalProgress.LostForever | lib/rjr/node.rb:271-296 | a call whose answer was dropped never returns and never fails with it in any continuation of any run, and without a timeout never ends |
| LocalProgress.EarlyAnswerIsLost | lib/rjr/node.rb:274-286 | for every handler and no timeout, a run of two calls after which the first, though answered, never ends whatever follows |
| TaggedLoops.ConvertObjToJrObj | site/jrw.js:81-96 | overwriting a copy's properties in any order yields the wrapped object, and fails exactly if some property cannot be wrapped |
| TaggedLoops.ConvertArrayToJrArray | site/jrw.js:117-127 | the loop wraps item by item and throws at the first array in the array |
| TaggedLoops.ConvertObjFromJrObj | site/jrw.js:99-114 | overwriting a copy's properties in any order yields the unwrapped object |
| TaggedLoops.ConvertArrayFromJrArray | site/jrw.js:130-140 | the loop unwraps item by item, nested arrays included |
| TaggedLoops.ConvertParamList | site/jrw.js:63-78 | the loop converts parameter by parameter, nested arrays included |
| TaggedLoops.ParseObj | site/jrw.js:178-192 | filling the result property by property in any order yields the parsed object |
| TaggedLoops.ParseList | site/jrw.js:196-208 | the loop parses item by item, nested arrays included |
| TaggedProofs.ComesBackIffFaithful | site/jrw.js:81-140 | unwrapping undoes wrapping on exactly the values with no `data` in a tagged object, no array in an array, no `length` in an untagged object and no tag that unwrapping would change, as far as the conversion looks |
| TaggedProofs.TagDecides | site/jrw.js:20-22 | an object is wrapped exactly if its tag is not null, false, zero or empty |
| TaggedProofs.WrapsIffConvertible | site/jrw.js:81-127 | wrapping succeeds exactly if there is no array in an array and no untagged object with a `length`, as far as the conversion looks |
| TaggedProofs.UnwrapMeans | site/jrw.js:99-114 | any wrapper unwraps to its other properties and those of its `data`, which win, each unwrapped in turn, without `data` |
| TaggedProofs.UnwrapMeansInPlace | site/jrw.js:99-114 | without `data` that counts as true every property is kept and unwrapped in turn |
| TaggedProofs.ParseMeans | site/jrw.js:178-192 | any wrapper parses to its tag and the parsed properties of its `data`, and its other properties are dropped |
| TaggedProofs.ParseMeansTag | site/jrw.js:178-192 | a wrapper with nothing in it parses to its tag alone |
| TaggedProofs.UnwrapsToItselfIff | site/jrw.js:99-140 | unwrapping leaves a value alone exactly if no tagged object in it has `data` that counts as true and no untagged one a `length`, as far as the conversion looks |
| TaggedProofs.WrappingDiffers | site/jrw.js:94-95 | no tagged object is its own wrapping |
| TaggedProofs.WrapsToItselfIff | site/jrw.js:117-127 | an array is unchanged by wrapping exactly if it holds nothing that is wrapped or refused |
| TaggedProofs.ObjectParsesBackIff | site/jrw.js:178-192 | a tagged object is parsed back from its wrapping exactly if its array fields hold only values left alone, with the exception that line 186 makes for a field `data` beside a `length` |
| TaggedProofs.ParamsParseBackIff | site/jrw.js:143-208 | parsing undoes `convert_params` on exactly the parsable parameter lists |
| TaggedProofs.NestedArrayThrows | site/jrw.js:122-123 | a tagged object with an array in an array cannot be wrapped |
| TaggedProofs.ArrayStaysWrapped | site/jrw.js:184-189 | a tagged object in an array field of a tagged object comes out of parsing still wrapped |
| WsNode.WsNode.constructor | site/jrw.js:250-258 | a new client is the machine's initial state |
| WsNode.WsNode.OpenSocket | site/jrw.js:262-272 | a step of the machine: a socket is created unless one is being opened |
| WsNode.WsNode.OnOpen | site/jrw.js:306-317 | a step of the machine: the loop sends every request in the table, in order |
| WsNode.WsNode.OnMessage | site/jrw.js:278-299 | a step of the machine; it throws exactly for an id that no request in the table has |
| WsNode.WsNode.InvokeRequest | site/jrw.js:328-338 | a step of the machine: the request is stored, and sent at once exactly if the node has opened and no new socket is connecting; it throws exactly if it has opened and one is |
| WsNode.EachRequestSentOnce | site/jrw.js:260-338 | in every run that creates one socket, calls of `open` while it connects included, once the socket has opened the requests sent are exactly those invoked, each once and in order |
| WsNode.NoCallbackFiresTwice | site/jrw.js:260-338 | in every run, reopenings included, no callback fires twice, and only for invoked requests |
| WsNode.SentUnlessTaken | site/jrw.js:260-338 | in every run an invoked request is sent or still in the table if and only if no message with its id took it out before it was sent; while the node is open with no socket connecting, it is sent if and only if that did not happen |
| WsNode.SentOnceIff | site/jrw.js:306-338 | in every run no request is sent twice if and only if no opening of a socket finds in the table a request that was sent before |
| WsNode.CallbackNeedsItsMessage | site/jrw.js:278-299 | a callback fires only for a message with the id of its own stored request, which is then gone |
| WsNode.MessageFiresItsCallback | site/jrw.js:278-291 | in every run a message with the id of a stored request, wherever it is in the table, takes exactly that request out and calls its callback if it has one |
| WsNode.FiredIff | site/jrw.js:278-291 | in every run a callback has been called if and only if a message with its id arrived while its request was in the table |
| WsNode.ReopeningSendsAgain | site/jrw.js:306-317 | a run with two openings in which a request is sent twice |
| WsNode.ReopeningDelays | site/jrw.js:262-338 | a run in which a request invoked on an open node stays unsent because a second socket is connecting |
| WsNode.AnsweredBeforeSent | site/jrw.js:278-317 | a run in which such a request is never sent, because a message with its id comes first |
| Arguments.Validate | lib/rjr/util/args.rb:45-63 | the hash form passes if and only if the arguments are a prefix of what `extract` yields, group after group |
| Arguments.Extract | lib/rjr/util/args.rb:93-118 | the nested loops yield the groups of the specification |
| Arguments.AcceptsIffPrefix | lib/rjr/util/args.rb:45-118 | from every index the two walks agree: accepted exactly if the rest is a prefix of the groups extracted from there |
| Arguments.GroupShapes | lib/rjr/util/args.rb:93-118 | every group starts with a key and has as many further values as the key's number |
| Arguments.ExtractIsGroups | lib/rjr/util/args.rb:93-118 | the indexed walk drops what is no key and cuts off each key with its values, with nils for those that are missing |
| Arguments.AcceptedAreGrouped | lib/rjr/util/args.rb:45-118 | the groups of an accepted list, one after the other, are the list followed by nils only |
| Arguments.AcceptsAsDocumentedIff | lib/rjr/util/args.rb:34-63 | the code accepts exactly the lists that the documented comparison of texts accepts and in which every key is a string |
| Arguments.ExtractsAsDocumentedIff | lib/rjr/util/args.rb:86-118 | the code extracts the groups that the documented comparison yields if and only if every argument taken for a key is a string |
| Arguments.NumberIsNoKey | lib/rjr/util/args.rb:56-62 | a number that spells a key is accepted as documented and rejected by the code |

## Left out

- Ruby's JSON parsing and printing: messages are modelled as parsed objects. The text of a Ruby node's messages is not modelled.
- The reader has no insignificant whitespace and no surrogate escapes, since the printer emits neither; numbers are opaque text.
- site/json.js uses the browser's own `JSON.stringify` where there is one; dates, `undefined`, functions and `toJSON` properties are not printed in the model.
- PoolObject.WorkerPool.CheckWorkers: one pass without interruption; what a pass interleaved with workers takes out of the running queue is stated by `PoolProofs.LeavesPoolIff`.
- PoolObject.WorkerPool.Start: after `stop` only once the manager has ended, as `join` arranges; `start` and `stop` are single steps, and a killed thread stops at once.
- The pool without a timeout (the code sets 10 seconds if none is configured), and handlers that submit jobs or stop the pool from inside.
- Correlation.Node.PollOnce: waiting on the condition variable is modelled as further polls at any later time, so wake-ups and the wait interval are not modelled.
- Exceptions in responses are compared by their text.
- Symbols as header names and as arguments of `invoke`; the JavaScript client's own header table.
- TaggedLoops.ConvertObjToJrObj: an untagged object with a `length` property, which the code takes for an array, has no result in the model, because the array it becomes is no JSON data.
- TaggedLoops.ConvertObjFromJrObj: the same, and `data` that is an array or a string that is not empty, whose indices the code copies as properties.
- TaggedLoops.ConvertArrayFromJrArray: the same for an untagged item with a `length` property.
- TaggedLoops.ConvertParamList: the same for an untagged parameter with a `length` property.
- TaggedLoops.ParseObj: the same for `data` that is an array or a string that is not empty.
- TaggedLoops.ParseList: the same for an untagged item with a `length` property.
- WsNode.WsNode.OnMessage: the callback does not call back into the node; error callbacks, `message_received`, closing and failing sockets are not modelled, and sent means given to the socket.
- Arguments.Validate: the list form of `validate!`, and the conversion of the table's keys to strings, which is done beforehand.
- `env` and `env_for` of the dispatcher, which repeat `handle` and `handler_for`.
- JSON class validation and nested class creation in lib/rjr/util/json_parser.rb.
- The AMQP, WebSocket, web, TCP and Unix transports beyond framing, compressed messages, `HttpNode`, logging, inspection and the command line tools.
