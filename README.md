# Webhook autodeploy: dispatch pipeline model

A Dafny model of the core of a webhook autodeploy service. A source-control
host posts an event about a repository. The service looks up the repository
and the event type in its configuration. It checks the HMAC-SHA256 signature
of the raw body against the repository's secret, and it checks the event's ref
against the refs the configured script is registered for. It then puts a task
on a bounded first-in-first-out queue without waiting. A single consumer takes
tasks one at a time, runs the script, and logs the outcome tagged with the
delivery id.

Files, one module per source file:

- `models.dfy` (`Models`): the configuration records (`Script`, `ConfigRepo`,
  `Config`), the working-directory default applied by the validator, and the
  default queue bound. `ScriptRecord` is the record the validator updates in
  place.
- `util.dfy` (`Util`): signature verification. The hexadecimal encoding, the
  `sha256=` prefix, the empty-header rule and the exact comparison are
  concrete. HMAC-SHA256 (RFC 2104 over SHA-256 of FIPS 180-4) is abstract: it
  is the parameter `mac`, any function that returns 32 bytes.
- `task_handler.dfy` (`TaskHandler`): the bounded queue as a class
  (`TaskQueue`: waiting tasks, bound, unfinished-task counter, and a ghost
  history that makes first-in-first-out order part of its invariant). It also
  holds a trace semantics (`Replay`) for arbitrary interleavings of puts and
  gets, Python's `str.strip()` and `str.split("\n")`, and one step of the
  consumer (`TaskHandler.ConsumerStep`). The exit code and standard-error
  text of the child process are inputs of that step.
- `main.dfy` (`Main`): the GET and POST handlers. `Decide` and `PostOutcome`
  are the specification of the POST decision chain. `WriteRoot` is the handler
  itself, written as the source writes it: early returns, then one
  `put_nowait`.

Points of behaviour that the model follows exactly as `main.py` and
`task_handler.py` implement them:

- A script whose `refs` is absent is never actioned: `script.refs is None`
  short-circuits to "not associated" (main.py:101).
- A signature header with a character outside ASCII makes
  `hmac.compare_digest` raise `TypeError` (util.py:19). Nothing catches it in
  `write_root`, so the handler gives no response of its own and queues nothing.
- The repository and event lookups come before the signature check, because
  the secret belongs to the repository.
- On failure, the START/END markers are logged even when standard error is
  empty. Standard error is piped, so it is never `None`, and an empty text
  splits into one empty line.
- A full queue gives status 400.
- The queue is unbounded for any bound `<= 0`, not only 0. This is asyncio's
  `full()` test.

The source files disagree on one name. `task_handler.py` imports `Script`, but
`models.py` calls the script record `Task`. `main.py` also reads `script.refs`,
a field that record does not declare. The model has one `Script` record with
`run`, `workDir` and `refs`, as `main.py` uses it.

## Model

| member | source | states |
|---|---|---|
| `Models.Parent` | github_autodeploy/models.py:18 | `run.parent` keeps the anchor and drops exactly the last component; the root and the empty path are their own parent |
| `Models.ParentOfChild` | github_autodeploy/models.py:18 | taking the parent undoes descending into a child directory |
| `Models.WithDefaultWorkDir` | github_autodeploy/models.py:15-19 | after validation `work_dir` is never absent; an absent one becomes the parent of `run`; a given one is left unchanged; `run` and `refs` are untouched |
| `Models.CheckDirnameIdempotent` | github_autodeploy/models.py:15-19 | validating twice gives the same script as validating once |
| `Models.ScriptRecord.CheckDirname` | github_autodeploy/models.py:15-19 | the in-place validator: the record's new value is the old value with the working directory defaulted, and a working directory is set |
| `Models.ValidateRepo` | github_autodeploy/models.py:21-23 | validating a repository keeps its secret and its event names and validates each script |
| `Models.Validate` | github_autodeploy/models.py:21-27 | a validated configuration keeps every repository name, secret and event name; every script is validated, so every one has a working directory; an omitted `max_queue_length` becomes 0 |
| `Util.HexDigit` | github_autodeploy/util.py:18 | `hexdigest` writes only lowercase hexadecimal digits |
| `Util.HexEncode` | github_autodeploy/util.py:17-18 | the hex digest is twice as long as the digest and consists of lowercase hexadecimal digits only |
| `Util.DecodeEncode` | github_autodeploy/util.py:18 | decoding the hex digest gives back the digest |
| `Util.EncodeDecode` | github_autodeploy/util.py:18 | any text that decodes as lowercase hex is exactly the hex digest of what it decodes to |
| `Util.HexEncodeInjective` | github_autodeploy/util.py:18-19 | distinct digests have distinct hex digests |
| `Util.ExpectedSignature` | github_autodeploy/util.py:17-18 | the expected header is 71 ASCII characters: `sha256=` then 64 lowercase hex digits that decode to the HMAC of the body under the secret |
| `Util.VerifySignature` | github_autodeploy/util.py:4-22 | a missing or empty header is refused; a non-empty header with a character outside ASCII raises `TypeError`, and nothing else raises; the result is true exactly when the header equals the expected signature |
| `Util.CorrectSignatureAccepted` | github_autodeploy/util.py:17-22 | the header a correct sender computes, `sha256=` plus the hex HMAC, is always accepted |
| `Util.OtherDigestRejected` | github_autodeploy/util.py:17-22 | a well-formed header carrying any digest other than the HMAC of the body is refused |
| `Util.MissingPrefixRejected` | github_autodeploy/util.py:18-19 | a header that does not begin with `sha256=` is never accepted |
| `Util.UppercaseRejected` | github_autodeploy/util.py:18-19 | a header with an uppercase hex digit anywhere is never accepted |
| `Util.NonAsciiHeaderRaises` | github_autodeploy/util.py:19 | a header with any character outside ASCII makes the comparison raise `TypeError`, whatever the body and the secret |
| `Util.VerdictDependsOnlyOnDigest` | github_autodeploy/util.py:4-22 | the verdict is a function of the header and the HMAC value alone: equal HMACs give equal verdicts for every header |
| `TaskHandler.AfterPut` | github_autodeploy/task_handler.py:25 | a put on a full queue leaves it as it was; otherwise the task is appended at the tail; a queue within a positive bound stays within it |
| `TaskHandler.TaskQueue.constructor` | github_autodeploy/task_handler.py:25 | a new queue is empty, has the configured bound and no unfinished tasks |
| `TaskHandler.TaskQueue.PutNowait` | github_autodeploy/main.py:110 | succeeds exactly when the bound is `<= 0` or the size is below it; success appends at the tail and counts one more unfinished task; failure changes nothing; the bound and the ordering invariant are kept |
| `TaskHandler.TaskQueue.Get` | github_autodeploy/task_handler.py:37 | removes and returns the head of a non-empty queue, and records it as served after every task served before it |
| `TaskHandler.TaskQueue.TaskDone` | github_autodeploy/task_handler.py:50 | decrements the unfinished counter; refused, changing nothing, when it is already 0 |
| `TaskHandler.ReplayIsFifo` | github_autodeploy/task_handler.py:37 | for every interleaving of puts and gets, the tasks handed out followed by those still waiting are the initial tasks followed by the accepted ones, in order |
| `TaskHandler.ReplayWithinBound` | github_autodeploy/task_handler.py:25 | with a positive bound, no sequence of operations takes the queue beyond it |
| `TaskHandler.ReplayUnboundedAcceptsAll` | github_autodeploy/task_handler.py:25 | with bound 0, every put of every trace is accepted, in order |
| `TaskHandler.TrimStart` | github_autodeploy/task_handler.py:47 | the left half of `strip()`: only whitespace is removed from the front, and the rest does not begin with whitespace |
| `TaskHandler.TrimEnd` | github_autodeploy/task_handler.py:47 | the right half of `strip()`: only whitespace is removed from the back, and the rest does not end with whitespace |
| `TaskHandler.StripSpec` | github_autodeploy/task_handler.py:47 | `strip()` keeps a contiguous part of the text, removes only whitespace around it, and keeps no whitespace at either end |
| `TaskHandler.StripAllSpace` | github_autodeploy/task_handler.py:47 | whitespace-only standard error strips to the empty text |
| `TaskHandler.StripIdempotent` | github_autodeploy/task_handler.py:47 | stripping twice is stripping once |
| `TaskHandler.SplitLines` | github_autodeploy/task_handler.py:47 | `split("\n")` gives at least one piece and no piece contains a newline |
| `TaskHandler.JoinSplit` | github_autodeploy/task_handler.py:47 | joining the pieces with newlines gives back the text, so no standard-error text is lost |
| `TaskHandler.SplitJoin` | github_autodeploy/task_handler.py:47 | newline-free lines joined and split again are the same lines |
| `TaskHandler.ConsumerLogTagged` | github_autodeploy/task_handler.py:38-49 | every log line of a consumer step begins with `Task {uuid} - ` |
| `TaskHandler.ConsumerLogSuccess` | github_autodeploy/task_handler.py:38-42 | exit code 0 logs exactly "started processing" and "successfully completed" |
| `TaskHandler.ConsumerLogFailure` | github_autodeploy/task_handler.py:43-49 | a nonzero exit code logs "started processing", "ended with an error!", "START OF ERROR:", one line per piece of the stripped standard error, then "END OF ERROR"; those pieces joined are the stripped text |
| `TaskHandler.ConsumerLogFailureQuiet` | github_autodeploy/task_handler.py:45-49 | with empty or whitespace-only standard error the markers still appear, with one empty line between them |
| `TaskHandler.TaskHandler.constructor` | github_autodeploy/task_handler.py:19-26 | the handler starts with an empty queue of the configured bound and an empty log |
| `TaskHandler.TaskHandler.LogLines` | github_autodeploy/task_handler.py:47-48 | the loop over standard-error lines appends exactly one tagged line per line, in order |
| `TaskHandler.TaskHandler.LogFailure` | github_autodeploy/task_handler.py:44-49 | the failure branch appends exactly the tagged failure messages |
| `TaskHandler.TaskHandler.LogRun` | github_autodeploy/task_handler.py:38-49 | the log of one run is exactly the tagged messages of its outcome |
| `TaskHandler.TaskHandler.ConsumerStep` | github_autodeploy/task_handler.py:36-50 | one step takes exactly the head task, appends exactly its log lines, and marks exactly that task done, whatever the outcome; the queue keeps its invariant |
| `Main.ReadRoot` | github_autodeploy/main.py:51-57 | GET always answers status 200 with the same fixed text |
| `Main.Decide` | github_autodeploy/main.py:69-106 | a task is produced exactly when the repository and event resolve, the signature is accepted and the ref is listed; the task is the resolved script with the delivery id; the comparison's `TypeError` escapes exactly when both lookups resolve and the signature header holds a non-ASCII character; every response is a 200, 400 or 403 |
| `Main.PostOutcome` | github_autodeploy/main.py:69-120 | a request adds at most one task, at the tail, and only after every check has passed and the configured bound leaves room, with a 200 "added to queue" answer; otherwise the queue is unchanged; the handler raises exactly when the decision does |
| `Main.WriteRoot` | github_autodeploy/main.py:59-120 | on the queue built from the configured `max_queue_length` (main.py:45), the handler's reply and the queue after it are those of `PostOutcome`; the configuration is a value and is not modified; nothing is dequeued or marked done |
| `Main.UnknownRepository` | github_autodeploy/main.py:72-77 | an unknown repository gives 400 "Repository name with undefined behavior" and an unchanged queue, whatever the event, signature or ref |
| `Main.UnknownEvent` | github_autodeploy/main.py:82-87 | a known repository with an unconfigured event gives 400 "Event type with undefined behavior", whatever the signature |
| `Main.SignatureRejected` | github_autodeploy/main.py:90-95 | once both lookups resolve, a refused signature gives 403 and an unchanged queue |
| `Main.NonAsciiSignatureRaises` | github_autodeploy/main.py:90 | once both lookups resolve, a signature header with a non-ASCII character ends the handler with `TypeError`: no response of its own, no task, an unchanged queue |
| `Main.MissingSignatureRejected` | github_autodeploy/main.py:90-95 | a missing or empty signature header always ends in 403 once both lookups resolve |
| `Main.RefNotSelected` | github_autodeploy/main.py:101-106 | an absent ref list, an absent ref or an unlisted ref gives 200 "not associated" and nothing is queued |
| `Main.TaskQueued` | github_autodeploy/main.py:109-113 | when every check passes and there is room, `Task(script, delivery id)` is appended at the tail with 200 "added to queue" |
| `Main.QueueFullRejected` | github_autodeploy/main.py:114-117 | when every check passes and the queue is full, the answer is 400 "Task queue is full" and the queue is unchanged |
| `Main.SignedRequestQueued` | github_autodeploy/main.py:90-113 | a request signed with the sender's correct signature, for a listed ref, is queued whenever there is room |
| `Main.DefaultQueueUnbounded` | github_autodeploy/models.py:27 | with `max_queue_length` omitted the queue never reports itself full |
| `Main.DefaultConfigQueuesAll` | github_autodeploy/main.py:109-113 | with `max_queue_length` omitted, every request that passes the checks is queued at the tail with 200 "added to queue", however many tasks wait |
| `Main.CapacityOneScenario` | github_autodeploy/main.py:109-117 | with a configured bound of one, two accepted requests on a fresh queue get 200 "added to queue" and then 400 "Task queue is full", and only the first task waits |

A configuration holds one `ConfigRepo` per repository name and one script
per event name. The `map` types of `Config.repos` and `ConfigRepo.events`
give this by construction, so no member states it separately.

## Left out

- The web framework, routing, header and body binding and `Response` objects: requests arrive as already-parsed `Headers`, `Payload` and body bytes. An exception that leaves `write_root` is the reply `Raised`; the 500 answer the framework then sends is not modelled.
- The definitions of `Payload`, `Headers` and `Repository` are not part of this model beyond the fields `main.py` reads. `Payload.ref` is modelled as optional, and an absent ref prints as `None`.
- Reading `config.json`, exiting on a missing or invalid file, and the existence checks on `run` and `work_dir`: these are file I/O and filesystem queries.
- Logging setup, rotation and levels, and the "Response: ..." lines `write_root` logs. The consumer's log lines are modelled as the handler's `log` sequence, without levels.
- Creating the child process and waiting for it: the exit code and standard-error text are inputs of `ConsumerStep`. Decoding standard error from UTF-8 is not modelled either, because it is already text here.
- `TaskHandler.TaskHandler.ConsumerStep`: "whatever the outcome" holds only for the modelled inputs. A standard error that is not valid UTF-8 raises `UnicodeDecodeError` at task_handler.py:47, after "START OF ERROR:" is logged, so no END marker follows and `task_done` is never called. A script that fails to launch raises at task_handler.py:39 with the same effect. Either exception ends the consumer task for good, and later tasks are still accepted but never run.
- asyncio scheduling: starting the consumer with `create_task`, `get` waiting on an empty queue, and the endless loop. `Get` and `ConsumerStep` require a non-empty queue. In `Replay`, a get on an empty queue is skipped.
- Concurrency between request handlers: each `WriteRoot` call runs to completion on the queue, as it does on a single-threaded event loop.
- HMAC-SHA256 itself, and the UTF-8 encoding of the secret, are the abstract parameter `mac`. The constant-time comparison of `hmac.compare_digest` is modelled as equality plus its `TypeError` on non-ASCII text, because timing is not expressible.
- `Util.OtherDigestRejected`: it states rejection for any other digest, not for any altered body, because an abstract HMAC may map two bodies to one digest.
- `dump_config_schema.py`: it only writes the configuration's JSON schema to a file.
