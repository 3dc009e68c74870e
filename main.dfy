/** The webhook endpoint's decision chain. A delivery names a repository, an
    event type, a signature, a delivery id and (maybe) a ref. The checks run
    in a fixed order (repository, event, signature, ref) and the first that
    fails decides the response; a request that passes them all puts exactly
    one task on the queue, unless the queue is full. The configuration is
    read, never written. */
module Main {
  import opened Models
  import opened Util
  import opened TaskHandler

  /** The request headers the endpoint reads. */
  datatype Headers = Headers(event: string, signature: Option<string>, delivery: string)

  /** The part of the JSON body the endpoint reads. */
  datatype Payload = Payload(repoFullName: string, ref: Option<string>)

  datatype Response = Response(status: int, message: string)

  const RootMessage := "This is an autodeploy API webhook endpoint, really nothing interesting."

  /** GET: the same text, with status 200, whatever the request. */
  function ReadRoot(): (r: Response)
    ensures r.status == 200 && r.message == RootMessage
  {
    Response(200, RootMessage)
  }

  function RepoUndefinedMessage(repoName: string): string
  {
    "repository: {full_name}: \"" + repoName + "\"\nRepository name with undefined behavior"
  }

  function EventUndefinedMessage(event: string): string
  {
    "X-GitHub-Event: \"" + event + "\"\nEvent type with undefined behavior"
  }

  const SignatureMessage := "Hash does not match or invalid - violation reported"

  /** How a ref is written into a message; an absent one reads "None". */
  function RefText(ref: Option<string>): string
  {
    if ref.None? then "None" else ref.value
  }

  function RefMessage(ref: Option<string>, event: string): string
  {
    "Ref '" + RefText(ref) + "' not associated with '" + event + "' event task"
  }

  function AddedMessage(uuid: string, repoName: string): string
  {
    "Task " + uuid + " - " + repoName + " - added to queue"
  }

  const QueueFullMessage := "Task queue is full"

  /** The ref filter: a script runs only for refs it lists. A script without a
      list runs for none, and a delivery without a ref matches no list. */
  predicate RefSelected(refs: Option<set<string>>, ref: Option<string>)
  {
    refs.Some? && ref.Some? && ref.value in refs.value
  }

  /** Both lookups succeed: the repository is configured, and so is the event
      for it. */
  predicate Routed(config: Config, headers: Headers, payload: Payload)
  {
    payload.repoFullName in config.repos &&
    headers.event in config.repos[payload.repoFullName].events
  }

  /** The script the lookups resolve to. */
  function RoutedScript(config: Config, headers: Headers, payload: Payload): Script
    requires Routed(config, headers, payload)
  {
    config.repos[payload.repoFullName].events[headers.event]
  }

  /** The message of the `TypeError` that `hmac.compare_digest` raises when
      one of two strings holds a character outside ASCII. */
  const CompareDigestError := "comparing strings with non-ASCII characters is not supported"

  /** The outcome of the checks: a response that ends the request, a task to
      put on the queue, or an exception that escapes the handler. */
  datatype Decision = Respond(response: Response) | Enqueue(task: Task) | Raise(error: string)

  function Decide(config: Config, mac: Mac, body: seq<byte>, headers: Headers, payload: Payload): (d: Decision)
    ensures d.Enqueue? <==>
      Routed(config, headers, payload) &&
      VerifySignature(mac, body, config.repos[payload.repoFullName].secret, headers.signature) == Accepted &&
      RefSelected(RoutedScript(config, headers, payload).refs, payload.ref)
    ensures d.Enqueue? ==> d.task == Task(RoutedScript(config, headers, payload), headers.delivery)
    ensures d.Raise? <==>
      Routed(config, headers, payload) && headers.signature.Some? && !IsAscii(headers.signature.value)
    ensures d.Raise? ==> d.error == CompareDigestError
    ensures d.Respond? ==> d.response.status in {200, 400, 403}
  {
    var repoName := payload.repoFullName;
    if repoName !in config.repos then
      Respond(Response(400, RepoUndefinedMessage(repoName)))
    else
      var repo := config.repos[repoName];
      if headers.event !in repo.events then
        Respond(Response(400, EventUndefinedMessage(headers.event)))
      else
        match VerifySignature(mac, body, repo.secret, headers.signature)
        case RaisesTypeError => Raise(CompareDigestError)
        case Refused => Respond(Response(403, SignatureMessage))
        case Accepted =>
          var script := repo.events[headers.event];
          if !RefSelected(script.refs, payload.ref) then
            Respond(Response(200, RefMessage(payload.ref, headers.event)))
          else
            Enqueue(Task(script, headers.delivery))
  }

  /** How a POST ends: the handler returns a response, or an exception leaves
      it (the web framework then answers on its own). */
  datatype Reply = Answer(response: Response) | Raised(error: string)

  /** POST: the reply and the queue contents afterwards, given the queue's
      contents before. The queue's bound is the configured one. At most one
      task is added, at the tail, and only when every check has passed. */
  function PostOutcome(config: Config, mac: Mac, body: seq<byte>, headers: Headers, payload: Payload,
                       items: seq<Task>): (r: (Reply, seq<Task>))
    ensures r.1 == items ||
      (Routed(config, headers, payload) &&
       r.1 == items + [Task(RoutedScript(config, headers, payload), headers.delivery)])
    ensures r.1 != items ==>
      Decide(config, mac, body, headers, payload).Enqueue? && !IsFull(items, config.maxQueueLength) &&
      r.0 == Answer(Response(200, AddedMessage(headers.delivery, payload.repoFullName)))
    ensures r.0.Raised? <==> Decide(config, mac, body, headers, payload).Raise?
  {
    match Decide(config, mac, body, headers, payload)
    case Respond(response) => (Answer(response), items)
    case Raise(error) => (Raised(error), items)
    case Enqueue(task) =>
      if IsFull(items, config.maxQueueLength) then (Answer(Response(400, QueueFullMessage)), items)
      else (Answer(Response(200, AddedMessage(task.uuid, payload.repoFullName))),
            AfterPut(items, config.maxQueueLength, task))
  }

  /** The POST handler: the checks in order, each returning early, then one
      non-waiting put on the queue built from the configured bound. */
  method WriteRoot(queue: TaskQueue, config: Config, mac: Mac, body: seq<byte>,
                   headers: Headers, payload: Payload) returns (reply: Reply)
    requires queue.Valid()
    requires queue.maxsize == config.maxQueueLength
    modifies queue
    ensures queue.Valid()
    ensures (reply, queue.items) == PostOutcome(config, mac, body, headers, payload, old(queue.items))
    ensures queue.served == old(queue.served) && queue.completed == old(queue.completed)
  {
    var repoName := payload.repoFullName;
    if repoName !in config.repos {
      return Answer(Response(400, RepoUndefinedMessage(repoName)));
    }
    var repoConfig := config.repos[repoName];
    if headers.event !in repoConfig.events {
      return Answer(Response(400, EventUndefinedMessage(headers.event)));
    }
    var verdict := VerifySignature(mac, body, repoConfig.secret, headers.signature);
    if verdict == RaisesTypeError {
      return Raised(CompareDigestError);
    }
    if verdict == Refused {
      return Answer(Response(403, SignatureMessage));
    }
    var script := repoConfig.events[headers.event];
    var uuid := headers.delivery;
    if script.refs.None? || payload.ref.None? || payload.ref.value !in script.refs.value {
      return Answer(Response(200, RefMessage(payload.ref, headers.event)));
    }
    var ok := queue.PutNowait(Task(script, uuid));
    if ok {
      reply := Answer(Response(200, AddedMessage(uuid, repoName)));
    } else {
      reply := Answer(Response(400, QueueFullMessage));
    }
  }

  // ---------------------------------------------------------------------
  // The outcome of each path through the checks

  /** An unknown repository gives 400, whatever the event, signature or ref. */
  lemma UnknownRepository(config: Config, mac: Mac, body: seq<byte>, headers: Headers, payload: Payload,
                          items: seq<Task>)
    requires payload.repoFullName !in config.repos
    ensures PostOutcome(config, mac, body, headers, payload, items) ==
      (Answer(Response(400, RepoUndefinedMessage(payload.repoFullName))), items)
  {
  }

  /** A known repository with an unconfigured event gives 400, whatever the
      signature: the event is looked up before the signature is checked. */
  lemma UnknownEvent(config: Config, mac: Mac, body: seq<byte>, headers: Headers, payload: Payload,
                     items: seq<Task>)
    requires payload.repoFullName in config.repos
    requires headers.event !in config.repos[payload.repoFullName].events
    ensures PostOutcome(config, mac, body, headers, payload, items) ==
      (Answer(Response(400, EventUndefinedMessage(headers.event))), items)
  {
  }

  /** Once both lookups succeed, a refused signature gives 403 and the queue
      is unchanged. */
  lemma SignatureRejected(config: Config, mac: Mac, body: seq<byte>, headers: Headers, payload: Payload,
                          items: seq<Task>)
    requires Routed(config, headers, payload)
    requires VerifySignature(mac, body, config.repos[payload.repoFullName].secret, headers.signature) == Refused
    ensures PostOutcome(config, mac, body, headers, payload, items) ==
      (Answer(Response(403, SignatureMessage)), items)
  {
  }

  /** Once both lookups succeed, a signature header with a character outside
      ASCII makes the comparison raise: no response is produced by the
      handler, nothing is queued, and the queue is unchanged. */
  lemma NonAsciiSignatureRaises(config: Config, mac: Mac, body: seq<byte>, headers: Headers, payload: Payload,
                                items: seq<Task>, i: nat)
    requires Routed(config, headers, payload)
    requires headers.signature.Some? && i < |headers.signature.value|
    requires headers.signature.value[i] >= '\U{80}'
    ensures PostOutcome(config, mac, body, headers, payload, items) == (Raised(CompareDigestError), items)
  {
  }

  /** A missing or empty signature header never gets past the check. */
  lemma MissingSignatureRejected(config: Config, mac: Mac, body: seq<byte>, headers: Headers, payload: Payload,
                                 items: seq<Task>)
    requires Routed(config, headers, payload)
    requires headers.signature.None? || headers.signature == Some("")
    ensures PostOutcome(config, mac, body, headers, payload, items) ==
      (Answer(Response(403, SignatureMessage)), items)
  {
  }

  /** A signed request whose ref the script does not list (or that has no
      list) is answered 200 and not actioned. */
  lemma RefNotSelected(config: Config, mac: Mac, body: seq<byte>, headers: Headers, payload: Payload,
                       items: seq<Task>)
    requires Routed(config, headers, payload)
    requires VerifySignature(mac, body, config.repos[payload.repoFullName].secret, headers.signature) == Accepted
    requires !RefSelected(RoutedScript(config, headers, payload).refs, payload.ref)
    ensures PostOutcome(config, mac, body, headers, payload, items) ==
      (Answer(Response(200, RefMessage(payload.ref, headers.event))), items)
  {
  }

  /** A request that passes every check is queued at the tail when there is
      room. */
  lemma TaskQueued(config: Config, mac: Mac, body: seq<byte>, headers: Headers, payload: Payload,
                   items: seq<Task>)
    requires Routed(config, headers, payload)
    requires VerifySignature(mac, body, config.repos[payload.repoFullName].secret, headers.signature) == Accepted
    requires RefSelected(RoutedScript(config, headers, payload).refs, payload.ref)
    requires !IsFull(items, config.maxQueueLength)
    ensures PostOutcome(config, mac, body, headers, payload, items) ==
      (Answer(Response(200, AddedMessage(headers.delivery, payload.repoFullName))),
       items + [Task(RoutedScript(config, headers, payload), headers.delivery)])
  {
  }

  /** ... and refused with 400 when the queue is full, which then keeps its
      contents. */
  lemma QueueFullRejected(config: Config, mac: Mac, body: seq<byte>, headers: Headers, payload: Payload,
                          items: seq<Task>)
    requires Routed(config, headers, payload)
    requires VerifySignature(mac, body, config.repos[payload.repoFullName].secret, headers.signature) == Accepted
    requires RefSelected(RoutedScript(config, headers, payload).refs, payload.ref)
    requires IsFull(items, config.maxQueueLength)
    ensures PostOutcome(config, mac, body, headers, payload, items) ==
      (Answer(Response(400, QueueFullMessage)), items)
  {
  }

  /** A request signed as its sender would sign it, for a ref its script
      lists, is queued whenever there is room. */
  lemma SignedRequestQueued(config: Config, mac: Mac, body: seq<byte>, event: string, delivery: string,
                            payload: Payload, items: seq<Task>)
    requires Routed(config, Headers(event, None, delivery), payload)
    requires RefSelected(RoutedScript(config, Headers(event, None, delivery), payload).refs, payload.ref)
    requires !IsFull(items, config.maxQueueLength)
    ensures var secret := config.repos[payload.repoFullName].secret;
      var headers := Headers(event, Some(SignaturePrefix + HexEncode(mac(secret, body))), delivery);
      PostOutcome(config, mac, body, headers, payload, items).1 ==
        items + [Task(RoutedScript(config, headers, payload), delivery)]
  {
  }

  /** A configuration that omits the queue bound never refuses a task. */
  lemma DefaultQueueUnbounded(repos: map<string, ConfigRepo>, items: seq<Task>)
    ensures !IsFull(items, Validate(repos, None).maxQueueLength)
  {
  }

  /** Under a configuration that omits the queue bound, every request that
      passes the checks is queued, however many tasks are waiting. */
  lemma DefaultConfigQueuesAll(repos: map<string, ConfigRepo>, mac: Mac, body: seq<byte>,
                               headers: Headers, payload: Payload, items: seq<Task>)
    requires Decide(Validate(repos, None), mac, body, headers, payload).Enqueue?
    ensures var config := Validate(repos, None);
      PostOutcome(config, mac, body, headers, payload, items) ==
        (Answer(Response(200, AddedMessage(headers.delivery, payload.repoFullName))),
         items + [Decide(config, mac, body, headers, payload).task])
  {
  }

  /** Two accepted requests against a fresh queue built from a configured
      bound of one, before the consumer runs: the first is queued, the second
      is told the queue is full, and the first is still the only task
      waiting. */
  method CapacityOneScenario(config: Config, mac: Mac, body: seq<byte>, headers: Headers, payload: Payload)
      returns (first: Reply, second: Reply, waiting: seq<Task>)
    requires config.maxQueueLength == 1
    requires Routed(config, headers, payload)
    requires headers.signature ==
      Some(ExpectedSignature(mac, body, config.repos[payload.repoFullName].secret))
    requires RefSelected(RoutedScript(config, headers, payload).refs, payload.ref)
    ensures first == Answer(Response(200, AddedMessage(headers.delivery, payload.repoFullName)))
    ensures second == Answer(Response(400, QueueFullMessage))
    ensures waiting == [Task(RoutedScript(config, headers, payload), headers.delivery)]
  {
    var handler := new TaskHandler(config.maxQueueLength);
    first := WriteRoot(handler.queue, config, mac, body, headers, payload);
    second := WriteRoot(handler.queue, config, mac, body, headers, payload);
    waiting := handler.queue.items;
  }
}
