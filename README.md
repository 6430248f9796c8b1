# Robot command relay: a verified model of its decision logic

The relay connects a message broker, used to talk to mobile robots, with an
HTTP command backend. It runs two loops.

- The **feedback relay** reads each event the broker delivers. It decodes
  the payload of an incoming publish as `RobotFeedback` and routes it by topic.
  A message on `robot/put` leads to `POST /commands/{tag_id}/complete`. A message
  on `robot/feedback` leads to `POST /robot/feedback` with the decoded body.
  Any other event leads to no call.
- The **dispatch cycle** fetches the pending commands. For each one, in
  order, it publishes `{tag_id, floor}` on `robot/commands` and then posts
  `/commands/{id}/complete`. The first failing call panics the loop, which ends
  the cycle.

The model keeps the decisions: which calls are made, with what arguments
and in what order. Each call becomes an abstract `Action`: `Publish(topic,
payload)`, `PostComplete(pathId)` or `PostFeedback(body)`. A run of either
loop becomes a trace of such actions.

Files:

- `wrappers.dfy`: `Option`.
- `messages.dfy`: the records `MqttCommand`, `DbCommand` and `RobotFeedback`, the
  three topic names, `Action`, and the projection of a command onto its wire
  message.
- `relay.dfy`: routing of one event (`Route`), the same routing as a topic
  table (`Classify`, `Handle`), the relay over a stream of polls (`Relay`), and
  the loop that computes it (`RunRelay`).
- `dispatch.dfy`: one dispatch cycle (`RunCycle`) and the functions that
  specify it. `BatchActions` gives the calls of a batch in which nothing
  fails. `FirstFailure` gives the first failing command. `CycleTrace` and
  `CycleEnd` give the calls that take effect and how the cycle ends.

Inputs that the real program gets from the outside are parameters of the model:

- `decode`: the JSON decoder, a pure function from payload bytes to
  `Option<RobotFeedback>`.
- `fetched`: the decoded answer to `GET /commands/pending`. It is `None` when
  the request or its body fails.
- `publishOk(i)` and `completeOk(i)`: whether the publish and the completion
  call of the i-th command return Ok (see below for what that means).
- `forwardOk(n)`: whether the n-th forward of the relay succeeds.

The two traces mean slightly different things:

- The dispatch trace lists the calls that the client reported as Ok. The
  first call reported as an error is left out, and so is everything after
  it. `CycleOutcome` names the failing call. A `Publish` in the trace means
  the message was queued on the broker client, not that it reached the
  broker. A `PostComplete` means the request got an answer, which may be a
  non-2xx rejection.
- The relay trace lists the requests the relay issues. The source only logs
  their outcome, so the trace cannot depend on `forwardOk`. That is how the
  model shows that a failed forward never stops later events.

The `robot/put` handler marks complete the command named by the feedback's
`tag_id`, not by a command id. The model reproduces this as written
(`RoutePut`). The dispatch cycle completes by the command's `id`
(`CycleActionAt`). These two sit side by side in the model.

`publishOk(i)` is false exactly when `publish` returns an error
(src/main.rs:102-105). `completeOk(i)` is false exactly when `send()` returns
an error (src/main.rs:108-112). `send()` reports transport failures as errors
but returns Ok for a non-2xx status, so the loop only panics on a transport
failure. A completion that the backend rejects with a non-2xx status counts
as a success here, as it does in the source: `completeOk(i)` is true and the
loop goes on. The same holds for the relay's forwards, whose outcome is only
logged.

## Model

| member | source | states |
|---|---|---|
| `Relay.Route` | src/main.rs:43-78 | one event leads to at most one call, and never to a publish |
| `Relay.RouteIsTableLookup` | src/main.rs:43-78 | the two topic tests are one lookup in the table `robot/put` → completion, `robot/feedback` → forward, other topics → nothing; non-publish events and undecodable payloads lead to nothing |
| `Relay.RoutePut` | src/main.rs:49-60 | a decodable `robot/put` message yields exactly `[PostComplete(feedback.tag_id)]`: a completion keyed by the tag id and no feedback forward |
| `Relay.RouteFeedback` | src/main.rs:61-74 | a decodable `robot/feedback` message yields exactly one `PostFeedback` carrying the decoded tag and floor unchanged, and no completion |
| `Relay.RouteSilentIff` | src/main.rs:43-78 | an event leads to no call if and only if it is not an incoming publish, its payload does not decode, or its topic is neither inbound topic |
| `Relay.Relay` | src/main.rs:42-80 | the relay over a stream of polls makes at most one call per poll and never publishes |
| `Relay.RelayConcat` | src/main.rs:42-80 | over error-free polls, the relay trace of `a + b` is the trace of `a` followed by the trace of `b`: how earlier events ended never changes how later ones are handled |
| `Relay.RelayStopsAtPollError` | src/main.rs:42 | a poll error ends the task: nothing after it is handled |
| `Relay.RelayStep` | src/main.rs:42-80 | handling a successful poll adds that event's calls in front of the calls of the rest of the stream |
| `Relay.RunRelay` | src/main.rs:42-80 | the loop's trace equals `Relay` whatever the forward outcomes, and it stops exactly at the first poll error |
| `Dispatch.FirstFailureFrom` | src/main.rs:102-112 | the first command from a position on whose publish or completion fails (or the batch length): everything before it succeeds, and it fails |
| `Dispatch.FirstFailureIs` | src/main.rs:102-112 | the first failure is determined uniquely by the oracles |
| `Dispatch.BatchActionsAppend` | src/main.rs:93-115 | the failure-free calls of a concatenated batch are the calls of its parts in order |
| `Dispatch.BatchActionsShape` | src/main.rs:93-115 | a failure-free batch of N commands makes 2N calls: at 2i the publish of command i on `robot/commands` with exactly its tag and floor, at 2i+1 the completion of its `id` |
| `Dispatch.CycleFullBatch` | src/main.rs:93-115 | with no induced failure the cycle makes every call of the batch (2N of them) and ends normally |
| `Dispatch.CycleEmptyBatch` | src/main.rs:93 | an empty batch makes no publish and no completion, and the cycle ends normally |
| `Dispatch.CycleFetchFails` | src/main.rs:86-91 | a failed fetch makes no call, and the loop panics |
| `Dispatch.CyclePublishAbort` | src/main.rs:102-105 | when the publish of command k is the first failure, the trace is exactly the full calls of commands 0..k-1 (2k calls), and the cycle ends with that publish failure |
| `Dispatch.CycleCompleteAbort` | src/main.rs:107-112 | when the completion of command k is the first failure, the trace is the full calls of commands 0..k-1 plus the publish of command k (2k+1 calls), with no completion for it |
| `Dispatch.CycleIsPrefix` | src/main.rs:93-115 | whatever fails, the calls that take effect are a prefix of the failure-free calls: in batch order, nothing past the failing command |
| `Dispatch.CycleActionAt` | src/main.rs:94-112 | every call of any cycle is the one its position dictates: publish of command i with its tag and floor on `robot/commands`, or completion by command i's `id` |
| `Dispatch.RunCycle` | src/main.rs:86-115 | the loop's trace and outcome are `CycleTrace` and `CycleEnd` of its inputs |

## Left out

- Broker session setup, the two subscriptions and the client options (src/main.rs:29-38). This is network I/O through the MQTT library. The event stream is an input sequence of polls.
- The concurrency between the spawned relay task and the dispatch loop. They are modelled as two independent sequential computations. They are coupled, though, through the broker client. The dispatch loop publishes through a clone of the client (src/main.rs:31, 38). Each publish only queues a request on the client's bounded channel (capacity 10), and only the relay task's `eventloop.poll()` empties that channel (src/main.rs:41-42). Once a poll error ends the relay task, the event loop is dropped and every later publish returns an error. The model abstracts this coupling into the `publishOk` oracle, which can say "fails" for any command. What it does not capture is the ordering between the queue and the broker, or the fact that publish failures follow from a poll error.
- The delays (500 ms between commands, 5 s between cycles) and the endless outer `loop`. One cycle is modelled; repeating it adds nothing that can be stated.
- JSON encoding and decoding. Decoding is the `decode` parameter. The encoded payload is the `MqttCommand` record itself. Serialising that record (the `unwrap` at line 99) cannot fail, so it has no failure path.
- What each HTTP call and publish does, and which status it returns. Each is only an action plus a success flag from an oracle.
- Logging, the backend URL and the broker address.
