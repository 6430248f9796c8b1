/**
 * The feedback relay task (src/main.rs, lines 41-81): every event the broker
 * delivers leads to at most one backend call, chosen by the event's kind, the
 * decode result of its payload and its topic.
 */
module Relay {
  import opened Wrappers
  import opened Messages

  /** What one poll of the broker's event loop yields when it succeeds. */
  datatype Event =
    | IncomingPublish(topic: string, payload: seq<byte>)
    | OtherIncoming   // acknowledgements, pings, subscription confirmations
    | Outgoing        // notifications about packets this client sent

  /** One poll of the event loop: an event, or the error that ends the task. */
  datatype Poll = Polled(event: Event) | PollError

  /** Payload decoding (JSON into `RobotFeedback`) is a pure function of the bytes. */
  type Decoder = seq<byte> -> Option<RobotFeedback>

  /**
   * The handling of one event, written as the source writes it: two
   * independent topic tests after a successful decode.
   */
  function Route(event: Event, decode: Decoder): (r: seq<Action>)
    ensures |r| <= 1
    ensures forall a :: a in r ==> !a.Publish?
  {
    match event
    case IncomingPublish(topic, payload) =>
      (match decode(payload)
       case None => []
       case Some(feedback) =>
         (if topic == PutTopic then [PostComplete(feedback.tagId)] else [])
         + (if topic == FeedbackTopic then [PostFeedback(feedback)] else []))
    case _ => []
  }

  /** The relay's topic namespace as an explicit table. */
  datatype Inbound = Put | Feedback | Unhandled

  function Classify(topic: string): Inbound {
    if topic == PutTopic then Put
    else if topic == FeedbackTopic then Feedback
    else Unhandled
  }

  function Handle(kind: Inbound, feedback: RobotFeedback): seq<Action> {
    match kind
    case Put => [PostComplete(feedback.tagId)]
    case Feedback => [PostFeedback(feedback)]
    case Unhandled => []
  }

  /** The two topic tests of Route amount to one lookup in the table. */
  lemma RouteIsTableLookup(event: Event, decode: Decoder)
    ensures Route(event, decode) ==
      if event.IncomingPublish? && decode(event.payload).Some?
      then Handle(Classify(event.topic), decode(event.payload).value)
      else []
  {
  }

  /**
   * A decodable message on `robot/put` marks complete the command named by
   * the feedback's TAG id (as the source does), and nothing else is called.
   */
  lemma RoutePut(payload: seq<byte>, decode: Decoder)
    requires decode(payload).Some?
    ensures Route(IncomingPublish(PutTopic, payload), decode)
         == [PostComplete(decode(payload).value.tagId)]
  {
  }

  /**
   * A decodable message on `robot/feedback` is forwarded with its tag and
   * floor unchanged, and no completion is posted.
   */
  lemma RouteFeedback(payload: seq<byte>, decode: Decoder)
    requires decode(payload).Some?
    ensures Route(IncomingPublish(FeedbackTopic, payload), decode)
         == [PostFeedback(RobotFeedback(decode(payload).value.tagId, decode(payload).value.floor))]
  {
  }

  /**
   * An event leads to no call exactly when it is not an incoming publish,
   * its payload does not decode, or its topic is neither inbound topic.
   */
  lemma RouteSilentIff(event: Event, decode: Decoder)
    ensures Route(event, decode) == [] <==>
      !event.IncomingPublish? || decode(event.payload).None?
      || (event.topic != PutTopic && event.topic != FeedbackTopic)
  {
  }

  /**
   * The calls of the relay task over a stream of polls: the calls of each
   * event in turn, until the first poll error ends the task.
   */
  function Relay(polls: seq<Poll>, decode: Decoder): (r: seq<Action>)
    ensures |r| <= |polls|
    ensures forall a :: a in r ==> !a.Publish?
  {
    if polls == [] then []
    else match polls[0]
      case PollError => []
      case Polled(event) => Route(event, decode) + Relay(polls[1..], decode)
  }

  /** No poll in `polls` is an error. */
  predicate AllPolled(polls: seq<Poll>) {
    forall i :: 0 <= i < |polls| ==> polls[i].Polled?
  }

  /**
   * Events are handled independently: however an event was handled (ignored,
   * dropped as undecodable, forwarded), the events after it are handled as
   * if they came first.
   */
  lemma {:induction false} RelayConcat(a: seq<Poll>, b: seq<Poll>, decode: Decoder)
    requires AllPolled(a)
    ensures Relay(a + b, decode) == Relay(a, decode) + Relay(b, decode)
  {
    if a == [] {
      assert a + b == b;
    } else {
      assert (a + b)[0] == a[0];
      assert (a + b)[1..] == a[1..] + b;
      RelayConcat(a[1..], b, decode);
    }
  }

  /** A poll error ends the task: nothing after it is handled. */
  lemma {:induction false} RelayStopsAtPollError(a: seq<Poll>, b: seq<Poll>, decode: Decoder)
    requires AllPolled(a)
    ensures Relay(a + [PollError] + b, decode) == Relay(a, decode)
  {
    RelayConcat(a, [PollError] + b, decode);
    assert a + [PollError] + b == a + ([PollError] + b);
  }

  /** One step of the relay: the suffix from a successful poll unfolds once. */
  lemma RelayStep(polls: seq<Poll>, i: nat, decode: Decoder)
    requires i < |polls| && polls[i].Polled?
    ensures Relay(polls[i..], decode) == Route(polls[i].event, decode) + Relay(polls[i + 1..], decode)
  {
    assert polls[i..][0] == polls[i];
    assert polls[i..][1..] == polls[i + 1..];
  }

  /**
   * The relay loop (`while let Ok(event) = eventloop.poll()`): handles each
   * successful poll in turn and stops at the first poll error. The backend's
   * answer to each forward is given by `forwardOk` (call number to success);
   * the source only logs it, so it cannot change what is called afterwards.
   */
  method RunRelay(polls: seq<Poll>, decode: Decoder, forwardOk: nat -> bool)
    returns (trace: seq<Action>, handled: nat)
    ensures trace == Relay(polls, decode)
    ensures handled <= |polls|
    ensures forall i :: 0 <= i < handled ==> polls[i].Polled?
    ensures handled < |polls| ==> polls[handled].PollError?
  {
    trace, handled := [], 0;
    var calls := 0;
    while handled < |polls| && polls[handled].Polled?
      invariant handled <= |polls|
      invariant forall i :: 0 <= i < handled ==> polls[i].Polled?
      invariant trace + Relay(polls[handled..], decode) == Relay(polls, decode)
    {
      var actions := Route(polls[handled].event, decode);
      if actions != [] {
        // the outcome feeds only the log lines at src/main.rs:56-59 and
        // 70-73, so the trace cannot depend on it
        var delivered := forwardOk(calls);
        calls := calls + 1;
      }
      RelayStep(polls, handled, decode);
      trace := trace + actions;
      handled := handled + 1;
    }
  }
}
