/**
 * One command dispatch cycle (src/main.rs, lines 86-115): the fetched batch
 * is walked in order; each command is published on `robot/commands` and then
 * marked complete; the first failing call aborts the cycle.
 */
module Dispatch {
  import opened Wrappers
  import opened Messages

  /** How a cycle ends. Every outcome but Drained is a panic of the loop. */
  datatype CycleOutcome =
    | Drained                         // every command published and completed
    | FetchFailed                     // `GET /commands/pending` or its body failed
    | PublishFailed(index: nat)       // publish of command `index` failed
    | CompleteFailed(index: nat)      // completion of command `index` failed

  /** The publish of one command. */
  function PublishOf(c: DbCommand): Action {
    Publish(CommandsTopic, ToMqttCommand(c))
  }

  /** The two calls the loop body makes for one command, in order. */
  function CommandActions(c: DbCommand): seq<Action> {
    [PublishOf(c), PostComplete(c.id)]
  }

  /** The calls of a batch in which nothing fails. */
  function BatchActions(cmds: seq<DbCommand>): seq<Action> {
    if cmds == [] then [] else CommandActions(cmds[0]) + BatchActions(cmds[1..])
  }

  /** Both calls for command `j` succeed. */
  predicate Succeeds(j: nat, publishOk: nat -> bool, completeOk: nat -> bool) {
    publishOk(j) && completeOk(j)
  }

  /**
   * The position of the first command, from `from` on, whose publish or
   * completion fails; `n` when all of them succeed.
   */
  function FirstFailureFrom(from: nat, n: nat, publishOk: nat -> bool, completeOk: nat -> bool): (k: nat)
    requires from <= n
    ensures from <= k <= n
    ensures forall j :: from <= j < k ==> Succeeds(j, publishOk, completeOk)
    ensures k < n ==> !Succeeds(k, publishOk, completeOk)
    decreases n - from
  {
    if from == n || !Succeeds(from, publishOk, completeOk) then from
    else FirstFailureFrom(from + 1, n, publishOk, completeOk)
  }

  function FirstFailure(n: nat, publishOk: nat -> bool, completeOk: nat -> bool): nat {
    FirstFailureFrom(0, n, publishOk, completeOk)
  }

  /**
   * The calls one cycle makes that take effect: the full calls of every
   * command before the first failure, and, when it is the completion that
   * fails, the publish of that command. Nothing when the fetch fails.
   */
  function CycleTrace(fetched: Option<seq<DbCommand>>, publishOk: nat -> bool, completeOk: nat -> bool): seq<Action> {
    match fetched
    case None => []
    case Some(cmds) =>
      var k := FirstFailure(|cmds|, publishOk, completeOk);
      BatchActions(cmds[..k]) + (if k < |cmds| && publishOk(k) then [PublishOf(cmds[k])] else [])
  }

  /** How one cycle ends. */
  function CycleEnd(fetched: Option<seq<DbCommand>>, publishOk: nat -> bool, completeOk: nat -> bool): CycleOutcome {
    match fetched
    case None => FetchFailed
    case Some(cmds) =>
      var k := FirstFailure(|cmds|, publishOk, completeOk);
      if k == |cmds| then Drained
      else if publishOk(k) then CompleteFailed(k)
      else PublishFailed(k)
  }

  lemma {:induction false} BatchActionsAppend(a: seq<DbCommand>, b: seq<DbCommand>)
    ensures BatchActions(a + b) == BatchActions(a) + BatchActions(b)
  {
    if a == [] {
      assert a + b == b;
    } else {
      assert (a + b)[0] == a[0];
      assert (a + b)[1..] == a[1..] + b;
      BatchActionsAppend(a[1..], b);
    }
  }

  /**
   * A batch in which nothing fails makes 2N calls: for every command, in batch
   * order, its publish (on `robot/commands`, with exactly its tag and floor)
   * immediately followed by the completion of its `id`.
   */
  lemma {:induction false} BatchActionsShape(cmds: seq<DbCommand>)
    ensures |BatchActions(cmds)| == 2 * |cmds|
    ensures forall i :: 0 <= i < |cmds| ==>
      BatchActions(cmds)[2 * i] == Publish(CommandsTopic, MqttCommand(cmds[i].tagId, cmds[i].floor))
      && BatchActions(cmds)[2 * i + 1] == PostComplete(cmds[i].id)
  {
    if cmds != [] {
      BatchActionsShape(cmds[1..]);
      forall i | 0 < i < |cmds|
        ensures BatchActions(cmds)[2 * i] == BatchActions(cmds[1..])[2 * (i - 1)]
        ensures BatchActions(cmds)[2 * i + 1] == BatchActions(cmds[1..])[2 * (i - 1) + 1]
      {
      }
    }
  }

  /** With no induced failure the cycle drains the whole batch. */
  lemma CycleFullBatch(cmds: seq<DbCommand>, publishOk: nat -> bool, completeOk: nat -> bool)
    requires forall j :: 0 <= j < |cmds| ==> Succeeds(j, publishOk, completeOk)
    ensures CycleTrace(Some(cmds), publishOk, completeOk) == BatchActions(cmds)
    ensures CycleEnd(Some(cmds), publishOk, completeOk) == Drained
    ensures |CycleTrace(Some(cmds), publishOk, completeOk)| == 2 * |cmds|
  {
    assert cmds[..|cmds|] == cmds;
    BatchActionsShape(cmds);
  }

  /** An empty batch: no publish, no completion, and the cycle ends normally. */
  lemma CycleEmptyBatch(publishOk: nat -> bool, completeOk: nat -> bool)
    ensures CycleTrace(Some([]), publishOk, completeOk) == []
    ensures CycleEnd(Some([]), publishOk, completeOk) == Drained
  {
  }

  /** A failed fetch: no publish, no completion, and the loop panics. */
  lemma CycleFetchFails(publishOk: nat -> bool, completeOk: nat -> bool)
    ensures CycleTrace(None, publishOk, completeOk) == []
    ensures CycleEnd(None, publishOk, completeOk) == FetchFailed
  {
  }

  /** The cycle's outcome names the first failure among the commands. */
  lemma FirstFailureIs(cmds: seq<DbCommand>, k: nat, publishOk: nat -> bool, completeOk: nat -> bool)
    requires k < |cmds|
    requires forall j :: 0 <= j < k ==> Succeeds(j, publishOk, completeOk)
    requires !Succeeds(k, publishOk, completeOk)
    ensures FirstFailure(|cmds|, publishOk, completeOk) == k
  {
  }

  /**
   * The publish of command k fails first: exactly the full calls of commands
   * 0..k-1 took effect, nothing for command k or after it.
   */
  lemma CyclePublishAbort(cmds: seq<DbCommand>, k: nat, publishOk: nat -> bool, completeOk: nat -> bool)
    requires k < |cmds|
    requires forall j :: 0 <= j < k ==> Succeeds(j, publishOk, completeOk)
    requires !publishOk(k)
    ensures CycleTrace(Some(cmds), publishOk, completeOk) == BatchActions(cmds[..k])
    ensures |CycleTrace(Some(cmds), publishOk, completeOk)| == 2 * k
    ensures CycleEnd(Some(cmds), publishOk, completeOk) == PublishFailed(k)
  {
    FirstFailureIs(cmds, k, publishOk, completeOk);
    BatchActionsShape(cmds[..k]);
  }

  /**
   * The completion of command k fails first: the full calls of commands
   * 0..k-1 and the publish of command k took effect, but no completion of it,
   * and nothing for the commands after it.
   */
  lemma CycleCompleteAbort(cmds: seq<DbCommand>, k: nat, publishOk: nat -> bool, completeOk: nat -> bool)
    requires k < |cmds|
    requires forall j :: 0 <= j < k ==> Succeeds(j, publishOk, completeOk)
    requires publishOk(k) && !completeOk(k)
    ensures CycleTrace(Some(cmds), publishOk, completeOk)
         == BatchActions(cmds[..k]) + [Publish(CommandsTopic, MqttCommand(cmds[k].tagId, cmds[k].floor))]
    ensures |CycleTrace(Some(cmds), publishOk, completeOk)| == 2 * k + 1
    ensures CycleEnd(Some(cmds), publishOk, completeOk) == CompleteFailed(k)
  {
    FirstFailureIs(cmds, k, publishOk, completeOk);
    BatchActionsShape(cmds[..k]);
  }

  /**
   * Whatever fails, the calls that take effect are a prefix of the failure-free
   * calls of the batch: nothing out of order, nothing for a command past the
   * failing one.
   */
  lemma CycleIsPrefix(cmds: seq<DbCommand>, publishOk: nat -> bool, completeOk: nat -> bool)
    ensures CycleTrace(Some(cmds), publishOk, completeOk) <= BatchActions(cmds)
  {
    var k := FirstFailure(|cmds|, publishOk, completeOk);
    assert cmds == cmds[..k] + cmds[k..];
    BatchActionsAppend(cmds[..k], cmds[k..]);
    if k < |cmds| {
      assert cmds[k..][0] == cmds[k];
    }
  }

  /**
   * Every call of a cycle, whatever fails, is the one the batch order puts at
   * its position: at 2i the publish of command i on `robot/commands` with its
   * tag and floor, at 2i+1 the completion of command i by its `id` (not its tag).
   */
  lemma CycleActionAt(cmds: seq<DbCommand>, publishOk: nat -> bool, completeOk: nat -> bool, n: nat)
    requires n < |CycleTrace(Some(cmds), publishOk, completeOk)|
    ensures n / 2 < |cmds|
    ensures CycleTrace(Some(cmds), publishOk, completeOk)[n] ==
      if n % 2 == 0 then Publish(CommandsTopic, MqttCommand(cmds[n / 2].tagId, cmds[n / 2].floor))
      else PostComplete(cmds[n / 2].id)
  {
    CycleIsPrefix(cmds, publishOk, completeOk);
    BatchActionsShape(cmds);
    var i := n / 2;
    if n % 2 == 0 { assert n == 2 * i; } else { assert n == 2 * i + 1; }
  }

  /**
   * One dispatch cycle. `fetched` is the decoded answer to
   * `GET /commands/pending` (None when the request or its body fails);
   * `publishOk(i)` and `completeOk(i)` say whether the publish and the
   * completion call for the i-th command of the batch succeed. The trace
   * lists the calls that took effect, in order.
   */
  method RunCycle(fetched: Option<seq<DbCommand>>, publishOk: nat -> bool, completeOk: nat -> bool)
    returns (trace: seq<Action>, outcome: CycleOutcome)
    ensures trace == CycleTrace(fetched, publishOk, completeOk)
    ensures outcome == CycleEnd(fetched, publishOk, completeOk)
  {
    if fetched.None? {
      return [], FetchFailed;
    }
    var cmds := fetched.value;
    trace := [];
    for i := 0 to |cmds|
      invariant forall j :: 0 <= j < i ==> Succeeds(j, publishOk, completeOk)
      invariant trace == BatchActions(cmds[..i])
    {
      var cmd := cmds[i];
      var message := MqttCommand(cmd.tagId, cmd.floor);
      if !publishOk(i) {
        FirstFailureIs(cmds, i, publishOk, completeOk);
        return trace, PublishFailed(i);
      }
      trace := trace + [Publish(CommandsTopic, message)];
      if !completeOk(i) {
        FirstFailureIs(cmds, i, publishOk, completeOk);
        return trace, CompleteFailed(i);
      }
      trace := trace + [PostComplete(cmd.id)];
      assert cmds[..i + 1] == cmds[..i] + [cmd];
      BatchActionsAppend(cmds[..i], [cmd]);
    }
    assert cmds[..|cmds|] == cmds;
    outcome := Drained;
  }
}
