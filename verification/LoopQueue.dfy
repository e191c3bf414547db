/**
 * loop/loop.go: the agent loop's queue. The sections that hold the mutex are
 * methods of Loop, each specified by a function on the loop's fields.
 */
module LoopQueue {
  import opened Options

  type Message = string
  type Runner = string

  /** run: the override of a message that is a turn of its own. */
  datatype Queued = Queued(message: Message, run: Option<Runner>)

  /** Where a message of the history comes from. */
  datatype Item = FromQueue(q: Queued) | Other(message: Message)

  datatype Fields = Fields(
    history: seq<Item>,
    queue: seq<Queued>,
    runner: Option<Runner>,
    retryPending: bool,
    startingTurn: bool)

  /** How many messages at the head of the queue form the next turn. */
  function Batch(queue: seq<Queued>): (n: nat)
    ensures n <= |queue| && (queue != [] ==> n > 0)
  {
    if queue == [] then 0 else if queue[0].run.Some? then 1 else Ordinary(queue)
  }

  /** The length of the longest prefix without overrides. */
  function Ordinary(queue: seq<Queued>): (n: nat)
    ensures n <= |queue|
    ensures n < |queue| ==> queue[n].run.Some?
    ensures forall i :: 0 <= i < n ==> queue[i].run.None?
  {
    if queue == [] || queue[0].run.Some? then 0 else 1 + Ordinary(queue[1..])
  }

  function Plain(messages: seq<Message>): (qs: seq<Queued>)
    ensures |qs| == |messages| && forall i :: 0 <= i < |qs| ==> qs[i].run.None?
  {
    seq(|messages|, i requires 0 <= i < |messages| => Queued(messages[i], None))
  }

  function FromQueues(qs: seq<Queued>): (items: seq<Item>)
  {
    if qs == [] then [] else FromQueues(qs[..|qs| - 1]) + [FromQueue(qs[|qs| - 1])]
  }

  function Enqueue(f: Fields, qs: seq<Queued>): Fields { f.(queue := f.queue + qs) }

  function AskRetry(f: Fields): Fields { f.(retryPending := true) }

  function HasTurn(f: Fields): bool { f.queue != [] || f.retryPending }

  /** The top of the loop: take what forms the next turn. */
  function Take(f: Fields): Fields
  {
    var n := Batch(f.queue);
    Fields(f.history + FromQueues(f.queue[..n]), f.queue[n..],
           if f.queue != [] then f.queue[0].run else f.runner, false, HasTurn(f))
  }

  function Started(f: Fields): Fields { f.(startingTurn := false) }

  function Append(f: Fields, messages: seq<Message>): Fields
  {
    f.(history := f.history + seq(|messages|, i requires 0 <= i < |messages| => Other(messages[i])))
  }

  function WillRun(f: Fields): bool { f.queue != [] || f.retryPending || f.startingTurn }

  class Loop {
    var history: seq<Item>
    var messageQueue: seq<Queued>
    var turnRunner: Option<Runner>
    var retryPending: bool
    var startingTurn: bool

    ghost function View(): Fields
      reads this
    {
      Fields(history, messageQueue, turnRunner, retryPending, startingTurn)
    }

    constructor (initial: seq<Message>)
      ensures View() == Append(Fields([], [], None, false, false), initial)
    {
      history := seq(|initial|, i requires 0 <= i < |initial| => Other(initial[i]));
      messageQueue, turnRunner, retryPending, startingTurn := [], None, false, false;
      new;
      assert history == [] + history;
    }

    /** The locked part of Retry. */
    method Retry()
      modifies this
      ensures View() == AskRetry(old(View()))
    {
      retryPending := true;
    }

    /** The locked part of QueueTurn. */
    method QueueTurn(message: Message, run: Option<Runner>)
      modifies this
      ensures View() == Enqueue(old(View()), [Queued(message, run)])
    {
      messageQueue := messageQueue + [Queued(message, run)];
    }

    /** The locked part of QueueMessages. */
    method QueueMessages(messages: seq<Message>)
      modifies this
      ensures View() == Enqueue(old(View()), Plain(messages))
    {
      for i := 0 to |messages|
        invariant View() == Enqueue(old(View()), Plain(messages)[..i])
      {
        messageQueue := messageQueue + [Queued(messages[i], None)];
        assert Plain(messages)[..i + 1] == Plain(messages)[..i] + [Queued(messages[i], None)];
      }
      assert Plain(messages)[..|messages|] == Plain(messages);
    }

    /** takeQueuedLocked */
    method TakeQueued(isolated: bool) returns (taken: seq<Queued>)
      requires messageQueue != [] ==> isolated == messageQueue[0].run.Some?
      modifies this`messageQueue
      ensures taken == old(messageQueue)[..Batch(old(messageQueue))]
      ensures messageQueue == old(messageQueue)[Batch(old(messageQueue))..]
    {
      var n := 0;
      while n < |messageQueue|
        invariant n <= |messageQueue| && (isolated ==> n <= 1)
        invariant !isolated ==> Ordinary(messageQueue) == n + Ordinary(messageQueue[n..])
      {
        if n > 0 && (isolated || messageQueue[n].run.Some?) { break; }
        assert messageQueue[n..][1..] == messageQueue[n + 1..];
        n := n + 1;
      }
      taken, messageQueue := messageQueue[..n], messageQueue[n..];
    }

    /** The locked part at the top of the loop. */
    method TakeTurn() returns (run: bool)
      modifies this
      ensures View() == Take(old(View())) && run == HasTurn(old(View()))
    {
      var hasQueued := |messageQueue| > 0;
      if hasQueued {
        turnRunner := messageQueue[0].run;
        var taken := TakeQueued(turnRunner.Some?);
        history := history + FromQueues(taken);
      } else {
        assert history == history + FromQueues(messageQueue[..0]);
      }
      run := hasQueued || retryPending;
      retryPending := false;
      startingTurn := run;
    }

    method TurnStarted()
      modifies this
      ensures View() == Started(old(View()))
    {
      startingTurn := false;
    }

    method WillRunTurn() returns (r: bool)
      ensures r == WillRun(View())
    {
      return |messageQueue| > 0 || retryPending || startingTurn;
    }
  }
}
