/** The server's three ways of writing to several clients. A write either
    succeeds or throws; `failing` is the set of client ids whose writes throw
    during the step at hand, and a successful write is recorded as a Delivery.

    - BroadcastMessage, the disconnect notices and the join notices loop over
      the online ids with a try/catch around each client's writes, so a
      failing client only loses its own messages.
    - The chat event invokes one handler per subscriber with no catch in
      between, so the first failing write ends the whole fan-out. */
module Broadcast {

  datatype Delivery = Delivery(to: nat, text: string)

  /** One write of `text` to each target in order, skipping the failing ones. */
  function Deliveries(targets: seq<nat>, failing: set<nat>, text: string): seq<Delivery>
    decreases |targets|
  {
    if targets == [] then []
    else
      var last := targets[|targets| - 1];
      Deliveries(targets[..|targets| - 1], failing, text)
        + (if last in failing then [] else [Delivery(last, text)])
  }

  /** A client receives the broadcast exactly when it is a target that does
      not fail, whatever happens to the others. */
  lemma {:induction false} DeliveriesMembership(targets: seq<nat>, failing: set<nat>, text: string, d: Delivery)
    ensures d in Deliveries(targets, failing, text) <==> d.to in targets && d.to !in failing && d.text == text
    decreases |targets|
  {
    if targets != [] {
      var front := targets[..|targets| - 1];
      DeliveriesMembership(front, failing, text, d);
      assert targets == front + [targets[|targets| - 1]];
    }
  }

  /** Delivery to later targets does not depend on earlier ones. */
  lemma {:induction false} DeliveriesAppend(a: seq<nat>, b: seq<nat>, failing: set<nat>, text: string)
    ensures Deliveries(a + b, failing, text) == Deliveries(a, failing, text) + Deliveries(b, failing, text)
    decreases |b|
  {
    if b == [] {
      assert a + b == a;
    } else {
      var front := b[..|b| - 1];
      var last := b[|b| - 1];
      assert (a + b)[..|a + b| - 1] == a + front;
      DeliveriesAppend(a, front, failing, text);
    }
  }

  /** Two writes to each target in order (a notice, then the roster), both
      skipped for a failing target. */
  function PairDeliveries(targets: seq<nat>, failing: set<nat>, first: string, second: string): seq<Delivery>
    decreases |targets|
  {
    if targets == [] then []
    else
      var last := targets[|targets| - 1];
      PairDeliveries(targets[..|targets| - 1], failing, first, second)
        + (if last in failing then [] else [Delivery(last, first), Delivery(last, second)])
  }

  lemma {:induction false} PairDeliveriesMembership(targets: seq<nat>, failing: set<nat>, first: string, second: string, d: Delivery)
    ensures d in PairDeliveries(targets, failing, first, second)
        <==> d.to in targets && d.to !in failing && (d.text == first || d.text == second)
    decreases |targets|
  {
    if targets != [] {
      var front := targets[..|targets| - 1];
      PairDeliveriesMembership(front, failing, first, second, d);
      assert targets == front + [targets[|targets| - 1]];
    }
  }

  /** The invocation of the chat event's handlers: each connected subscriber
      in order gets the line; the first one whose write throws ends the
      invocation. The flag says whether every handler ran. */
  function FanOut(subscribers: seq<nat>, connected: set<nat>, failing: set<nat>, text: string): (r: (seq<Delivery>, bool))
    decreases |subscribers|
  {
    if subscribers == [] then ([], true)
    else
      var last := subscribers[|subscribers| - 1];
      var before := FanOut(subscribers[..|subscribers| - 1], connected, failing, text);
      if !before.1 then before
      else if last !in connected then before
      else if last in failing then (before.0, false)
      else (before.0 + [Delivery(last, text)], true)
  }

  /** Once the invocation has stopped, later subscribers change nothing. */
  lemma {:induction false} FanOutStopped(subscribers: seq<nat>, i: nat, connected: set<nat>, failing: set<nat>, text: string)
    requires i <= |subscribers|
    requires !FanOut(subscribers[..i], connected, failing, text).1
    ensures FanOut(subscribers, connected, failing, text) == FanOut(subscribers[..i], connected, failing, text)
  {
    assert subscribers[..|subscribers|] == subscribers;
    FanOutPrefixStopped(subscribers, i, |subscribers|, connected, failing, text);
  }

  lemma {:induction false} FanOutPrefixStopped(subscribers: seq<nat>, i: nat, n: nat, connected: set<nat>, failing: set<nat>, text: string)
    requires i <= n <= |subscribers|
    requires !FanOut(subscribers[..i], connected, failing, text).1
    ensures FanOut(subscribers[..n], connected, failing, text) == FanOut(subscribers[..i], connected, failing, text)
    decreases n - i
  {
    if i < n {
      FanOutPrefixStopped(subscribers, i, n - 1, connected, failing, text);
      assert subscribers[..n][..n - 1] == subscribers[..n - 1];
    }
  }

  /** Every handler runs exactly when no connected subscriber fails. */
  lemma {:induction false} FanOutCompletes(subscribers: seq<nat>, connected: set<nat>, failing: set<nat>, text: string)
    ensures FanOut(subscribers, connected, failing, text).1
        <==> forall k :: 0 <= k < |subscribers| ==> subscribers[k] !in connected || subscribers[k] !in failing
    decreases |subscribers|
  {
    if subscribers != [] {
      var front := subscribers[..|subscribers| - 1];
      FanOutCompletes(front, connected, failing, text);
      assert forall k :: 0 <= k < |front| ==> front[k] == subscribers[k];
    }
  }

  /** A line reaches only connected, non-failing subscribers, and when every
      handler ran it reached all of them. */
  lemma {:induction false} FanOutMembership(subscribers: seq<nat>, connected: set<nat>, failing: set<nat>, text: string, d: Delivery)
    ensures d in FanOut(subscribers, connected, failing, text).0
        ==> d.to in subscribers && d.to in connected && d.to !in failing && d.text == text
    ensures FanOut(subscribers, connected, failing, text).1 && d.to in subscribers && d.to in connected && d.text == text
        ==> d in FanOut(subscribers, connected, failing, text).0
    decreases |subscribers|
  {
    if subscribers != [] {
      var front := subscribers[..|subscribers| - 1];
      var last := subscribers[|subscribers| - 1];
      FanOutMembership(front, connected, failing, text, d);
      assert subscribers == front + [last];
    }
  }

  /** The abort: when subscriber j is the first connected one to fail,
      nobody after j gets the line, even a healthy subscriber. */
  lemma {:induction false} FanOutAbort(subscribers: seq<nat>, j: nat, connected: set<nat>, failing: set<nat>, text: string, d: Delivery)
    requires j < |subscribers|
    requires subscribers[j] in connected && subscribers[j] in failing
    requires forall k :: 0 <= k < j ==> subscribers[k] !in connected || subscribers[k] !in failing
    ensures !FanOut(subscribers, connected, failing, text).1
    ensures d in FanOut(subscribers, connected, failing, text).0 ==> d.to in subscribers[..j]
  {
    var pre := subscribers[..j];
    FanOutCompletes(pre, connected, failing, text);
    assert forall k :: 0 <= k < |pre| ==> pre[k] == subscribers[k];
    assert subscribers[..j + 1][..j] == pre;
    assert !FanOut(subscribers[..j + 1], connected, failing, text).1;
    FanOutStopped(subscribers, j + 1, connected, failing, text);
    FanOutMembership(pre, connected, failing, text, d);
  }
}
