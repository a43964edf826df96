/** channels/delay_relay.go: a relay that stops at a sentinel until it is flushed. */
module DelayRelay {
  import opened Queue

  /** What is in the source queue, in publication order. */
  datatype Item = Sentinel | Message(p: Payload)

  /** log: everything published, in order; queue: the part not yet delivered; delivered:
      the rest. waiting: the filter acknowledged a sentinel and is blocked on the channel.
      flushing: a Flush published its sentinel and is blocked handing off. */
  datatype State = State(
    log: seq<Item>, delivered: seq<Item>, queue: seq<Item>, relayed: seq<Payload>,
    waiting: bool, flushing: bool, handoffs: nat)

  /** FlushBegin is Flush up to its publish; a Flush during another one waits on the
      sync.Once and does nothing. */
  datatype Step = Arrive(p: Payload) | FlushBegin | HandOff | Deliver

  /** NewDelayRelay publishes the first sentinel. */
  const NEW := State([Sentinel], [], [Sentinel], [], false, false, 0)

  function Enqueue(s: State, i: Item): State {
    s.(queue := s.queue + [i], log := s.log + [i])
  }

  function Apply(s: State, step: Step): State {
    match step
    case Arrive(p) => if p == "" then s else Enqueue(s, Message(p))
    case FlushBegin => if s.flushing then s else Enqueue(s, Sentinel).(flushing := true)
    case HandOff =>
      if s.waiting && s.flushing then s.(waiting := false, flushing := false, handoffs := s.handoffs + 1) else s
    case Deliver =>
      if s.waiting || s.queue == [] then s
      else
        var s' := s.(queue := s.queue[1..], delivered := s.delivered + [s.queue[0]]);
        match s.queue[0]
        case Sentinel => s'.(waiting := true)
        case Message(p) => s'.(relayed := s.relayed + [p])
  }

  function Run(s: State, steps: seq<Step>): State
    decreases steps
  {
    if steps == [] then s else Run(Apply(s, steps[0]), steps[1..])
  }

  function Sentinels(items: seq<Item>): nat
    decreases items
  {
    if items == [] then 0
    else Sentinels(items[..|items| - 1]) + (if items[|items| - 1].Sentinel? then 1 else 0)
  }

  function Messages(items: seq<Item>): seq<Payload>
    decreases items
  {
    if items == [] then []
    else
      var front := Messages(items[..|items| - 1]);
      match items[|items| - 1]
      case Sentinel => front
      case Message(p) => front + [p]
  }

  /** The relay's whole story in one invariant. */
  ghost predicate Ok(s: State) {
    && s.log == s.delivered + s.queue
    && s.relayed == Messages(s.delivered)
    && Sentinels(s.delivered) == s.handoffs + (if s.waiting then 1 else 0)
    && (s.waiting ==> s.delivered != [] && s.delivered[|s.delivered| - 1].Sentinel?)
    && Sentinels(s.delivered) + Sentinels(s.queue) == s.handoffs + 1 + (if s.flushing then 1 else 0)
  }

  lemma {:induction false} SentinelsAppend(a: seq<Item>, b: seq<Item>)
    ensures Sentinels(a + b) == Sentinels(a) + Sentinels(b)
    decreases b
  {
    if b == [] {
      assert a + b == a;
    } else {
      assert (a + b)[..|a + b| - 1] == a + b[..|b| - 1];
      SentinelsAppend(a, b[..|b| - 1]);
    }
  }

  lemma SentinelsOfOne(i: Item)
    ensures Sentinels([i]) == if i.Sentinel? then 1 else 0
  {
    assert [i][..0] == [];
  }

  lemma EnqueueCounts(s: State, i: Item)
    requires s.log == s.delivered + s.queue
    ensures Enqueue(s, i).log == s.delivered + Enqueue(s, i).queue
    ensures Sentinels(Enqueue(s, i).queue) == Sentinels(s.queue) + (if i.Sentinel? then 1 else 0)
  {
    assert s.log + [i] == s.delivered + (s.queue + [i]);
    SentinelsAppend(s.queue, [i]);
    SentinelsOfOne(i);
  }

  lemma DeliverKeepsOk(s: State)
    requires Ok(s) && !s.waiting && s.queue != []
    ensures Ok(Apply(s, Deliver))
  {
    var i, rest := s.queue[0], s.queue[1..];
    assert s.queue == [i] + rest;
    assert s.delivered + s.queue == s.delivered + [i] + rest;
    assert (s.delivered + [i])[..|s.delivered|] == s.delivered;
    SentinelsAppend([i], rest);
    SentinelsOfOne(i);
  }

  lemma StepKeepsOk(s: State, step: Step)
    requires Ok(s)
    ensures Ok(Apply(s, step))
  {
    match step
    case Arrive(p) => EnqueueCounts(s, Message(p));
    case FlushBegin => EnqueueCounts(s, Sentinel);
    case HandOff =>
    case Deliver =>
      if !s.waiting && s.queue != [] {
        DeliverKeepsOk(s);
      }
  }

  lemma {:induction false} AlwaysOk(s: State, steps: seq<Step>)
    requires Ok(s)
    ensures Ok(Run(s, steps))
    decreases steps
  {
    if steps == [] {
    } else {
      StepKeepsOk(s, steps[0]);
      AlwaysOk(Apply(s, steps[0]), steps[1..]);
    }
  }

  lemma ReachableOk(steps: seq<Step>)
    ensures Ok(Run(NEW, steps))
  {
    SentinelsOfOne(Sentinel);
    AlwaysOk(NEW, steps);
  }

  lemma {:induction false} MessagesPrefix(items: seq<Item>, k: nat)
    requires k <= |items|
    ensures Messages(items[..k]) <= Messages(items)
    decreases |items| - k
  {
    if k < |items| {
      MessagesPrefix(items, k + 1);
      assert items[..k + 1][..k] == items[..k];
    } else {
      assert items[..k] == items;
    }
  }

  /** Messages are relayed in publication order, without loss or repetition, and the
      sentinels still outstanding (queued or being waited on) are one, plus one while a
      Flush is between its publish and its hand-off. */
  lemma OrderAndOutstanding(steps: seq<Step>)
    ensures var s := Run(NEW, steps);
            && s.log == s.delivered + s.queue
            && s.relayed == Messages(s.delivered) && s.relayed <= Messages(s.log)
            && Sentinels(s.queue) + (if s.waiting then 1 else 0) == 1 + (if s.flushing then 1 else 0)
  {
    ReachableOk(steps);
    var s := Run(NEW, steps);
    assert s.log[..|s.delivered|] == s.delivered;
    MessagesPrefix(s.log, |s.delivered|);
  }

  lemma {:induction false} SentinelsRise(items: seq<Item>, i: nat, j: nat)
    requires i <= j <= |items|
    ensures Sentinels(items[..i]) <= Sentinels(items[..j])
    decreases j
  {
    if i == j {
    } else {
      SentinelsRise(items, i, j - 1);
      assert items[..j][..j - 1] == items[..j - 1];
    }
  }

  /** Hold: a message published after k sentinels is not delivered before k hand-offs. */
  lemma HeldUntilFlushed(steps: seq<Step>, i: nat)
    requires var s := Run(NEW, steps); i < |s.delivered| && s.delivered[i].Message?
    ensures var s := Run(NEW, steps); Sentinels(s.delivered[..i]) <= s.handoffs
  {
    ReachableOk(steps);
    var d := Run(NEW, steps).delivered;
    if Run(NEW, steps).waiting {
      SentinelsRise(d, i, |d| - 1);
    } else {
      SentinelsRise(d, i, |d|);
      assert d[..|d|] == d;
    }
  }

  /** Release: when the filter blocks, a message has been delivered exactly if no more
      sentinels were published before it than flushes have been handed off. */
  lemma BlockedRelayedAll(steps: seq<Step>, i: nat)
    requires var s := Run(NEW, steps); s.waiting && i < |s.log| && s.log[i].Message?
    ensures var s := Run(NEW, steps); i < |s.delivered| <==> Sentinels(s.log[..i]) <= s.handoffs
  {
    ReachableOk(steps);
    var s := Run(NEW, steps);
    if i < |s.delivered| {
      HeldUntilFlushed(steps, i);
      assert s.log[..i] == s.delivered[..i];
    } else {
      SentinelsRise(s.log, |s.delivered|, i);
      assert s.log[..|s.delivered|] == s.delivered;
    }
  }

  /** Deliveries until the relay is blocked or the queue is empty. */
  function Drain(s: State, k: nat): State
    decreases k
  {
    if k == 0 then s else Drain(Apply(s, Deliver), k - 1)
  }

  /** A Flush that is handing off never waits for good: the filter reaches a sentinel
      after at most as many deliveries as there are queued items. */
  lemma {:induction false} FlushGetsThrough(s: State, k: nat)
    requires Ok(s) && s.flushing && k >= |s.queue|
    ensures Drain(s, k).waiting && Drain(s, k).flushing
    ensures Apply(Drain(s, k), HandOff).handoffs == s.handoffs + 1
    decreases k
  {
    if s.waiting {
      DrainWaiting(s, k);
    } else {
      assert s.queue != [];
      DeliverKeepsOk(s);
      FlushGetsThrough(Apply(s, Deliver), k - 1);
    }
  }

  lemma {:induction false} DrainWaiting(s: State, k: nat)
    requires s.waiting
    ensures Drain(s, k) == s
    decreases k
  {
    if k == 0 {
    } else {
      DrainWaiting(s, k - 1);
    }
  }

  // ---- what a flush does ----

  /** What a step publishes: its payload, unless that is empty. */
  function ArrivalOf(step: Step): seq<Payload> {
    if step.Arrive? && step.p != "" then [step.p] else []
  }

  /** The payloads published by these steps, in order. */
  function Arrivals(steps: seq<Step>): seq<Payload>
    decreases steps
  {
    if steps == [] then [] else ArrivalOf(steps[0]) + Arrivals(steps[1..])
  }

  lemma LogTakesArrival(s: State, step: Step)
    ensures Messages(Apply(s, step).log) == Messages(s.log) + ArrivalOf(step)
  {
    var next := Apply(s, step);
    if next.log == s.log {
      assert Messages(s.log) + [] == Messages(s.log);
    } else {
      assert next.log[..|next.log| - 1] == s.log;
    }
  }

  lemma Assoc(a: seq<Payload>, b: seq<Payload>, c: seq<Payload>)
    ensures (a + b) + c == a + (b + c)
  {
  }

  lemma {:induction false} LogKeepsArrivals(s: State, steps: seq<Step>)
    ensures Messages(Run(s, steps).log) == Messages(s.log) + Arrivals(steps)
    decreases steps
  {
    if steps == [] {
      assert Arrivals(steps) == [];
    } else {
      var step, rest := steps[0], steps[1..];
      LogTakesArrival(s, step);
      LogKeepsArrivals(Apply(s, step), rest);
      Assoc(Messages(s.log), ArrivalOf(step), Arrivals(rest));
      assert Arrivals(steps) == ArrivalOf(step) + Arrivals(rest);
    }
  }

  /** The messages in the queue or through it are exactly those published, in order. */
  lemma LogIsArrivals(steps: seq<Step>)
    ensures Messages(Run(NEW, steps).log) == Arrivals(steps)
  {
    LogKeepsArrivals(NEW, steps);
    assert [Sentinel][..0] == [];
    assert Messages([Sentinel]) == [];
  }

  /** A Flush adds exactly one sentinel, behind everything published so far, and waits; a
      Flush during another one does nothing. */
  lemma FlushAddsSentinel(s: State)
    ensures Apply(s, FlushBegin) ==
            if s.flushing then s else s.(log := s.log + [Sentinel], queue := s.queue + [Sentinel], flushing := true)
  {
  }

  lemma {:induction false} DrainKeeps(s: State, k: nat)
    requires Ok(s)
    ensures var t := Drain(s, k);
            Ok(t) && t.log == s.log && t.handoffs == s.handoffs && t.flushing == s.flushing && |t.queue| <= |s.queue|
    decreases k
  {
    if k == 0 {
    } else {
      StepKeepsOk(s, Deliver);
      DrainKeeps(Apply(s, Deliver), k - 1);
    }
  }

  /** Deliveries reach a sentinel that is the only one left and the last thing published. */
  lemma {:induction false} DrainToLast(s: State, k: nat)
    requires Ok(s) && !s.waiting && k >= |s.queue| && Sentinels(s.queue) == 1
    requires s.queue != [] && s.queue[|s.queue| - 1].Sentinel?
    ensures Drain(s, k).delivered == s.log && Drain(s, k).waiting
    decreases k
  {
    var next, rest := Apply(s, Deliver), s.queue[1..];
    StepKeepsOk(s, Deliver);
    assert s.queue == [s.queue[0]] + rest;
    SentinelsAppend([s.queue[0]], rest);
    SentinelsOfOne(s.queue[0]);
    if rest == [] {
      assert next.queue == [] && next.log == next.delivered + [] == next.delivered;
      DrainWaiting(next, k - 1);
    } else {
      assert rest[|rest| - 1].Sentinel?;
      DrainToLast(next, k - 1);
    }
  }

  /** Release: from any reachable state with no Flush under way, a Flush, deliveries until it
      can be handed off, the hand-off, and deliveries until the relay blocks again have
      relayed every message published before, exactly those and in order. */
  lemma FlushReleases(steps: seq<Step>, j: nat, k: nat)
    requires var s := Run(NEW, steps); !s.flushing && j > |s.queue| && k > |s.queue|
    ensures var s := Run(NEW, steps);
            var t := Drain(Apply(Drain(Apply(s, FlushBegin), j), HandOff), k);
            && t.relayed == Messages(s.log) == Arrivals(steps)
            && t.handoffs == s.handoffs + 1 && t.waiting && !t.flushing
  {
    ReachableOk(steps);
    LogIsArrivals(steps);
    var s := Run(NEW, steps);
    var begun := Apply(s, FlushBegin);
    var blocked := Drain(begun, j);
    var released := Apply(blocked, HandOff);
    StepKeepsOk(s, FlushBegin);
    FlushGetsThrough(begun, j);
    DrainKeeps(begun, j);
    StepKeepsOk(blocked, HandOff);
    assert Sentinels(released.queue) == 1;
    assert released.queue != [];
    assert released.log == released.delivered + released.queue == s.log + [Sentinel];
    assert released.queue[|released.queue| - 1] == released.log[|released.log| - 1];
    DrainToLast(released, k);
    DrainKeeps(released, k);
    assert (s.log + [Sentinel])[..|s.log|] == s.log;
  }
}
