/** channels/relay.go: take a payload, publish it everywhere, acknowledge it, with
    up to as many goroutines as the semaphore has permits. */
module Relay {
  import opened Queue
  import opened Redis
  import opened Text

  /** A goroutine between Acquire and Release: it has published to the first `sent` destinations. */
  datatype Worker = Worker(payload: Payload, sent: nat)

  /** The source lists and destinations live in Redis; the delivery channel and the
      workers die with the process. Per destination, refused holds the publishes to it
      that did not succeed, which the relay does not notice, and again those publishes,
      successful or not, whose payload was not acknowledged afterwards. */
  datatype State = State(
    ready: List, unacked: List, dests: seq<List>,
    deliveries: List, workers: seq<Worker>,
    published: multiset<Payload>, refused: seq<multiset<Payload>>, again: seq<multiset<Payload>>)

  /** A Fetch that is not delivered failed late; a Phantom is the empty payload that some
      Redis errors deliver; an Acknowledge that is not carried out goes unnoticed. */
  datatype Step =
    | Arrive(p: Payload)
    | Fetch(delivered: bool)
    | Phantom
    | Acquire
    | Send(i: nat, took: bool)
    | Acknowledge(i: nat, took: bool)
    | ReturnOne
    | Die

  datatype Config = Config(filter: Payload -> bool, permits: nat)

  /** Has worker w nothing more to publish? */
  predicate Done(c: Config, s: State, w: Worker) {
    !c.filter(w.payload) || w.sent >= |s.dests|
  }

  function Without(ws: seq<Worker>, i: nat): seq<Worker>
    requires i < |ws|
  {
    ws[..i] + ws[i + 1..]
  }

  predicate Shaped(s: State) {
    |s.refused| == |s.dests| && |s.again| == |s.dests|
  }

  /** What these workers have published to destination d. */
  function Sent(ws: seq<Worker>, d: nat): multiset<Payload>
    decreases ws
  {
    if ws == [] then multiset{} else Sent(ws[..|ws| - 1], d) + SentBy(ws[|ws| - 1], d)
  }

  function SentBy(w: Worker, d: nat): multiset<Payload> {
    if w.sent > d then multiset{w.payload} else multiset{}
  }

  /** Those of them that are p, counted. */
  function SentCopies(ws: seq<Worker>, p: Payload, d: nat): nat
    decreases ws
  {
    if ws == [] then 0 else SentCopies(ws[..|ws| - 1], p, d) + HasSent(ws[|ws| - 1], p, d)
  }

  function HasSent(w: Worker, p: Payload, d: nat): nat {
    if w.payload == p && w.sent > d then 1 else 0
  }

  lemma {:induction false} SentCounted(ws: seq<Worker>, p: Payload, d: nat)
    ensures Sent(ws, d)[p] == SentCopies(ws, p, d)
    decreases ws
  {
    if ws == [] {
    } else {
      SentCounted(ws[..|ws| - 1], p, d);
    }
  }

  function AddSent(again: seq<multiset<Payload>>, ws: seq<Worker>): (r: seq<multiset<Payload>>)
    ensures |r| == |again|
  {
    seq(|again|, d requires 0 <= d < |again| => again[d] + Sent(ws, d))
  }

  /** A publish; the publisher refuses an empty payload. */
  function SendTo(s: State, d: nat, p: Payload, took: bool): (t: State)
    requires Shaped(s) && d < |s.dests|
    ensures Shaped(t) && |t.dests| == |s.dests|
  {
    if took && p != "" then s.(dests := s.dests[d := [p] + s.dests[d]])
    else s.(refused := s.refused[d := s.refused[d] + multiset{p}])
  }

  function Apply(c: Config, s: State, step: Step): (t: State)
    requires Shaped(s)
    ensures Shaped(t) && |t.dests| == |s.dests|
  {
    match step
    case Arrive(p) =>
      if p == "" then s else s.(ready := [p] + s.ready, published := s.published + multiset{p})
    case Fetch(delivered) =>
      if s.ready == [] then s
      else
        var p := s.ready[|s.ready| - 1];
        s.(ready := s.ready[..|s.ready| - 1], unacked := [p] + s.unacked,
           deliveries := if delivered then s.deliveries + [p] else s.deliveries)
    case Phantom =>
      s.(deliveries := s.deliveries + [""])
    case Acquire =>
      if s.deliveries == [] || |s.workers| >= c.permits then s
      else s.(deliveries := s.deliveries[1..], workers := s.workers + [Worker(s.deliveries[0], 0)])
    case Send(i, took) =>
      if i >= |s.workers| || Done(c, s, s.workers[i]) then s
      else
        var w := s.workers[i];
        SendTo(s, w.sent, w.payload, took).(workers := s.workers[i := w.(sent := w.sent + 1)])
    case Acknowledge(i, took) =>
      if i >= |s.workers| || !Done(c, s, s.workers[i]) then s
      else
        var w, rest := s.workers[i], Without(s.workers, i);
        if took && w.payload in s.unacked then s.(unacked := RemoveFirst(s.unacked, w.payload), workers := rest)
        else s.(workers := rest, again := AddSent(s.again, [w]))
    case ReturnOne =>
      if s.unacked == [] then s
      else s.(unacked := s.unacked[..|s.unacked| - 1], ready := [s.unacked[|s.unacked| - 1]] + s.ready)
    case Die =>
      s.(deliveries := [], workers := [], again := AddSent(s.again, s.workers))
  }

  function Run(c: Config, s: State, steps: seq<Step>): (t: State)
    requires Shaped(s)
    ensures Shaped(t) && |t.dests| == |s.dests|
    decreases steps
  {
    if steps == [] then s else Run(c, Apply(c, s, steps[0]), steps[1..])
  }

  lemma {:induction false} SentUpdate(ws: seq<Worker>, i: nat, w: Worker, p: Payload, d: nat)
    requires i < |ws|
    ensures SentCopies(ws[i := w], p, d) == SentCopies(ws, p, d) - HasSent(ws[i], p, d) + HasSent(w, p, d)
    decreases ws
  {
    var n := |ws| - 1;
    if i == n {
      assert ws[i := w][..n] == ws[..n];
    } else {
      assert ws[i := w][..n] == ws[..n][i := w];
      SentUpdate(ws[..n], i, w, p, d);
    }
  }

  lemma {:induction false} SentWithout(ws: seq<Worker>, i: nat, p: Payload, d: nat)
    requires i < |ws|
    ensures SentCopies(Without(ws, i), p, d) == SentCopies(ws, p, d) - HasSent(ws[i], p, d)
    decreases ws
  {
    var n := |ws| - 1;
    if i == n {
      assert Without(ws, i) == ws[..n];
    } else {
      assert Without(ws, i)[..n - 1] == Without(ws[..n], i);
      SentWithout(ws[..n], i, p, d);
    }
  }

  lemma AddedCopies(again: seq<multiset<Payload>>, ws: seq<Worker>, p: Payload, d: nat)
    requires d < |again|
    ensures AddSent(again, ws)[d][p] == again[d][p] + SentCopies(ws, p, d)
  {
    SentCounted(ws, p, d);
  }

  function Held(s: State, p: Payload, d: nat): nat
    requires d < |s.dests|
  {
    Copies(s.ready, p) + Copies(s.unacked, p) + Copies(s.dests[d], p)
  }

  /** The exact balance of an accepted payload p at destination d: copies in the source
      lists, at d, or refused by d are those published, plus those whose worker is past
      d but has not acknowledged, plus those that will be or were published again. */
  ghost predicate Accounted(s: State, p: Payload, d: nat)
    requires Shaped(s) && d < |s.dests|
  {
    Held(s, p, d) + s.refused[d][p] == s.published[p] + SentCopies(s.workers, p, d) + s.again[d][p]
  }

  lemma ArriveAccounts(c: Config, s: State, q: Payload, p: Payload, d: nat)
    requires Shaped(s) && d < |s.dests| && Accounted(s, p, d)
    ensures Accounted(Apply(c, s, Arrive(q)), p, d)
  {
    CopiesOfOne(q, p);
    CopiesAppend([q], s.ready, p);
  }

  /** Popping a list on the right and pushing on the left of another keeps the sum. */
  lemma RotateCopies(from: List, to: List, p: Payload)
    requires from != []
    ensures var last := |from| - 1;
            Copies(from[..last], p) + Copies([from[last]] + to, p) == Copies(from, p) + Copies(to, p)
  {
    var last := |from| - 1;
    CopiesSplit(from, last, p);
    assert from[last..] == [from[last]];
    CopiesAppend([from[last]], to, p);
  }

  lemma FetchAccounts(c: Config, s: State, delivered: bool, p: Payload, d: nat)
    requires Shaped(s) && d < |s.dests| && Accounted(s, p, d)
    ensures Accounted(Apply(c, s, Fetch(delivered)), p, d)
  {
    if s.ready != [] {
      RotateCopies(s.ready, s.unacked, p);
    }
  }

  lemma ReturnAccounts(c: Config, s: State, p: Payload, d: nat)
    requires Shaped(s) && d < |s.dests| && Accounted(s, p, d)
    ensures Accounted(Apply(c, s, ReturnOne), p, d)
  {
    if s.unacked != [] {
      RotateCopies(s.unacked, s.ready, p);
    }
  }

  /** A publish adds one copy at its destination or one refusal there. */
  lemma SendToAdds(s: State, e: nat, q: Payload, took: bool, p: Payload, d: nat)
    requires Shaped(s) && e < |s.dests| && d < |s.dests|
    ensures var t := SendTo(s, e, q, took);
            && t.ready == s.ready && t.unacked == s.unacked && t.published == s.published && t.again == s.again
            && Copies(t.dests[d], p) + t.refused[d][p] ==
            Copies(s.dests[d], p) + s.refused[d][p] + (if d == e && p == q then 1 else 0)
  {
    CopiesOfOne(q, p);
    CopiesAppend([q], s.dests[e], p);
  }

  lemma SendAccounts(c: Config, s: State, i: nat, took: bool, p: Payload, d: nat)
    requires Shaped(s) && d < |s.dests| && Accounted(s, p, d)
    ensures Accounted(Apply(c, s, Send(i, took)), p, d)
  {
    if i < |s.workers| && !Done(c, s, s.workers[i]) {
      var w := s.workers[i];
      SentUpdate(s.workers, i, w.(sent := w.sent + 1), p, d);
      SendToAdds(s, w.sent, w.payload, took, p, d);
    }
  }

  lemma AckAccounts(c: Config, s: State, i: nat, took: bool, p: Payload, d: nat)
    requires Shaped(s) && d < |s.dests| && Accounted(s, p, d) && c.filter(p)
    ensures Accounted(Apply(c, s, Acknowledge(i, took)), p, d)
  {
    if i < |s.workers| && Done(c, s, s.workers[i]) {
      var w := s.workers[i];
      SentWithout(s.workers, i, p, d);
      AddedCopies(s.again, [w], p, d);
      assert [w][..0] == [];
      CopiesWithoutFirst(s.unacked, w.payload, p);
    }
  }

  lemma AcquireAccounts(c: Config, s: State, p: Payload, d: nat)
    requires Shaped(s) && d < |s.dests| && Accounted(s, p, d)
    ensures Accounted(Apply(c, s, Acquire), p, d)
  {
    if s.deliveries != [] && |s.workers| < c.permits {
      var w := Worker(s.deliveries[0], 0);
      assert (s.workers + [w])[..|s.workers|] == s.workers;
    }
  }

  lemma StepAccounts(c: Config, s: State, step: Step, p: Payload, d: nat)
    requires Shaped(s) && d < |s.dests| && Accounted(s, p, d) && c.filter(p)
    ensures Accounted(Apply(c, s, step), p, d)
  {
    match step
    case Arrive(q) => ArriveAccounts(c, s, q, p, d);
    case Fetch(delivered) => FetchAccounts(c, s, delivered, p, d);
    case Phantom =>
    case Acquire => AcquireAccounts(c, s, p, d);
    case Send(i, took) => SendAccounts(c, s, i, took, p, d);
    case Acknowledge(i, took) => AckAccounts(c, s, i, took, p, d);
    case ReturnOne => ReturnAccounts(c, s, p, d);
    case Die => AddedCopies(s.again, s.workers, p, d);
  }

  /** Conservation at every step of every interleaving. */
  lemma {:induction false} RunAccounts(c: Config, s: State, steps: seq<Step>, p: Payload, d: nat)
    requires Shaped(s) && d < |s.dests| && Accounted(s, p, d) && c.filter(p)
    ensures Accounted(Run(c, s, steps), p, d)
    decreases steps
  {
    if steps == [] {
    } else {
      StepAccounts(c, s, steps[0], p, d);
      RunAccounts(c, Apply(c, s, steps[0]), steps[1..], p, d);
    }
  }

  /** Never more goroutines than permits. */
  lemma {:induction false} WithinSemaphore(c: Config, s: State, steps: seq<Step>)
    requires Shaped(s) && |s.workers| <= c.permits
    ensures |Run(c, s, steps).workers| <= c.permits
    decreases steps
  {
    if steps == [] {
    } else {
      WithinSemaphore(c, Apply(c, s, steps[0]), steps[1..]);
    }
  }

  function Idle(destinations: nat): State {
    var none := seq(destinations, d => multiset{});
    State([], [], seq(destinations, d => []), [], [], multiset{}, none, none)
  }

  /** Over any run, copies of an accepted payload are missing from the source lists and
      a destination exactly if that destination refused more publishes of it than are
      still unacknowledged or were repeated. */
  lemma RelayLosesIff(c: Config, destinations: nat, steps: seq<Step>, p: Payload, d: nat)
    requires c.filter(p) && d < destinations
    ensures var s := Run(c, Idle(destinations), steps);
            Held(s, p, d) < s.published[p] <==> s.refused[d][p] > SentCopies(s.workers, p, d) + s.again[d][p]
  {
    assert Accounted(Idle(destinations), p, d);
    RunAccounts(c, Idle(destinations), steps, p, d);
  }

  /** Relay crash safety: at every step of every interleaving, crashes and redeliveries
      included, each accepted payload that was published is in the source lists or has
      reached every destination that refused no publish of it, copy for copy. */
  lemma RelayKeepsAccepted(c: Config, destinations: nat, steps: seq<Step>, p: Payload, d: nat)
    requires c.filter(p) && d < destinations
    requires Run(c, Idle(destinations), steps).refused[d][p] == 0
    ensures var s := Run(c, Idle(destinations), steps);
            && Copies(s.ready, p) + Copies(s.unacked, p) + Copies(s.dests[d], p) >= s.published[p]
            && (s.published[p] > 0 ==> p in s.ready || p in s.unacked || p in s.dests[d])
  {
    RelayLosesIff(c, destinations, steps, p, d);
    var s := Run(c, Idle(destinations), steps);
    assert p in s.ready <==> p in multiset(s.ready);
    assert p in s.unacked <==> p in multiset(s.unacked);
    assert p in s.dests[d] <==> p in multiset(s.dests[d]);
  }

  // ---- the steps, one by one ----

  /** The source lists as the queue's ledger has them. */
  function SourceLists(s: State): Ledger {
    EMPTY.(ready := s.ready, unacked := s.unacked)
  }

  /** What a step is to the source lists. */
  function CommandOf(c: Config, s: State, step: Step): Option<Command> {
    match step
    case Arrive(p) => Some(Command.Publish(p))
    case Fetch(_) => Some(Take)
    case Acknowledge(i, took) =>
      if took && i < |s.workers| && Done(c, s, s.workers[i]) then Some(Ack(s.workers[i].payload)) else None
    case ReturnOne => Some(TakeBack)
    case _ => None
  }

  /** On the source lists the relay's steps are the queue's commands: first in, first out,
      and taken back in order. */
  lemma StepsAreCommands(c: Config, s: State, step: Step)
    requires Shaped(s)
    ensures var before, after, command := SourceLists(s), SourceLists(Apply(c, s, step)), CommandOf(c, s, step);
            var expected := if command.Some? then Queue.Apply(before, command.value) else before;
            after.ready == expected.ready && after.unacked == expected.unacked
  {
  }

  /** On the process: entries are delivered in the order they were fetched in; a waiting one
      is acquired exactly while there are fewer goroutines than permits; a goroutine ends
      by acknowledging, when it has published to every destination or filtered the payload
      out; and death takes deliveries and goroutines, and nothing of Redis. */
  lemma StepEffects(c: Config, s: State, step: Step)
    requires Shaped(s)
    ensures var t := Apply(c, s, step);
            match step
            case Arrive(_) => t.deliveries == s.deliveries && t.workers == s.workers && t.dests == s.dests
            case Fetch(delivered) =>
              t.deliveries == s.deliveries + (if delivered && s.ready != [] then [s.ready[|s.ready| - 1]] else [])
              && t.workers == s.workers && t.dests == s.dests
            case Phantom => t == s.(deliveries := s.deliveries + [""])
            case Acquire =>
              if s.deliveries != [] && |s.workers| < c.permits then
                t == s.(deliveries := s.deliveries[1..], workers := s.workers + [Worker(s.deliveries[0], 0)])
              else t == s
            case Send(i, took) =>
              if i < |s.workers| && c.filter(s.workers[i].payload) && s.workers[i].sent < |s.dests| then
                var (p, d) := (s.workers[i].payload, s.workers[i].sent);
                && t.workers == s.workers[i := Worker(p, d + 1)]
                && t.dests == (if took && p != "" then s.dests[d := [p] + s.dests[d]] else s.dests)
              else t == s
            case Acknowledge(i, _) =>
              if i < |s.workers| && (c.filter(s.workers[i].payload) ==> s.workers[i].sent >= |s.dests|) then
                t.workers == s.workers[..i] + s.workers[i + 1..] && t.dests == s.dests
              else t == s
            case ReturnOne => t.deliveries == s.deliveries && t.workers == s.workers && t.dests == s.dests
            case Die =>
              && t.deliveries == [] && t.workers == []
              && t.ready == s.ready && t.unacked == s.unacked && t.dests == s.dests
  {
  }

  // ---- one goroutine, nobody in between ----

  lemma RunOne(c: Config, s: State, step: Step, rest: seq<Step>)
    requires Shaped(s)
    ensures Run(c, s, [step] + rest) == Run(c, Apply(c, s, step), rest)
  {
    assert ([step] + rest)[1..] == rest;
  }

  lemma {:induction false} RunAppend(c: Config, s: State, a: seq<Step>, b: seq<Step>)
    requires Shaped(s)
    ensures Run(c, s, a + b) == Run(c, Run(c, s, a), b)
    decreases a
  {
    if a == [] {
      assert a + b == b;
    } else {
      assert (a + b)[1..] == a[1..] + b;
      RunAppend(c, Apply(c, s, a[0]), a[1..], b);
    }
  }

  lemma RunSnoc(c: Config, s: State, steps: seq<Step>, step: Step)
    requires Shaped(s)
    ensures Run(c, s, steps + [step]) == Apply(c, Run(c, s, steps), step)
  {
    RunAppend(c, s, steps, [step]);
    RunOne(c, Run(c, s, steps), step, []);
    assert [step] + [] == [step];
  }

  /** Each destination with the payload pushed on if its publisher's push was carried
      out; an empty payload is skipped. */
  function PushedWhere(dests: seq<List>, p: Payload, replies: nat -> Reply): (r: seq<List>)
    ensures |r| == |dests|
  {
    seq(|dests|, d requires 0 <= d < |dests| => if Took(replies(d)) && p != "" then [p] + dests[d] else dests[d])
  }

  function RefusedWhere(refused: seq<multiset<Payload>>, p: Payload, replies: nat -> Reply): (r: seq<multiset<Payload>>)
    ensures |r| == |refused|
  {
    seq(|refused|, d requires 0 <= d < |refused| =>
      if Took(replies(d)) && p != "" then refused[d] else refused[d] + multiset{p})
  }

  /** The sends of the only worker to the first n destinations. */
  function Sends(replies: nat -> Reply, n: nat): seq<Step>
    decreases n
  {
    if n == 0 then [] else Sends(replies, n - 1) + [Send(0, Took(replies(n - 1)))]
  }

  /** The first k destinations published to. */
  function AfterSends(s: State, p: Payload, replies: nat -> Reply, k: nat): (t: State)
    requires Shaped(s) && k <= |s.dests|
    ensures Shaped(t) && |t.dests| == |s.dests|
  {
    s.(workers := [Worker(p, k)],
       dests := PushedWhere(s.dests[..k], p, replies) + s.dests[k..],
       refused := RefusedWhere(s.refused[..k], p, replies) + s.refused[k..])
  }

  lemma PushNext(dests: seq<List>, p: Payload, replies: nat -> Reply, k: nat)
    requires k < |dests|
    ensures var before := PushedWhere(dests[..k], p, replies) + dests[k..];
            PushedWhere(dests[..k + 1], p, replies) + dests[k + 1..] ==
            if Took(replies(k)) && p != "" then before[k := [p] + before[k]] else before
  {
  }

  lemma RefuseNext(refused: seq<multiset<Payload>>, p: Payload, replies: nat -> Reply, k: nat)
    requires k < |refused|
    ensures var before := RefusedWhere(refused[..k], p, replies) + refused[k..];
            RefusedWhere(refused[..k + 1], p, replies) + refused[k + 1..] ==
            if Took(replies(k)) && p != "" then before else before[k := before[k] + multiset{p}]
  {
  }

  lemma LoneSend(c: Config, s: State, p: Payload, k: nat, took: bool)
    requires Shaped(s) && c.filter(p) && k < |s.dests| && s.workers == [Worker(p, k)]
    ensures Apply(c, s, Send(0, took)) == SendTo(s, k, p, took).(workers := [Worker(p, k + 1)])
  {
    assert s.workers[0 := Worker(p, k + 1)] == [Worker(p, k + 1)];
  }

  lemma SendToNext(s: State, p: Payload, replies: nat -> Reply, k: nat)
    requires Shaped(s) && k < |s.dests|
    ensures SendTo(AfterSends(s, p, replies, k), k, p, Took(replies(k))).(workers := [Worker(p, k + 1)]) ==
            AfterSends(s, p, replies, k + 1)
  {
    PushNext(s.dests, p, replies, k);
    RefuseNext(s.refused, p, replies, k);
  }

  lemma SendNext(c: Config, s: State, p: Payload, replies: nat -> Reply, k: nat)
    requires Shaped(s) && c.filter(p) && k < |s.dests|
    ensures Apply(c, AfterSends(s, p, replies, k), Send(0, Took(replies(k)))) == AfterSends(s, p, replies, k + 1)
  {
    LoneSend(c, AfterSends(s, p, replies, k), p, k, Took(replies(k)));
    SendToNext(s, p, replies, k);
  }

  lemma AfterNoSends(s: State, p: Payload, replies: nat -> Reply)
    requires Shaped(s) && s.workers == [Worker(p, 0)]
    ensures AfterSends(s, p, replies, 0) == s
  {
    assert PushedWhere(s.dests[..0], p, replies) + s.dests[0..] == s.dests;
    assert RefusedWhere(s.refused[..0], p, replies) + s.refused[0..] == s.refused;
  }

  lemma {:induction false} SendsPushOnEach(c: Config, s: State, p: Payload, replies: nat -> Reply, n: nat)
    requires Shaped(s) && s.workers == [Worker(p, 0)] && c.filter(p) && n <= |s.dests|
    ensures Run(c, s, Sends(replies, n)) == AfterSends(s, p, replies, n)
    decreases n
  {
    if n == 0 {
      AfterNoSends(s, p, replies);
    } else {
      SendsPushOnEach(c, s, p, replies, n - 1);
      RunSnoc(c, s, Sends(replies, n - 1), Send(0, Took(replies(n - 1))));
      SendNext(c, s, p, replies, n - 1);
    }
  }

  /** All the steps of one goroutine, given what Redis replies to its publishes and to the
      acknowledgement. */
  function Lap(c: Config, s: State, p: Payload, replies: nat -> Reply, ack: Reply): seq<Step> {
    [Acquire] + (Sends(replies, if c.filter(p) then |s.dests| else 0) + [Acknowledge(0, Took(ack))])
  }

  lemma AckOnly(c: Config, s: State, p: Payload, n: nat, took: bool)
    requires Shaped(s) && s.workers == [Worker(p, n)] && n == if c.filter(p) then |s.dests| else 0
    ensures var t := Apply(c, s, Acknowledge(0, took));
            && t.workers == [] && t.unacked == (if took then RemoveFirst(s.unacked, p) else s.unacked)
            && t.dests == s.dests && t.refused == s.refused && t.ready == s.ready && t.deliveries == s.deliveries
  {
    assert Without(s.workers, 0) == [];
  }

  /** With nobody in between the machine does what RelayConsumer.Consume, below, does. */
  lemma LapIsConsume(c: Config, s: State, replies: nat -> Reply, ack: Reply)
    requires Shaped(s) && s.workers == [] && s.deliveries != [] && c.permits > 0
    ensures var p := s.deliveries[0];
            var t := Run(c, s, Lap(c, s, p, replies, ack));
            && t.workers == [] && t.deliveries == s.deliveries[1..] && t.ready == s.ready
            && t.unacked == (if Took(ack) then RemoveFirst(s.unacked, p) else s.unacked)
            && t.dests == (if c.filter(p) then PushedWhere(s.dests, p, replies) else s.dests)
            && t.refused == (if c.filter(p) then RefusedWhere(s.refused, p, replies) else s.refused)
  {
    var p := s.deliveries[0];
    var n := if c.filter(p) then |s.dests| else 0;
    var s1 := s.(deliveries := s.deliveries[1..], workers := [Worker(p, 0)]);
    assert s.workers + [Worker(p, 0)] == [Worker(p, 0)];
    RunOne(c, s, Acquire, Sends(replies, n) + [Acknowledge(0, Took(ack))]);
    RunSnoc(c, s1, Sends(replies, n), Acknowledge(0, Took(ack)));
    if c.filter(p) {
      SendsPushOnEach(c, s1, p, replies, n);
      assert s.dests[..n] == s.dests && s.refused[..n] == s.refused;
      AckOnly(c, AfterSends(s1, p, replies, n), p, n, Took(ack));
    } else {
      AckOnly(c, s1, p, 0, Took(ack));
    }
  }

  /** The relay ignores what its publishers answer. So one goroutine's work lowers the
      copies of its accepted payload in the source lists and at destination d exactly if
      the publish to d was not carried out and the acknowledgement was. */
  lemma RelayLapLosesIff(c: Config, s: State, replies: nat -> Reply, ack: Reply, d: nat)
    requires Shaped(s) && s.workers == [] && s.deliveries != [] && c.permits > 0 && d < |s.dests|
    requires var p := s.deliveries[0]; c.filter(p) && p != "" && p in s.unacked
    ensures var p := s.deliveries[0];
            Held(Run(c, s, Lap(c, s, p, replies, ack)), p, d) < Held(s, p, d) <==> !Took(replies(d)) && Took(ack)
  {
    var p := s.deliveries[0];
    LapIsConsume(c, s, replies, ack);
    CopiesWithoutFirst(s.unacked, p, p);
    CopiesOfOne(p, p);
    CopiesAppend([p], s.dests[d], p);
  }

  /** For one, a single destination whose only publish is refused: the payload is
      acknowledged and gone. */
  lemma RefusedPublishLoses(c: Config, p: Payload)
    requires c.filter(p) && p != "" && c.permits > 0
    ensures var s := Run(c, Idle(1), [Arrive(p)] + ([Fetch(true)] + ([Acquire] + ([Send(0, false)] + ([Acknowledge(0, true)] + [])))));
            s.published[p] == 1 && s.ready == [] && s.unacked == [] && s.dests == [[]]
  {
    RunOne(c, Idle(1), Arrive(p), [Fetch(true)] + ([Acquire] + ([Send(0, false)] + ([Acknowledge(0, true)] + []))));
    var s1 := Apply(c, Idle(1), Arrive(p));
    RunOne(c, s1, Fetch(true), [Acquire] + ([Send(0, false)] + ([Acknowledge(0, true)] + [])));
    var s2 := Apply(c, s1, Fetch(true));
    assert s2.ready == [] && s2.unacked == [p] && s2.deliveries == [p];
    RunOne(c, s2, Acquire, [Send(0, false)] + ([Acknowledge(0, true)] + []));
    var s3 := Apply(c, s2, Acquire);
    assert s3.workers == [Worker(p, 0)];
    RunOne(c, s3, Send(0, false), [Acknowledge(0, true)] + []);
    var s4 := Apply(c, s3, Send(0, false));
    assert s4.workers == [Worker(p, 1)];
    RunOne(c, s4, Acknowledge(0, true), []);
    assert s4.dests == [[]];
  }

  /** One goroutine of RelayConsumer.Consume, undisturbed. */
  class RelayConsumer {
    var unacked: List
    var dests: seq<List>

    constructor (unacked: List, dests: seq<List>)
      ensures this.unacked == unacked && this.dests == dests
    {
      this.unacked, this.dests := unacked, dests;
    }

    method Consume(filter: Payload -> bool, payload: Payload, replies: nat -> Reply, ack: Reply)
      modifies this
      ensures dests == if filter(payload) then PushedWhere(old(dests), payload, replies) else old(dests)
      ensures |dests| == |old(dests)|
      ensures forall d :: 0 <= d < |dests| ==>
                dests[d] == if filter(payload) && payload != "" && (replies(d).Done? || replies(d).late)
                            then [payload] + old(dests)[d] else old(dests)[d]
      ensures unacked == if Took(ack) then RemoveFirst(old(unacked), payload) else old(unacked)
    {
      if filter(payload) {
        PublishAll(payload, replies);
      }
      if Took(ack) {
        unacked := RemoveFirst(unacked, payload);
      }
    }

    /** Every publisher is called, whatever the ones before it answered. */
    method PublishAll(payload: Payload, replies: nat -> Reply)
      modifies this`dests
      ensures dests == PushedWhere(old(dests), payload, replies)
    {
      var before, n := dests, |dests|;
      for d := 0 to n
        invariant dests == PushedWhere(before[..d], payload, replies) + before[d..]
      {
        PushNext(before, payload, replies, d);
        if payload != "" && Took(replies(d)) {
          dests := dests[d := [payload] + dests[d]];
        }
      }
      assert before[..n] == before && before[n..] == [];
    }
  }
}
