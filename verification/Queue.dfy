/** Redis lists and the queue channel built on three of them. Index 0 of a list is
    its left end: publishing pushes on the left, consuming pops on the right. */
module Queue {
  import opened Redis
  import opened Text

  type Payload = string

  type List = seq<Payload>

  /** LREM key 1 p: the leftmost occurrence. */
  function RemoveFirst(l: List, p: Payload): (r: List)
    ensures multiset(r) == multiset(l) - multiset{p}
    ensures p !in l ==> r == l
  {
    if l == [] then []
    else
      assert l == [l[0]] + l[1..];
      if l[0] == p then l[1..] else [l[0]] + RemoveFirst(l[1..], p)
  }

  /** Which copy goes: the leftmost, at place i, and the others stay in order. */
  lemma {:induction false} RemovesLeftmost(l: List, p: Payload) returns (i: nat)
    requires p in l
    ensures i < |l| && l[i] == p && p !in l[..i]
    ensures RemoveFirst(l, p) == l[..i] + l[i + 1..]
    decreases l
  {
    if l[0] == p {
      i := 0;
    } else {
      var j := RemovesLeftmost(l[1..], p);
      i := j + 1;
      PutBackFirst(l, j);
    }
  }

  lemma PutBackFirst(l: List, j: nat)
    requires j + 1 < |l|
    ensures [l[0]] + (l[1..][..j] + l[1..][j + 1..]) == l[..j + 1] + l[j + 1 + 1..]
    ensures l[..j + 1] == [l[0]] + l[1..][..j]
  {
  }

  /** LTRIM key 0 -1-n: drop n entries on the right. */
  function TrimRight(l: List, n: nat): List {
    if n >= |l| then [] else l[..|l| - n]
  }

  /** A queue's lists, and what happened to every copy of every payload so far:
      moving: pushed by a Reject or Return whose LREM is still to come;
      orphaned: the same, but the LREM will never come or found nothing;
      missed: pushes of a Reject or Return that Redis refused with an error the code
      takes for success. */
  datatype Ledger = Ledger(
    ready: List, unacked: List, rejected: List,
    published: multiset<Payload>, removed: multiset<Payload>,
    moving: multiset<Payload>, orphaned: multiset<Payload>, missed: multiset<Payload>)

  /** The single Redis commands, as issued by any number of processes; a move whose LREM
      did nothing or never came; and a crash. */
  datatype Command =
    | Publish(p: Payload)
    | Take
    | Ack(p: Payload)
    | PushRejected(p: Payload, took: bool)
    | PushReturned(p: Payload, took: bool)
    | FinishMove(p: Payload)
    | GiveUp(p: Payload)
    | TakeBack
    | Trim(n: nat)
    | Crash

  function Apply(l: Ledger, c: Command): Ledger {
    match c
    case Publish(p) =>
      if p == "" then l else l.(ready := [p] + l.ready, published := l.published + multiset{p})
    case Take =>
      if l.ready == [] then l
      else l.(ready := l.ready[..|l.ready| - 1], unacked := [l.ready[|l.ready| - 1]] + l.unacked)
    case Ack(p) =>
      if p !in l.unacked then l
      else l.(unacked := RemoveFirst(l.unacked, p), removed := l.removed + multiset{p})
    case PushRejected(p, took) =>
      if took then l.(rejected := [p] + l.rejected, moving := l.moving + multiset{p})
      else l.(missed := l.missed + multiset{p}, moving := l.moving + multiset{p})
    case PushReturned(p, took) =>
      if took then l.(ready := l.ready + [p], moving := l.moving + multiset{p})
      else l.(missed := l.missed + multiset{p}, moving := l.moving + multiset{p})
    case FinishMove(p) =>
      if p !in l.moving then l
      else if p in l.unacked then
        l.(unacked := RemoveFirst(l.unacked, p), moving := l.moving - multiset{p})
      else l.(moving := l.moving - multiset{p}, orphaned := l.orphaned + multiset{p})
    case GiveUp(p) =>
      if p !in l.moving then l
      else l.(moving := l.moving - multiset{p}, orphaned := l.orphaned + multiset{p})
    case TakeBack =>
      if l.unacked == [] then l
      else l.(unacked := l.unacked[..|l.unacked| - 1], ready := [l.unacked[|l.unacked| - 1]] + l.ready)
    case Trim(n) =>
      var kept := TrimRight(l.rejected, n);
      l.(rejected := kept, removed := l.removed + multiset(l.rejected[|kept|..]))
    case Crash =>
      l.(moving := multiset{}, orphaned := l.orphaned + l.moving)
  }

  function Run(l: Ledger, commands: seq<Command>): Ledger
    decreases commands
  {
    if commands == [] then l else Run(Apply(l, commands[0]), commands[1..])
  }

  /** Copies of p in a list. */
  function Copies(l: List, p: Payload): nat {
    multiset(l)[p]
  }

  function Stored(l: Ledger, p: Payload): nat {
    Copies(l.ready, p) + Copies(l.unacked, p) + Copies(l.rejected, p)
  }

  /** Every copy of p is accounted for. */
  ghost predicate Balanced(l: Ledger, p: Payload) {
    Stored(l, p) + l.removed[p] + l.missed[p] == l.published[p] + l.moving[p] + l.orphaned[p]
  }

  lemma CopiesAppend(a: List, b: List, p: Payload)
    ensures Copies(a + b, p) == Copies(a, p) + Copies(b, p)
  {
    assert multiset(a + b) == multiset(a) + multiset(b);
  }

  lemma CopiesOfOne(x: Payload, p: Payload)
    ensures Copies([x], p) == if x == p then 1 else 0
  {
  }

  /** Moving a list's last entry elsewhere. */
  lemma CopiesSplit(l: List, at: nat, p: Payload)
    requires at <= |l|
    ensures Copies(l, p) == Copies(l[..at], p) + Copies(l[at..], p)
  {
    assert l == l[..at] + l[at..];
    CopiesAppend(l[..at], l[at..], p);
  }

  lemma PushBalances(l: Ledger, c: Command, p: Payload)
    requires Balanced(l, p) && (c.Publish? || c.PushRejected? || c.PushReturned?)
    ensures Balanced(Apply(l, c), p)
  {
    CopiesOfOne(c.p, p);
    CopiesAppend([c.p], l.ready, p);
    CopiesAppend(l.ready, [c.p], p);
    CopiesAppend([c.p], l.rejected, p);
  }

  lemma RotateBalances(l: Ledger, c: Command, p: Payload)
    requires Balanced(l, p) && (c.Take? || c.TakeBack?)
    ensures Balanced(Apply(l, c), p)
  {
    var from, to := if c.Take? then l.ready else l.unacked, if c.Take? then l.unacked else l.ready;
    if from != [] {
      CopiesSplit(from, |from| - 1, p);
      assert from[|from| - 1..] == [from[|from| - 1]];
      CopiesAppend([from[|from| - 1]], to, p);
    }
  }

  lemma CopiesWithoutFirst(l: List, q: Payload, p: Payload)
    ensures q in l ==> Copies(l, p) == Copies(RemoveFirst(l, q), p) + (if p == q then 1 else 0)
  {
    assert q in l <==> q in multiset(l);
  }

  lemma RemoveBalances(l: Ledger, c: Command, p: Payload)
    requires Balanced(l, p) && (c.Ack? || c.FinishMove? || c.GiveUp?)
    ensures Balanced(Apply(l, c), p)
  {
    CopiesWithoutFirst(l.unacked, c.p, p);
  }

  lemma TrimBalances(l: Ledger, n: nat, p: Payload)
    requires Balanced(l, p)
    ensures Balanced(Apply(l, Trim(n)), p)
  {
    var kept := TrimRight(l.rejected, n);
    assert kept == l.rejected[..|kept|];
    CopiesSplit(l.rejected, |kept|, p);
  }

  lemma CrashBalances(l: Ledger, p: Payload)
    requires Balanced(l, p)
    ensures Balanced(Apply(l, Crash), p)
  {
  }

  lemma StepBalances(l: Ledger, c: Command, p: Payload)
    requires Balanced(l, p)
    ensures Balanced(Apply(l, c), p)
  {
    if c.Trim? {
      TrimBalances(l, c.n, p);
    } else if c.Crash? {
      CrashBalances(l, p);
    } else if c.Take? || c.TakeBack? {
      RotateBalances(l, c, p);
    } else if c.Ack? || c.FinishMove? || c.GiveUp? {
      RemoveBalances(l, c, p);
    } else {
      PushBalances(l, c, p);
    }
  }

  /** A crash changes no list, and no removal of an interrupted move ever comes. */
  lemma CrashEndsMoves(l: Ledger, p: Payload)
    ensures var t := Apply(l, Crash);
            && t.ready == l.ready && t.unacked == l.unacked && t.rejected == l.rejected
            && t.moving == multiset{} && t.orphaned == l.orphaned + l.moving
            && Apply(t, FinishMove(p)) == t
  {
  }

  /** Conservation at every command of every interleaving, crashes included. */
  lemma {:induction false} AlwaysBalanced(l: Ledger, commands: seq<Command>, p: Payload)
    requires Balanced(l, p)
    ensures Balanced(Run(l, commands), p)
    decreases commands
  {
    if commands == [] {
    } else {
      StepBalances(l, commands[0], p);
      AlwaysBalanced(Apply(l, commands[0]), commands[1..], p);
    }
  }

  predicate EveryPushTook(commands: seq<Command>) {
    forall c :: c in commands ==> (c.PushRejected? || c.PushReturned? ==> c.took)
  }

  lemma {:induction false} NothingMissed(l: Ledger, commands: seq<Command>)
    requires EveryPushTook(commands)
    ensures Run(l, commands).missed == l.missed
    decreases commands
  {
    if commands == [] {
    } else {
      assert commands[0] in commands;
      assert forall c :: c in commands[1..] ==> c in commands;
      NothingMissed(Apply(l, commands[0]), commands[1..]);
    }
  }

  const EMPTY := Ledger([], [], [], multiset{}, multiset{}, multiset{}, multiset{}, multiset{})

  /** No lost messages: if Redis carries out the pushes, then at every command the copies
      stored plus the copies removed by Ack or purge are never fewer than the copies
      published, and there are more exactly while a Reject or Return is unfinished or
      was interrupted. */
  lemma NoLostMessages(commands: seq<Command>, p: Payload)
    requires EveryPushTook(commands)
    ensures var l := Run(EMPTY, commands);
            && Stored(l, p) + l.removed[p] >= l.published[p]
            && (Stored(l, p) + l.removed[p] > l.published[p] <==> p in l.moving || p in l.orphaned)
  {
    AlwaysBalanced(EMPTY, commands, p);
    NothingMissed(EMPTY, commands);
  }

  /** In general copies are missing exactly when more pushes were refused than are outstanding. */
  lemma LostIffRefused(commands: seq<Command>, p: Payload)
    ensures var l := Run(EMPTY, commands);
            Stored(l, p) + l.removed[p] < l.published[p] <==> l.missed[p] > l.moving[p] + l.orphaned[p]
  {
    AlwaysBalanced(EMPTY, commands, p);
  }

  lemma RunStep(l: Ledger, c: Command, rest: seq<Command>)
    ensures Run(l, [c] + rest) == Run(Apply(l, c), rest)
  {
    assert ([c] + rest)[1..] == rest;
  }

  /** A push that Redis refuses does lose the message: redisErrIsNil lets the LREM go ahead. */
  lemma RefusedPushLoses(p: Payload)
    requires p != ""
    ensures var l := Run(EMPTY, [Publish(p)] + ([Take] + ([PushRejected(p, false)] + ([FinishMove(p)] + []))));
            l.published[p] == 1 && Stored(l, p) + l.removed[p] == 0
  {
    RunStep(EMPTY, Publish(p), [Take] + ([PushRejected(p, false)] + ([FinishMove(p)] + [])));
    var l1 := Apply(EMPTY, Publish(p));
    RunStep(l1, Take, [PushRejected(p, false)] + ([FinishMove(p)] + []));
    var l2 := Apply(l1, Take);
    assert l2.ready == [] && l2.unacked == [p];
    RunStep(l2, PushRejected(p, false), [FinishMove(p)] + []);
    var l3 := Apply(l2, PushRejected(p, false));
    RunStep(l3, FinishMove(p), []);
  }

  const PURGE_BATCH_SIZE := 100

  /** What arrivals(0), arrivals(1), ... leave at the left end after k of them. */
  function Arrived(arrivals: nat -> List, k: nat): List
    decreases k
  {
    if k == 0 then [] else arrivals(k - 1) + Arrived(arrivals, k - 1)
  }

  function PushCommand(p: Payload, back: bool, took: bool): Command {
    if back then PushReturned(p, took) else PushRejected(p, took)
  }

  /** What a Return (back) or a Reject does to the lists, given Redis's replies. */
  function MoveCommands(p: Payload, back: bool, push: Reply, remove: Reply): seq<Command> {
    if push.TimedOut? then (if push.late then [PushCommand(p, back, true), GiveUp(p)] else [])
    else [PushCommand(p, back, Took(push)), if Took(remove) then FinishMove(p) else GiveUp(p)]
  }

  lemma RunTwo(l: Ledger, c: Command, d: Command)
    ensures Run(l, [c, d]) == Apply(Apply(l, c), d)
  {
    assert [c, d] == [c] + ([d] + []);
    RunStep(l, c, [d] + []);
    RunStep(Apply(l, c), d, []);
  }

  /** The lists after a move. */
  lemma MoveLists(l: Ledger, p: Payload, back: bool, push: Reply, remove: Reply)
    ensures var m := Run(l, MoveCommands(p, back, push, remove));
            && m.rejected == (if Took(push) && !back then [p] + l.rejected else l.rejected)
            && m.ready == (if Took(push) && back then l.ready + [p] else l.ready)
            && m.unacked == (if !push.TimedOut? && Took(remove) then RemoveFirst(l.unacked, p) else l.unacked)
  {
    var commands := MoveCommands(p, back, push, remove);
    if commands != [] {
      RunTwo(l, commands[0], commands[1]);
      assert commands == [commands[0], commands[1]];
    }
  }

  /** A Reject or Return loses its message exactly if Redis refused the push and then
      carried out the removal; interrupted in any other way it can only duplicate. */
  lemma MoveLosesIff(l: Ledger, p: Payload, back: bool, push: Reply, remove: Reply)
    requires p in l.unacked
    ensures Stored(Run(l, MoveCommands(p, back, push, remove)), p) < Stored(l, p) <==> push.Failed? && !push.late && Took(remove)
  {
    MoveLists(l, p, back, push, remove);
    CopiesOfOne(p, p);
    CopiesAppend([p], l.rejected, p);
    CopiesAppend(l.ready, [p], p);
    CopiesWithoutFirst(l.unacked, p, p);
  }

  lemma {:induction false} RunAppend(l: Ledger, a: seq<Command>, b: seq<Command>)
    ensures Run(l, a + b) == Run(Run(l, a), b)
    decreases a
  {
    if a == [] {
      assert a + b == b;
    } else {
      assert (a + b)[1..] == a[1..] + b;
      RunAppend(Apply(l, a[0]), a[1..], b);
    }
  }

  lemma RunSnoc(l: Ledger, commands: seq<Command>, c: Command)
    ensures Run(l, commands + [c]) == Apply(Run(l, commands), c)
  {
    RunAppend(l, commands, [c]);
    RunStep(Run(l, commands), c, []);
    assert [c] + [] == [c];
  }

  /** How payloads get on the rejected list so that they stand there as ps. */
  function Rejections(ps: List): (r: seq<Command>)
    ensures EveryPushTook(r)
    decreases ps
  {
    if ps == [] then [] else Rejections(ps[1..]) + [PushRejected(ps[0], true)]
  }

  lemma {:induction false} RejectionsArrive(l: Ledger, ps: List)
    ensures var m := Run(l, Rejections(ps));
            m.rejected == ps + l.rejected && m.ready == l.ready && m.unacked == l.unacked
    decreases ps
  {
    if ps == [] {
    } else {
      RejectionsArrive(l, ps[1..]);
      RunSnoc(l, Rejections(ps[1..]), PushRejected(ps[0], true));
      PrependTail(ps, 0, l.rejected);
      assert ps[0..] == ps;
    }
  }

  lemma PrependTail(l: List, kept: nat, rest: List)
    requires kept < |l|
    ensures [l[kept]] + (l[kept + 1..] + rest) == l[kept..] + rest
  {
    assert [l[kept]] + l[kept + 1..] == l[kept..];
    assert [l[kept]] + (l[kept + 1..] + rest) == [l[kept]] + l[kept + 1..] + rest;
  }

  /** Taking the last entry of left + right over to the front of taken. */
  lemma MoveLast(left: List, right: List, taken: List, rest: List)
    requires right != []
    ensures var all, n := left + right, |right| - 1;
            && all[|all| - 1] == right[n] && all[..|all| - 1] == left + right[..n]
            && right[..n] + ([right[n]] + taken) == right + taken
            && [right[n]] + (taken + rest) == [right[n]] + taken + rest
  {
  }

  function TakeBacks(n: nat): (r: seq<Command>)
    ensures EveryPushTook(r)
    decreases n
  {
    if n == 0 then [] else TakeBacks(n - 1) + [TakeBack]
  }

  lemma TakeBackStep(l: Ledger, m: Ledger, kept: nat)
    requires kept < |l.unacked|
    requires m.unacked == l.unacked[..kept + 1] && m.ready == l.unacked[kept + 1..] + l.ready
    ensures Apply(m, TakeBack).unacked == l.unacked[..kept]
    ensures Apply(m, TakeBack).ready == l.unacked[kept..] + l.ready
    ensures Apply(m, TakeBack).rejected == m.rejected
  {
    PrependTail(l.unacked, kept, l.ready);
    assert l.unacked[..kept + 1][..kept] == l.unacked[..kept];
  }

  /** m is l with its last n unacked deliveries ready again, in the same order. */
  ghost predicate TookBack(l: Ledger, m: Ledger, n: nat) {
    && n <= |l.unacked| && m.rejected == l.rejected
    && m.unacked == l.unacked[..|l.unacked| - n] && m.ready == l.unacked[|l.unacked| - n..] + l.ready
  }

  lemma TakeBackNext(l: Ledger, m: Ledger, n: nat)
    requires TookBack(l, m, n) && n < |l.unacked|
    ensures TookBack(l, Apply(m, TakeBack), n + 1)
  {
    TakeBackStep(l, m, |l.unacked| - (n + 1));
  }

  lemma TookBackNone(l: Ledger)
    ensures TookBack(l, l, 0)
  {
  }

  /** Unacked deliveries taken back one by one keep their order, wherever that stops. */
  lemma {:induction false} TakeBacksKeepOrder(l: Ledger, n: nat)
    requires n <= |l.unacked|
    ensures TookBack(l, Run(l, TakeBacks(n)), n)
    decreases n
  {
    if n == 0 {
      TookBackNone(l);
    } else {
      TakeBacksKeepOrder(l, n - 1);
      TakeBackNext(l, Run(l, TakeBacks(n - 1)), n - 1);
      RunSnoc(l, TakeBacks(n - 1), TakeBack);
    }
  }

  /** What a purge still has to trim after k batches, if every trim is carried out. */
  function Rest(total: nat, k: nat): nat {
    if PURGE_BATCH_SIZE * k >= total then 0 else total - PURGE_BATCH_SIZE * k
  }

  function BatchSize(total: nat, k: nat): nat {
    Rest(total, k) - Rest(total, k + 1)
  }

  /** How many of the first entries are left after k batches, given Redis's replies. */
  function Kept(replies: nat -> Reply, total: nat, k: nat): (n: nat)
    ensures Rest(total, k) <= n <= total
    decreases k
  {
    if k == 0 then total
    else Kept(replies, total, k - 1) - (if Took(replies(k - 1)) then BatchSize(total, k - 1) else 0)
  }

  /** Nothing but what is still to come is left exactly if every trim so far was carried out. */
  lemma {:induction false} KeptIffAllTook(replies: nat -> Reply, total: nat, k: nat)
    requires PURGE_BATCH_SIZE * k < total + PURGE_BATCH_SIZE
    ensures Kept(replies, total, k) == Rest(total, k) <==> AllTook(replies, k)
    decreases k
  {
    if k == 0 {
    } else {
      KeptIffAllTook(replies, total, k - 1);
      assert AllTook(replies, k) <==> AllTook(replies, k - 1) && Took(replies(k - 1));
    }
  }

  /** The first k batches of a purge, other processes rejecting arrivals(i) before batch i. */
  function PurgeCommands(arrivals: nat -> List, replies: nat -> Reply, total: nat, k: nat): (r: seq<Command>)
    ensures EveryPushTook(r)
    decreases k
  {
    if k == 0 then []
    else PurgeCommands(arrivals, replies, total, k - 1) + Rejections(arrivals(k - 1))
         + [Trim(Kept(replies, total, k - 1) - Kept(replies, total, k))]
  }

  /** A trim inside the right part leaves the left part alone. */
  lemma TrimKeepsLeft(left: List, right: List, n: nat)
    requires n <= |right|
    ensures TrimRight(left + right, n) == left + right[..|right| - n]
  {
    if n == |left + right| {
      assert left == [] && right[..|right| - n] == [];
    } else {
      assert (left + right)[..|left + right| - n] == left + right[..|right| - n];
    }
  }

  lemma TrimPrefix(left: List, was: List, m: nat, n: nat)
    requires n <= m <= |was|
    ensures TrimRight(left + was[..m], n) == left + was[..m - n]
  {
    TrimKeepsLeft(left, was[..m], n);
    assert was[..m][..m - n] == was[..m - n];
  }

  lemma AllThere(arrivals: nat -> List, was: List)
    ensures Arrived(arrivals, 0) + was[..|was|] == was
  {
  }

  /** One batch of a purge of what was there at first. */
  lemma BatchLeaves(arrivals: nat -> List, replies: nat -> Reply, was: List, k: nat)
    ensures var total := |was|;
            var grown := arrivals(k) + (Arrived(arrivals, k) + was[..Kept(replies, total, k)]);
            (if Took(replies(k)) then TrimRight(grown, BatchSize(total, k)) else grown)
            == Arrived(arrivals, k + 1) + was[..Kept(replies, total, k + 1)]
  {
    var n := Kept(replies, |was|, k);
    assert arrivals(k) + (Arrived(arrivals, k) + was[..n]) == Arrived(arrivals, k + 1) + was[..n];
    if Took(replies(k)) {
      TrimPrefix(Arrived(arrivals, k + 1), was, n, BatchSize(|was|, k));
    }
  }

  lemma BatchRuns(l: Ledger, before: seq<Command>, ps: List, left: List, right: List, n: nat)
    requires Run(l, before).rejected == left + right && n <= |right|
    ensures var m := Run(l, before + Rejections(ps) + [Trim(n)]);
            && m.rejected == ps + left + right[..|right| - n]
            && m.ready == Run(l, before).ready && m.unacked == Run(l, before).unacked
  {
    RunAppend(l, before, Rejections(ps));
    RejectionsArrive(Run(l, before), ps);
    RunSnoc(l, before + Rejections(ps), Trim(n));
    assert ps + (left + right) == ps + left + right;
    TrimKeepsLeft(ps + left, right, n);
  }

  /** The entries there at first go from the oldest on, as many as were trimmed. */
  lemma {:induction false} PurgeRemovesOldest(l: Ledger, arrivals: nat -> List, replies: nat -> Reply, k: nat)
    ensures var total := |l.rejected|;
            var m := Run(l, PurgeCommands(arrivals, replies, total, k));
            && m.rejected == Arrived(arrivals, k) + l.rejected[..Kept(replies, total, k)]
            && m.ready == l.ready && m.unacked == l.unacked
    decreases k
  {
    var total := |l.rejected|;
    if k == 0 {
      assert l.rejected[..Kept(replies, total, k)] == l.rejected;
    } else {
      PurgeRemovesOldest(l, arrivals, replies, k - 1);
      PurgeBatch(l, arrivals, replies, k);
    }
  }

  lemma PurgeBatch(l: Ledger, arrivals: nat -> List, replies: nat -> Reply, k: nat)
    requires k > 0
    requires Run(l, PurgeCommands(arrivals, replies, |l.rejected|, k - 1)).rejected ==
             Arrived(arrivals, k - 1) + l.rejected[..Kept(replies, |l.rejected|, k - 1)]
    ensures var total := |l.rejected|;
            var m, m' := Run(l, PurgeCommands(arrivals, replies, total, k - 1)), Run(l, PurgeCommands(arrivals, replies, total, k));
            && m'.rejected == Arrived(arrivals, k) + l.rejected[..Kept(replies, total, k)]
            && m'.ready == m.ready && m'.unacked == m.unacked
  {
    var total := |l.rejected|;
    var right, n := l.rejected[..Kept(replies, total, k - 1)], Kept(replies, total, k - 1) - Kept(replies, total, k);
    var before := PurgeCommands(arrivals, replies, total, k - 1);
    BatchRuns(l, before, arrivals(k - 1), Arrived(arrivals, k - 1), right, n);
    assert right[..|right| - n] == l.rejected[..Kept(replies, total, k)];
    assert PurgeCommands(arrivals, replies, total, k) == before + Rejections(arrivals(k - 1)) + [Trim(n)];
  }

  /** queueConsumerChannel and its deliveries. The ledger ties what they do to the commands above. */
  class QueueChannel {
    var ready: List
    var unacked: List
    var rejected: List
    ghost var ledger: Ledger

    ghost predicate Valid()
      reads this
    {
      ledger.ready == ready && ledger.unacked == unacked && ledger.rejected == rejected
    }

    constructor ()
      ensures Valid() && ledger == EMPTY
    {
      ready, unacked, rejected, ledger := [], [], [], EMPTY;
    }

    method Publish(payload: Payload, reply: Reply) returns (ok: bool)
      requires Valid()
      modifies this`ready, this`ledger
      ensures Valid() && ledger == if Took(reply) then Apply(old(ledger), Command.Publish(payload)) else old(ledger)
      ensures ready == if Took(reply) && payload != "" then [payload] + old(ready) else old(ready)
      ensures ok <==> payload != "" && !reply.TimedOut?
    {
      if |payload| == 0 {
        return false;
      }
      if Took(reply) {
        ready := [payload] + ready;
        ledger := Apply(ledger, Command.Publish(payload));
      }
      return !reply.TimedOut?;
    }

    /** One BRPOPLPUSH of consume. An error other than a timeout delivers an empty payload
        that was never published; a late error of either kind moves an entry without
        delivering it. */
    method Take(reply: Reply) returns (delivery: Option<Payload>)
      requires Valid()
      modifies this`ready, this`unacked, this`ledger
      ensures Valid() && ledger == if Took(reply) then Apply(old(ledger), Command.Take) else old(ledger)
      ensures delivery.None? <==> reply.TimedOut? || (reply.Done? && old(ready) == [])
      ensures reply.Failed? ==> delivery == Some("")
      ensures reply.Done? && delivery.Some? ==>
                && old(ready) == ready + [delivery.value] && unacked == [delivery.value] + old(unacked)
    {
      delivery := if reply.Failed? then Some("") else None;
      if Took(reply) {
        ledger := Apply(ledger, Command.Take);
        if ready != [] {
          var last := ready[|ready| - 1];
          ready, unacked := ready[..|ready| - 1], [last] + unacked;
          delivery := if reply.Done? then Some(last) else delivery;
        }
      }
    }

    method Ack(payload: Payload, reply: Reply) returns (ok: bool)
      requires Valid()
      modifies this`unacked, this`ledger
      ensures Valid() && ledger == if Took(reply) then Apply(old(ledger), Command.Ack(payload)) else old(ledger)
      ensures unacked == if Took(reply) then RemoveFirst(old(unacked), payload) else old(unacked)
      ensures ok <==> reply.Done? && payload in old(unacked)
    {
      ok := reply.Done? && payload in unacked;
      if Took(reply) {
        unacked := RemoveFirst(unacked, payload);
        ledger := Apply(ledger, Command.Ack(payload));
      }
    }

    /** Enter in the ledger commands that led to the lists as they are now. */
    ghost method EnterRun(commands: seq<Command>)
      requires var l := Run(ledger, commands); l.ready == ready && l.unacked == unacked && l.rejected == rejected
      modifies this`ledger
      ensures Valid() && ledger == Run(old(ledger), commands)
    {
      ledger := Run(ledger, commands);
    }

    method Reject(payload: Payload, push: Reply, remove: Reply) returns (ok: bool)
      requires Valid()
      modifies this`unacked, this`rejected, this`ledger
      ensures Valid() && ledger == Run(old(ledger), MoveCommands(payload, false, push, remove))
      ensures ok <==> !push.TimedOut? && !remove.TimedOut?
      ensures push.Done? && remove.Done? ==>
                rejected == [payload] + old(rejected) && unacked == RemoveFirst(old(unacked), payload)
    {
      MoveLists(ledger, payload, false, push, remove);
      ok := Move(payload, push, remove);
      EnterRun(MoveCommands(payload, false, push, remove));
    }

    /** A push on the rejected list, then a removal from the unacked list. */
    method Move(payload: Payload, push: Reply, remove: Reply) returns (ok: bool)
      modifies this`unacked, this`rejected
      ensures ok <==> !push.TimedOut? && !remove.TimedOut?
      ensures rejected == if Took(push) then [payload] + old(rejected) else old(rejected)
      ensures unacked == if !push.TimedOut? && Took(remove) then RemoveFirst(old(unacked), payload) else old(unacked)
    {
      if Took(push) {
        rejected := [payload] + rejected;
      }
      if push.TimedOut? {
        return false;
      }
      if Took(remove) {
        unacked := RemoveFirst(unacked, payload);
      }
      return !remove.TimedOut?;
    }

    /** Back on the right end: the next to be taken. */
    method Return(payload: Payload, push: Reply, remove: Reply) returns (ok: bool)
      requires Valid()
      modifies this`unacked, this`ready, this`ledger
      ensures Valid() && ledger == Run(old(ledger), MoveCommands(payload, true, push, remove))
      ensures ok <==> !push.TimedOut? && !remove.TimedOut?
      ensures push.Done? && remove.Done? ==>
                ready == old(ready) + [payload] && unacked == RemoveFirst(old(unacked), payload)
    {
      MoveLists(ledger, payload, true, push, remove);
      ok := MoveBack(payload, push, remove);
      EnterRun(MoveCommands(payload, true, push, remove));
    }

    /** The two commands of Return. */
    method MoveBack(payload: Payload, push: Reply, remove: Reply) returns (ok: bool)
      modifies this`unacked, this`ready
      ensures ok <==> !push.TimedOut? && !remove.TimedOut?
      ensures ready == if Took(push) then old(ready) + [payload] else old(ready)
      ensures unacked == if !push.TimedOut? && Took(remove) then RemoveFirst(old(unacked), payload) else old(unacked)
    {
      if Took(push) {
        ready := ready + [payload];
      }
      if push.TimedOut? {
        return false;
      }
      if Took(remove) {
        unacked := RemoveFirst(unacked, payload);
      }
      return !remove.TimedOut?;
    }

    ghost method EnterTakeBacks(n: nat)
      requires TookBack(ledger, ledger.(ready := ready, unacked := unacked, rejected := rejected), n)
      modifies this`ledger
      ensures Valid() && ledger == Run(old(ledger), TakeBacks(n))
    {
      TakeBacksKeepOrder(ledger, n);
      EnterRun(TakeBacks(n));
    }

    /** RPOPLPUSH, as many times as there were unacked deliveries, or until one times out;
        not at all if LLEN fails. Wherever it stops, the order of what was unacked and
        ready is kept. */
    method ReturnAllUnacked(length: Reply, replies: nat -> Reply) returns (count: nat, ghost moved: nat)
      requires Valid()
      modifies this`unacked, this`ready, this`ledger
      ensures Valid() && moved <= |old(unacked)| && ledger == Run(old(ledger), TakeBacks(moved))
      ensures var kept := |old(unacked)| - moved;
              unacked == old(unacked)[..kept] && ready == old(unacked)[kept..] + old(ready)
      ensures !length.Done? ==> count == moved == 0
      ensures length.Done? && (forall i :: 0 <= i < |old(unacked)| ==> replies(i).Done?) ==> count == moved == |old(unacked)|
      ensures length.Done? && count < |old(unacked)| ==> replies(count).TimedOut?
    {
      count, moved := PopAll(length, replies);
      EnterTakeBacks(moved);
    }

    /** Its loop. */
    method PopAll(length: Reply, replies: nat -> Reply) returns (count: nat, ghost moved: nat)
      modifies this`unacked, this`ready
      ensures moved <= |old(unacked)|
      ensures var kept := |old(unacked)| - moved;
              unacked == old(unacked)[..kept] && ready == old(unacked)[kept..] + old(ready)
      ensures !length.Done? ==> count == moved == 0
      ensures length.Done? && (forall i :: 0 <= i < |old(unacked)| ==> replies(i).Done?) ==> count == moved == |old(unacked)|
      ensures length.Done? && count < |old(unacked)| ==> replies(count).TimedOut?
    {
      if !length.Done? {
        return 0, 0;
      }
      var unackedCount := |unacked|;
      ghost var taken: List := [];
      for i := 0 to unackedCount
        invariant |taken| <= i && unacked + taken == old(unacked) && ready == taken + old(ready)
        invariant (forall j :: 0 <= j < i ==> replies(j).Done?) ==> |taken| == i
      {
        if Took(replies(i)) {
          var last := unacked[|unacked| - 1];
          PrependTail(unacked, |unacked| - 1, taken);
          unacked, ready, taken := unacked[..|unacked| - 1], [last] + ready, [last] + taken;
          assert unacked + taken == old(unacked);
        }
        if replies(i).TimedOut? {
          return i, |taken|;
        }
      }
      return unackedCount, |taken|;
    }

    /** Before batch i other processes reject arrivals(i). The entries there at the start
        go away, oldest first: all of them exactly if Redis carried out every trim. The
        count returned is theirs either way. */
    method PurgeRejected(arrivals: nat -> List, length: Reply, replies: nat -> Reply)
      returns (total: nat, ghost batches: nat, ghost kept: nat)
      requires Valid()
      modifies this`rejected, this`ledger
      ensures Valid()
      ensures ledger == Run(old(ledger), PurgeCommands(arrivals, replies, |old(rejected)|, batches))
      ensures total == if length.Done? then |old(rejected)| else 0
      ensures kept <= |old(rejected)| && rejected == Arrived(arrivals, batches) + old(rejected)[..kept]
      ensures length.Done? ==> (kept == 0 <==> AllTook(replies, batches))
      ensures !length.Done? ==> batches == 0
      ensures total <= 100 * batches < total + 100
    {
      total, batches, kept := DeleteRedisList(arrivals, length, replies);
      PurgeRemovesOldest(ledger, arrivals, replies, batches);
      EnterRun(PurgeCommands(arrivals, replies, |old(rejected)|, batches));
    }

    /** Trims of at most a hundred, until they add up to as many as there were at first. */
    method DeleteRedisList(arrivals: nat -> List, length: Reply, replies: nat -> Reply)
      returns (total: nat, ghost batches: nat, ghost kept: nat)
      modifies this`rejected
      ensures total == if length.Done? then |old(rejected)| else 0
      ensures kept == Kept(replies, |old(rejected)|, batches)
      ensures rejected == Arrived(arrivals, batches) + old(rejected)[..kept]
      ensures length.Done? ==> (kept == 0 <==> AllTook(replies, batches))
      ensures !length.Done? ==> batches == 0
      ensures total <= 100 * batches < total + 100
    {
      if !length.Done? {
        AllThere(arrivals, rejected);
        return 0, 0, |rejected|;
      }
      total := |rejected|;
      var todo: int := total;
      var batch := 0;
      ghost var was := rejected;
      AllThere(arrivals, was);
      while todo > 0
        invariant todo == total - PURGE_BATCH_SIZE * batch && todo > -PURGE_BATCH_SIZE
        invariant rejected == Arrived(arrivals, batch) + was[..Kept(replies, total, batch)]
      {
        BatchLeaves(arrivals, replies, was, batch);
        rejected := arrivals(batch) + rejected;
        var batchSize := PURGE_BATCH_SIZE;
        if batchSize > todo {
          batchSize := todo;
        }
        assert batchSize == BatchSize(total, batch);
        rejected := if Took(replies(batch)) then TrimRight(rejected, batchSize) else rejected;
        todo, batch := todo - PURGE_BATCH_SIZE, batch + 1;
      }
      KeptIffAllTook(replies, total, batch);
      batches, kept := batch, Kept(replies, total, batch);
    }
  }

  /** The entries of a list in the order in which they are taken from it. */
  function OldestFirst(l: List): (r: seq<Payload>)
    ensures |r| == |l|
  {
    if l == [] then [] else OldestFirst(l[1..]) + [l[0]]
  }

  lemma {:induction false} OldestFirstAppend(a: List, b: List)
    ensures OldestFirst(a + b) == OldestFirst(b) + OldestFirst(a)
  {
    if a == [] {
      assert a + b == b;
    } else {
      assert (a + b)[1..] == a[1..] + b;
      OldestFirstAppend(a[1..], b);
    }
  }

  /** js/publishers.js: messages wait in a resumption list until it is flushed. */
  class QueuePublisher {
    var resumption: List
    var queue: List

    /** The messages waiting, in the order they were queued in. */
    ghost function Waiting(): seq<Payload>
      reads this
    {
      OldestFirst(resumption)
    }

    /** What consumers will take, first things first. */
    ghost function Deliverable(): seq<Payload>
      reads this
    {
      OldestFirst(queue)
    }

    method QueueMessage(message: Payload)
      modifies this`resumption
      ensures Waiting() == old(Waiting()) + [message]
    {
      OldestFirstAppend([message], resumption);
      resumption := [message] + resumption;
    }

    /** LLEN, then that many RPOPLPUSH, whatever they answer; arrivals(i) is queued before
        pop i. Of what was waiting, as many messages as there were pops carried out join
        what consumers take, in the order they were queued in; the rest and what arrives
        meanwhile keep waiting. */
    method FlushQueue(length: Reply, arrivals: nat -> List, replies: nat -> Reply) returns (ghost rounds: nat, ghost moved: nat)
      modifies this
      ensures rounds == if length.Done? then |old(Waiting())| else 0
      ensures moved <= rounds && (moved == rounds <==> AllTook(replies, rounds))
      ensures Deliverable() == old(Deliverable()) + old(Waiting())[..moved]
      ensures Waiting() == old(Waiting())[moved..] + OldestFirst(Arrived(arrivals, rounds))
    {
      rounds, moved := PopBatch(length, arrivals, replies);
      ghost var l, kept := old(resumption), |old(resumption)| - moved;
      assert l == l[..kept] + l[kept..];
      OldestFirstAppend(l[..kept], l[kept..]);
      OldestFirstAppend(l[kept..], old(queue));
      OldestFirstAppend(Arrived(arrivals, rounds), l[..kept]);
    }

    /** Its batch. */
    method PopBatch(length: Reply, arrivals: nat -> List, replies: nat -> Reply) returns (ghost rounds: nat, ghost moved: nat)
      modifies this
      ensures rounds == if length.Done? then |old(resumption)| else 0
      ensures moved <= rounds && (moved == rounds <==> AllTook(replies, rounds))
      ensures var kept := |old(resumption)| - moved;
              && queue == old(resumption)[kept..] + old(queue)
              && resumption == Arrived(arrivals, rounds) + old(resumption)[..kept]
    {
      if !length.Done? {
        assert Arrived(arrivals, 0) + resumption[..|resumption|] == resumption;
        return 0, 0;
      }
      var count := |resumption|;
      ghost var left: List, right, taken: List, was, behind := [], resumption, [], resumption, queue;
      for i := 0 to count
        invariant left == Arrived(arrivals, i) && resumption == left + right
        invariant right + taken == was && queue == taken + behind
        invariant |taken| == Carried(replies, i)
      {
        resumption, left := arrivals(i) + resumption, arrivals(i) + left;
        assert resumption == left + right;
        if Took(replies(i)) {
          MoveLast(left, right, taken, behind);
          RPopLPush();
          right, taken := right[..|right| - 1], [right[|right| - 1]] + taken;
        }
      }
      CarriedAllIff(replies, count);
      return count, |taken|;
    }

    method RPopLPush()
      requires resumption != []
      modifies this
      ensures resumption == old(resumption)[..|old(resumption)| - 1]
      ensures queue == [old(resumption)[|old(resumption)| - 1]] + old(queue)
    {
      var last := resumption[|resumption| - 1];
      resumption, queue := resumption[..|resumption| - 1], [last] + queue;
    }
  }
}
