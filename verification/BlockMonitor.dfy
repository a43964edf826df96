/** monitor/blocks: following a chain that may reorganise between any two requests. */
module BlockMonitor {
  import opened Division
  import Redis
  import opened RingBuffer
  import opened Text

  datatype Header = Header(hash: Hash, parentHash: Hash, number: nat, bloom: int)

  function Mini(h: Header): MiniBlock {
    MiniBlock(h.hash, h.number, h.bloom)
  }

  datatype Request = Latest | ByNumber(number: nat) | ByHash(hash: Hash)

  datatype Reply = NotFound | Failed | Found(header: Header)

  /** Everything outside the monitor, free to answer differently at every tick of the
      clock: headers, what Redis replies to a publish and to a recording, and whether the
      recorded height can be read. */
  datatype Node = Node(
    headers: (nat, Request) -> Reply, recalls: nat -> bool,
    publishes: nat -> Redis.Reply, records: nat -> Redis.Reply)

  /** One block that was published, or that the publisher says was: how many parents were
      requested to reach it, whether Redis got it, and whether its height was then recorded. */
  datatype Entry = Entry(header: Header, requests: nat, received: bool, recorded: bool)

  /** The buffer, and what outlives a crash: the published log, the recorded height and,
      for the statements only, the block each session started from. */
  datatype State = State(slots: Slots, published: seq<Entry>, recorded: Option<nat>, starts: seq<Header>, clock: nat)

  datatype Next = Next(state: State, running: bool)

  /** publish, of a block already pushed on the buffer. The publisher answers false to a
      timeout only, and the height is recorded whenever it answers true; any error of the
      recorder ends the process. */
  function Publish(n: Node, s: State, h: Header, requests: nat): Next {
    var reply, record := n.publishes(s.clock), n.records(s.clock);
    if !Redis.Answered(reply) then
      Next(if reply.late then s.(published := s.published + [Entry(h, requests, true, false)]) else s, false)
    else
      Next(s.(published := s.published + [Entry(h, requests, Redis.Took(reply), Redis.Took(record))],
              recorded := if Redis.Took(record) then Some(h.number) else s.recorded), record.Done?)
  }

  datatype Wound = Landed(header: Header, requests: nat, clock: nat) | Retry(clock: nat) | Abort(clock: nat)

  /** The wind-back loop: request parents until one's parent is buffered, the requests
      equal the buffer size, or height 0 is reached. */
  function WindBack(n: Node, slots: Slots, h: Header, counter: nat, clock: nat): Wound
    decreases |slots| - counter
  {
    if Holds(slots, h.parentHash) || counter >= |slots| || h.number == 0 then Landed(h, counter, clock)
    else match n.headers(clock, ByHash(h.parentHash))
      case NotFound => Retry(clock + 1)
      case Failed => Abort(clock + 1)
      case Found(parent) => WindBack(n, slots, parent, counter + 1, clock + 1)
  }

  predicate Started(s: State) {
    s.slots != [] && s.slots[0].Some?
  }

  /** One turn of the main loop. Finding the block already buffered is fatal. */
  function Iterate(n: Node, s: State): (next: Next)
    requires Started(s)
    ensures Started(next.state) && |next.state.slots| == |s.slots|
  {
    match n.headers(s.clock, ByNumber(s.slots[0].value.number + 1))
    case NotFound => Next(s.(clock := s.clock + 1), true)
    case Failed => Next(s.(clock := s.clock + 1), false)
    case Found(h) =>
      match WindBack(n, s.slots, h, 0, s.clock + 1)
      case Retry(clock) => Next(s.(clock := clock), true)
      case Abort(clock) => Next(s.(clock := clock), false)
      case Landed(h', requests, clock) =>
        if Holds(s.slots, h'.hash) then Next(s.(clock := clock), false)
        else Publish(n, s.(slots := Push(s.slots, Mini(h')), clock := clock), h', requests)
  }

  /** The main loop until the quit signal of turn k, or until something stops it. */
  function Run(n: Node, s: State, k: nat): (next: Next)
    requires Started(s)
    ensures Started(next.state) && |next.state.slots| == |s.slots|
    decreases k
  {
    if k == 0 then Next(s, true)
    else
      var next := Iterate(n, s);
      if next.running then Run(n, next.state, k - 1) else next
  }

  function StartRequest(n: Node, s: State): Request {
    if s.recorded.Some? && n.recalls(s.clock) then ByNumber(s.recorded.value) else Latest
  }

  /** A session's first block alone in a new buffer. */
  function Buffered(s: State, size: nat, h: Header): State
    requires size > 0
  {
    var empty: Slots := seq(size, i => None);
    s.(slots := Push(empty, Mini(h)), starts := s.starts + [h], clock := s.clock + 1)
  }

  /** Up to the main loop: the recorded block is buffered and, only at height 0, published. */
  function Start(n: Node, s: State, size: nat): (next: Next)
    requires size > 0
    ensures |next.state.slots| == size
    ensures next.running ==> Started(next.state)
  {
    match n.headers(s.clock, StartRequest(n, s))
    case Found(h) =>
      if h.number == 0 then Publish(n, Buffered(s, size, h), h, 0) else Next(Buffered(s, size, h), true)
    case _ => Next(s.(slots := seq(size, i => None), clock := s.clock + 1), false)
  }

  /** Process with a fresh buffer, quit after k turns. */
  function Session(n: Node, s: State, size: nat, k: nat): State
    requires size > 0
  {
    var next := Start(n, s, size);
    if next.running then Run(n, next.state, k).state else next.state
  }

  /** Crash and restart any number of times. */
  function Sessions(n: Node, s: State, size: nat, turns: seq<nat>): State
    requires size > 0
    decreases turns
  {
    if turns == [] then s else Sessions(n, Session(n, s, size, turns[0]), size, turns[1..])
  }

  // ---- the code, imperatively ----

  class Monitor {
    const brb: BlockRingBuffer
    var published: seq<Entry>
    var recorded: Option<nat>
    ghost var starts: seq<Header>
    var clock: nat

    ghost predicate Valid()
      reads this, brb
    {
      brb.Valid()
    }

    ghost function View(): State
      requires Valid()
      reads this, brb, brb.blocks
    {
      State(brb.Contents(), published, recorded, starts, clock)
    }

    constructor (brbSize: nat, published: seq<Entry>, recorded: Option<nat>, ghost starts: seq<Header>, clock: nat)
      requires brbSize > 0
      ensures Valid() && fresh(brb) && fresh(brb.blocks) && brb.size == brbSize
      ensures View() == State(seq(brbSize, i => None), published, recorded, starts, clock)
    {
      brb := new BlockRingBuffer(brbSize);
      this.published, this.recorded, this.starts, this.clock := published, recorded, starts, clock;
    }

    method PublishBlock(n: Node, h: Header, requests: nat) returns (ok: bool)
      requires Valid()
      modifies this`published, this`recorded
      ensures Valid() && Next(View(), ok) == Publish(n, old(View()), h, requests)
      ensures ok <==> !n.publishes(clock).TimedOut? && n.records(clock).Done?
      ensures var reply, record := n.publishes(clock), n.records(clock);
              if reply.TimedOut? then
                recorded == old(recorded)
                && published == old(published) + (if reply.late then [Entry(h, requests, true, false)] else [])
              else
                recorded == (if record.Done? || record.late then Some(h.number) else old(recorded))
                && published == old(published) + [Entry(h, requests, reply.Done? || reply.late, record.Done? || record.late)]
    {
      var reply := n.publishes(clock);
      if !Redis.Answered(reply) {
        if reply.late {
          published := published + [Entry(h, requests, true, false)];
        }
        return false;
      }
      var record := n.records(clock);
      published := published + [Entry(h, requests, Redis.Took(reply), Redis.Took(record))];
      if Redis.Took(record) {
        recorded := Some(h.number);
      }
      return record.Done?;
    }

    /** One pass of MAIN_PROCESSING; false when Process returns or the process exits. */
    method Turn(n: Node) returns (ok: bool)
      requires Valid() && Started(View())
      modifies this, brb`head, brb.blocks
      ensures Valid() && Next(View(), ok) == Iterate(n, old(View())) && Started(View())
    {
      ghost var before := View();
      var last := brb.Get(0);
      var reply := n.headers(clock, ByNumber(last.value.number + 1));
      clock := clock + 1;
      match reply {
        case NotFound => return true;
        case Failed => return false;
        case Found(first) =>
          var header, counter := first, 0;
          var parentIndex := brb.HashIndex(header.parentHash);
          while parentIndex == -1 && counter < brb.size && header.number != 0
            invariant Valid() && View() == before.(clock := clock)
            invariant parentIndex == -1 <==> !Holds(before.slots, header.parentHash)
            invariant WindBack(n, before.slots, header, counter, clock) ==
                      WindBack(n, before.slots, first, 0, before.clock + 1)
            decreases brb.size - counter
          {
            counter := counter + 1;
            var parent := n.headers(clock, ByHash(header.parentHash));
            clock := clock + 1;
            match parent {
              case NotFound => return true;
              case Failed => return false;
              case Found(h) => header := h;
            }
            parentIndex := brb.HashIndex(header.parentHash);
          }
          var known := brb.HashIndex(header.hash);
          if known != -1 {
            return false;
          }
          brb.Add(Mini(header));
          ok := PublishBlock(n, header, counter);
      }
    }

    /** Process up to the main loop. */
    method Begin(n: Node) returns (ok: bool)
      requires Valid() && brb.Contents() == seq(brb.size, i => None)
      modifies this, brb`head, brb.blocks
      ensures Valid() && Next(View(), ok) == Start(n, old(View()), brb.size)
    {
      var request := if recorded.Some? && n.recalls(clock) then ByNumber(recorded.value) else Latest;
      var reply := n.headers(clock, request);
      clock := clock + 1;
      if !reply.Found? {
        return false;
      }
      var header := reply.header;
      brb.Add(Mini(header));
      starts := starts + [header];
      ok := true;
      if header.number == 0 {
        ok := PublishBlock(n, header, 0);
      }
    }

    /** MAIN_PROCESSING until the quit signal of turn `quitAfter`. */
    method Loop(n: Node, quitAfter: nat)
      requires Valid() && Started(View())
      modifies this, brb`head, brb.blocks
      ensures Valid() && View() == Run(n, old(View()), quitAfter).state
    {
      ghost var started := View();
      var turn := 0;
      while turn < quitAfter
        invariant turn <= quitAfter && Valid() && Started(View())
        invariant Run(n, started, quitAfter) == Run(n, View(), quitAfter - turn)
      {
        var ok := Turn(n);
        if !ok {
          return;
        }
        turn := turn + 1;
      }
    }

    /** Process, from a new monitor to the quit signal. */
    method Process(n: Node, quitAfter: nat)
      requires Valid() && brb.Contents() == seq(brb.size, i => None)
      modifies this, brb`head, brb.blocks
      ensures Valid() && View() == Session(n, old(View()), brb.size, quitAfter)
    {
      var ok := Begin(n);
      if ok {
        Loop(n, quitAfter);
      }
    }
  }

  // ---- ancestor closure ----

  /** A published block or a session's start block has this hash. */
  ghost predicate Known(published: seq<Entry>, starts: seq<Header>, hash: Hash) {
    || (exists i :: 0 <= i < |published| && published[i].header.hash == hash)
    || (exists i :: 0 <= i < |starts| && starts[i].hash == hash)
  }

  /** Entry i has a known parent, unless it is genesis or the wind-back was exhausted. */
  ghost predicate Anchored(published: seq<Entry>, starts: seq<Header>, size: nat, i: nat)
    requires i < |published|
  {
    var e := published[i];
    e.requests <= size &&
    (e.header.number == 0 || e.requests == size || Known(published[..i], starts, e.header.parentHash))
  }

  ghost predicate Closed(s: State, size: nat) {
    forall i :: 0 <= i < |s.published| ==> Anchored(s.published, s.starts, size, i)
  }

  /** Everything in the buffer was published or is a start block, each hash once. */
  ghost predicate BufferKnown(s: State) {
    && Distinct(s.slots)
    && forall h :: Holds(s.slots, h) ==> Known(s.published, s.starts, h)
  }

  lemma {:induction false} WindBackLands(n: Node, slots: Slots, h: Header, counter: nat, clock: nat)
    requires counter <= |slots|
    ensures var w := WindBack(n, slots, h, counter, clock);
            w.Landed? ==> && counter <= w.requests <= |slots|
                          && (Holds(slots, w.header.parentHash) || w.requests == |slots| || w.header.number == 0)
    decreases |slots| - counter
  {
    if !(Holds(slots, h.parentHash) || counter >= |slots| || h.number == 0) {
      match n.headers(clock, ByHash(h.parentHash))
      case Found(parent) => WindBackLands(n, slots, parent, counter + 1, clock + 1);
      case _ =>
    }
  }

  lemma KnownGrows(published: seq<Entry>, starts: seq<Header>, e: Entry, h: Header, hash: Hash)
    requires Known(published, starts, hash)
    ensures Known(published + [e], starts, hash) && Known(published, starts + [h], hash)
  {
    if i :| 0 <= i < |published| && published[i].header.hash == hash {
      assert (published + [e])[i].header.hash == hash;
    } else {
      var i :| 0 <= i < |starts| && starts[i].hash == hash;
      assert (starts + [h])[i].hash == hash;
    }
  }

  lemma PublishKeepsClosed(n: Node, s: State, h: Header, requests: nat, size: nat)
    requires Closed(s, size) && requests <= size
    requires h.number == 0 || requests == size || Known(s.published, s.starts, h.parentHash)
    ensures Closed(Publish(n, s, h, requests).state, size)
  {
    var next := Publish(n, s, h, requests).state;
    if next.published != s.published {
      var e := next.published[|s.published|];
      assert next.published == s.published + [e];
      forall i | 0 <= i < |next.published|
        ensures Anchored(next.published, next.starts, size, i)
      {
        assert next.published[..i] == s.published[..i];
        if i < |s.published| {
          assert Anchored(s.published, s.starts, size, i);
        } else {
          assert s.published[..i] == s.published;
        }
      }
    }
  }

  lemma PublishKeepsBufferKnown(n: Node, s: State, h: Header, requests: nat)
    requires Started(s) && Distinct(s.slots)
    requires forall x :: Holds(s.slots, x) ==> x == h.hash || Known(s.published, s.starts, x)
    requires Publish(n, s, h, requests).running
    ensures BufferKnown(Publish(n, s, h, requests).state)
  {
    var next := Publish(n, s, h, requests).state;
    var e := next.published[|s.published|];
    assert next.published == s.published + [e];
    assert next.published[|s.published|].header.hash == h.hash;
    forall x | Holds(next.slots, x)
      ensures Known(next.published, next.starts, x)
    {
      if x != h.hash {
        KnownGrows(s.published, s.starts, e, h, x);
      }
    }
  }

  lemma IterateKeepsClosed(n: Node, s: State)
    requires Started(s) && Closed(s, |s.slots|) && BufferKnown(s)
    ensures Closed(Iterate(n, s).state, |s.slots|)
    ensures Iterate(n, s).running ==> BufferKnown(Iterate(n, s).state)
  {
    match n.headers(s.clock, ByNumber(s.slots[0].value.number + 1))
    case Found(first) =>
      WindBackLands(n, s.slots, first, 0, s.clock + 1);
      match WindBack(n, s.slots, first, 0, s.clock + 1) {
        case Landed(h, requests, clock) =>
          if !Holds(s.slots, h.hash) {
            var pushed := s.(slots := Push(s.slots, Mini(h)), clock := clock);
            PushKeepsDistinct(s.slots, Mini(h));
            PushHolds(s.slots, Mini(h));
            PublishKeepsClosed(n, pushed, h, requests, |s.slots|);
            if Publish(n, pushed, h, requests).running {
              PublishKeepsBufferKnown(n, pushed, h, requests);
            }
          }
        case _ =>
      }
    case _ =>
  }

  lemma {:induction false} RunKeepsClosed(n: Node, s: State, k: nat)
    requires Started(s) && Closed(s, |s.slots|) && BufferKnown(s)
    ensures Closed(Run(n, s, k).state, |s.slots|)
    ensures Run(n, s, k).running ==> BufferKnown(Run(n, s, k).state)
    decreases k
  {
    if k == 0 {
    } else {
      IterateKeepsClosed(n, s);
      if Iterate(n, s).running {
        RunKeepsClosed(n, Iterate(n, s).state, k - 1);
      }
    }
  }

  lemma StartKeepsClosed(n: Node, s: State, size: nat)
    requires size > 0 && Closed(s, size)
    ensures Closed(Start(n, s, size).state, size)
    ensures Start(n, s, size).running ==> BufferKnown(Start(n, s, size).state)
  {
    match n.headers(s.clock, StartRequest(n, s))
    case Found(h) =>
      var empty: Slots, s' := seq(size, i => None), Buffered(s, size, h);
      forall i | 0 <= i < |s.published|
        ensures Anchored(s'.published, s'.starts, size, i)
      {
        assert Anchored(s.published, s.starts, size, i);
        var parent := s.published[i].header.parentHash;
        if Known(s.published[..i], s.starts, parent) {
          KnownGrows(s.published[..i], s.starts, s.published[i], h, parent);
        }
      }
      PushHolds(empty, Mini(h));
      assert s'.starts[|s.starts|].hash == h.hash;
      if h.number == 0 {
        PublishKeepsClosed(n, s', h, 0, size);
        if Publish(n, s', h, 0).running {
          PublishKeepsBufferKnown(n, s', h, 0);
        }
      }
    case _ =>
  }

  /** Over any sessions, whatever the node answers: every published block is genesis, is
      where a wind-back was exhausted, or has a parent that was published earlier or that
      a session started from. */
  lemma {:induction false} AncestorClosure(n: Node, s: State, size: nat, turns: seq<nat>)
    requires size > 0 && Closed(s, size)
    ensures Closed(Sessions(n, s, size, turns), size)
    decreases turns
  {
    if turns == [] {
    } else {
      StartKeepsClosed(n, s, size);
      var next := Start(n, s, size);
      if next.running {
        RunKeepsClosed(n, next.state, turns[0]);
      }
      AncestorClosure(n, Session(n, s, size, turns[0]), size, turns[1..]);
    }
  }

  /** Indices of published blocks, each the parent of the one before it. */
  ghost predicate ParentPath(published: seq<Entry>, path: seq<nat>) {
    && path != []
    && (forall j :: 0 <= j < |path| ==> path[j] < |published|)
    && (forall j :: 0 < j < |path| ==>
          && path[j] < path[j - 1]
          && published[path[j]].header.hash == published[path[j - 1]].header.parentHash)
  }

  lemma PathCons(published: seq<Entry>, i: nat, path: seq<nat>)
    requires i < |published| && ParentPath(published, path) && path[0] < i
    requires published[path[0]].header.hash == published[i].header.parentHash
    ensures ParentPath(published, [i] + path)
  {
    var longer := [i] + path;
    forall j | 0 < j < |longer|
      ensures longer[j] < longer[j - 1]
      ensures published[longer[j]].header.hash == published[longer[j - 1]].header.parentHash
    {
      assert longer[j] == path[j - 1];
      assert j > 1 ==> longer[j - 1] == path[j - 2];
    }
  }

  /** An anchored entry without a published parent is where a path ends. */
  ghost predicate EndsPath(s: State, size: nat, i: nat)
    requires i < |s.published|
  {
    var e := s.published[i];
    e.header.number == 0 || e.requests == size || Known([], s.starts, e.header.parentHash)
  }

  /** Following parents inside the published log from any block ends at genesis, at an
      exhausted wind-back, or at a block whose parent is a start block. */
  lemma {:induction false} ParentsLeadHome(s: State, size: nat, i: nat) returns (path: seq<nat>)
    requires Closed(s, size) && i < |s.published|
    ensures ParentPath(s.published, path) && path[0] == i
    ensures EndsPath(s, size, path[|path| - 1])
    ensures forall m :: 0 <= m < |path| - 1 ==> s.published[path[m]].header.number > 0
    decreases i
  {
    if EndsPath(s, size, i) {
      path := [i];
    } else {
      assert Anchored(s.published, s.starts, size, i);
      var j :| 0 <= j < i && s.published[..i][j].header.hash == s.published[i].header.parentHash;
      var rest := ParentsLeadHome(s, size, j);
      PathCons(s.published, i, rest);
      path := [i] + rest;
    }
  }

  // ---- a node that tells the truth ----

  /** A hash fixes its header, and a header is one higher than its parent. */
  ghost predicate Tree(tree: Hash -> Header) {
    && (forall h :: tree(h).hash == h)
    && (forall h, p {:trigger tree(h), tree(p)} ::
          tree(h).number > 0 && tree(h).parentHash == p ==> tree(p).number + 1 == tree(h).number)
  }

  ghost predicate InTree(tree: Hash -> Header, h: Header) {
    tree(h.hash) == h
  }

  ghost predicate Truthful(n: Node, tree: Hash -> Header) {
    && (forall t, r :: n.headers(t, r).Found? ==> InTree(tree, n.headers(t, r).header))
    && (forall t, x :: n.headers(t, ByHash(x)).Found? ==> n.headers(t, ByHash(x)).header.hash == x)
    && (forall t, k :: n.headers(t, ByNumber(k)).Found? ==> n.headers(t, ByNumber(k)).header.number == k)
  }

  ghost predicate LogInTree(s: State, tree: Hash -> Header) {
    forall i :: 0 <= i < |s.published| ==> InTree(tree, s.published[i].header)
  }

  lemma {:induction false} WindBackDescends(n: Node, tree: Hash -> Header, slots: Slots, h: Header, counter: nat, clock: nat)
    requires Tree(tree) && Truthful(n, tree) && InTree(tree, h)
    ensures var w := WindBack(n, slots, h, counter, clock);
            w.Landed? ==> InTree(tree, w.header) && w.header.number + w.requests == h.number + counter
    decreases |slots| - counter
  {
    if !(Holds(slots, h.parentHash) || counter >= |slots| || h.number == 0) {
      match n.headers(clock, ByHash(h.parentHash))
      case Found(parent) =>
        assert tree(h.parentHash) == parent && tree(h.hash) == h;
        WindBackDescends(n, tree, slots, parent, counter + 1, clock + 1);
      case _ =>
    }
  }

  lemma PublishInTree(n: Node, tree: Hash -> Header, s: State, h: Header, requests: nat)
    requires LogInTree(s, tree) && InTree(tree, h)
    ensures LogInTree(Publish(n, s, h, requests).state, tree)
  {
    forall i | 0 <= i < |Publish(n, s, h, requests).state.published|
      ensures InTree(tree, Publish(n, s, h, requests).state.published[i].header)
    {
    }
  }

  lemma IterateInTree(n: Node, tree: Hash -> Header, s: State)
    requires Tree(tree) && Truthful(n, tree) && Started(s) && LogInTree(s, tree)
    ensures LogInTree(Iterate(n, s).state, tree)
  {
    match n.headers(s.clock, ByNumber(s.slots[0].value.number + 1))
    case Found(first) =>
      WindBackDescends(n, tree, s.slots, first, 0, s.clock + 1);
      match WindBack(n, s.slots, first, 0, s.clock + 1) {
        case Landed(h, requests, clock) =>
          if !Holds(s.slots, h.hash) {
            PublishInTree(n, tree, s.(slots := Push(s.slots, Mini(h)), clock := clock), h, requests);
          }
        case _ =>
      }
    case _ =>
  }

  /** A block reached by r parent requests is published r below the height asked for. */
  lemma RequestsMeasureDepth(n: Node, tree: Hash -> Header, s: State)
    requires Tree(tree) && Truthful(n, tree) && Started(s)
    ensures var next := Iterate(n, s).state;
            next.published != s.published ==>
              && |next.published| == |s.published| + 1
              && var e := next.published[|s.published|];
                 e.header.number + e.requests == s.slots[0].value.number + 1
  {
    match n.headers(s.clock, ByNumber(s.slots[0].value.number + 1))
    case Found(first) => WindBackDescends(n, tree, s.slots, first, 0, s.clock + 1);
    case _ =>
  }

  lemma {:induction false} RunInTree(n: Node, tree: Hash -> Header, s: State, k: nat)
    requires Tree(tree) && Truthful(n, tree) && Started(s) && LogInTree(s, tree)
    ensures LogInTree(Run(n, s, k).state, tree)
    decreases k
  {
    if k == 0 {
    } else {
      IterateInTree(n, tree, s);
      if Iterate(n, s).running {
        RunInTree(n, tree, Iterate(n, s).state, k - 1);
      }
    }
  }

  /** Then the published log holds true headers only, over any sessions. */
  lemma {:induction false} SessionsInTree(n: Node, tree: Hash -> Header, s: State, size: nat, turns: seq<nat>)
    requires size > 0 && Tree(tree) && Truthful(n, tree) && LogInTree(s, tree)
    ensures LogInTree(Sessions(n, s, size, turns), tree)
    decreases turns
  {
    if turns == [] {
    } else {
      var next := Start(n, s, size);
      assert LogInTree(next.state, tree);
      if next.running {
        RunInTree(n, tree, next.state, turns[0]);
      }
      SessionsInTree(n, tree, Session(n, s, size, turns[0]), size, turns[1..]);
    }
  }

  /** So a path of parents goes down the tree one height at a time. */
  lemma {:induction false} PathDescends(s: State, tree: Hash -> Header, path: seq<nat>, j: nat)
    requires Tree(tree) && LogInTree(s, tree) && ParentPath(s.published, path) && j < |path|
    requires forall m :: 0 <= m < |path| - 1 ==> s.published[path[m]].header.number > 0
    ensures s.published[path[j]].header.number + j == s.published[path[0]].header.number
    decreases j
  {
    if j == 0 {
    } else {
      PathDescends(s, tree, path, j - 1);
      var child, parent := s.published[path[j - 1]].header, s.published[path[j]].header;
      assert InTree(tree, child) && InTree(tree, parent);
    }
  }

  // ---- catching up with a chain that stopped changing ----

  /** A chain from genesis to its tip. */
  ghost predicate Chain(chain: seq<Header>) {
    && (forall k :: 0 <= k < |chain| ==> chain[k].number == k)
    && (forall k :: 0 < k < |chain| ==> chain[k].parentHash == chain[k - 1].hash)
    && (forall j, k :: 0 <= j < k < |chain| ==> chain[j].hash != chain[k].hash)
  }

  /** From tick `from` on the node serves this chain, and publishing and recording work. */
  ghost predicate Settled(n: Node, chain: seq<Header>, from: nat) {
    && (forall t, k: nat :: from <= t ==>
          n.headers(t, ByNumber(k)) == if k < |chain| then Found(chain[k]) else NotFound)
    && (forall t, k :: from <= t && 0 <= k < |chain| ==> n.headers(t, ByHash(chain[k].hash)) == Found(chain[k]))
    && (forall t :: from <= t ==> n.publishes(t).Done? && n.records(t).Done?)
  }

  /** c is the height of the highest chain block in the buffer up to `top`, -1 if there is none. */
  ghost predicate HighestUpTo(slots: Slots, chain: seq<Header>, c: int, top: int) {
    && -1 <= c <= top < |chain|
    && (c >= 0 ==> Holds(slots, chain[c].hash))
    && forall k :: c < k <= top ==> !Holds(slots, chain[k].hash)
  }

  /** The lowest height the monitor goes back to: the first one missing, unless that is
      more than a buffer's worth of parents below the height asked for. */
  function Resume(c: int, asked: nat, size: nat): (t: nat)
    requires -1 <= c < asked
    ensures t == c + 1 <==> asked - 1 - c <= size
    ensures c < t <= asked && asked - t <= size
  {
    if asked - size <= c + 1 then c + 1 else asked - size
  }

  lemma {:induction false} WindBackOnChain(n: Node, slots: Slots, chain: seq<Header>, c: int, m: nat, counter: nat, clock: nat)
    requires Chain(chain) && Settled(n, chain, clock) && m < |chain| && HighestUpTo(slots, chain, c, m - 1)
    requires counter <= |slots|
    ensures var t := Resume(c, m, |slots| - counter);
            WindBack(n, slots, chain[m], counter, clock) == Landed(chain[t], counter + m - t, clock + m - t)
    decreases m
  {
    if m > c + 1 && counter < |slots| {
      WindBackOnChain(n, slots, chain, c, m - 1, counter + 1, clock + 1);
    }
  }

  /** One turn on a settled chain publishes the block it goes back to, and the buffer gets
      it as its head; or, if the buffer has that block already, the turn is fatal. */
  lemma CatchUpTurn(n: Node, s: State, chain: seq<Header>, c: int)
    requires Started(s) && Chain(chain) && Settled(n, chain, s.clock)
    requires HighestUpTo(s.slots, chain, c, s.slots[0].value.number) && s.slots[0].value.number + 1 < |chain|
    ensures var asked, next := s.slots[0].value.number + 1, Iterate(n, s);
            var t := Resume(c, asked, |s.slots|);
            && (next.running <==> !Holds(s.slots, chain[t].hash))
            && next.state.clock >= s.clock
            && next.state.published == s.published + (if next.running then [Entry(chain[t], asked - t, true, true)] else [])
            && next.state.slots == (if next.running then Push(s.slots, Mini(chain[t])) else s.slots)
  {
    var asked := s.slots[0].value.number + 1;
    WindBackOnChain(n, s.slots, chain, c, asked, 0, s.clock + 1);
  }

  /** The chain blocks from one height to another, published without winding back. */
  function Straight(chain: seq<Header>, from: nat, to: nat): seq<Entry>
    requires from <= to <= |chain|
  {
    seq(to - from, j requires 0 <= j < to - from => Entry(chain[from + j], 0, true, true))
  }

  lemma StraightSteps(chain: seq<Header>, from: nat, to: nat, before: seq<Entry>)
    requires from < to <= |chain|
    ensures before + [Entry(chain[from], 0, true, true)] + Straight(chain, from + 1, to) == before + Straight(chain, from, to)
  {
    assert [Entry(chain[from], 0, true, true)] + Straight(chain, from + 1, to) == Straight(chain, from, to);
  }

  /** The buffer still holds this hash after `pushes` further blocks: it is in a slot that
      they do not push out. */
  predicate StillHolds(slots: Slots, hash: Hash, pushes: nat) {
    exists i :: 0 <= i < |slots| && i + pushes < |slots| && slots[i].Some? && slots[i].value.hash == hash
  }

  lemma StillHoldsNow(slots: Slots, hash: Hash)
    ensures StillHolds(slots, hash, 0) <==> Holds(slots, hash)
  {
    if i :| 0 <= i < |slots| && slots[i].Some? && slots[i].value.hash == hash {
      assert i + 0 < |slots|;
    }
  }

  /** A push of another block takes one place. */
  lemma PushShifts(slots: Slots, b: MiniBlock, hash: Hash, pushes: nat)
    requires slots != [] && b.hash != hash
    ensures StillHolds(Push(slots, b), hash, pushes) <==> StillHolds(slots, hash, pushes + 1)
  {
    var pushed := Push(slots, b);
    if i :| 0 <= i < |pushed| && i + pushes < |pushed| && pushed[i].Some? && pushed[i].value.hash == hash {
      assert i > 0 && slots[i - 1] == pushed[i] && i - 1 + (pushes + 1) < |slots|;
    }
    if i :| 0 <= i < |slots| && i + (pushes + 1) < |slots| && slots[i].Some? && slots[i].value.hash == hash {
      assert pushed[i + 1] == slots[i] && i + 1 + pushes < |pushed|;
    }
  }

  /** The first height from `at` on whose chain block is still buffered when it is asked
      for, given that the blocks from `from` on are pushed one by one; `to` if there is none. */
  function Stop(slots: Slots, chain: seq<Header>, from: nat, at: nat, to: nat): (stop: nat)
    requires from <= at <= to <= |chain|
    ensures at <= stop <= to
    ensures forall k :: at <= k < stop ==> !StillHolds(slots, chain[k].hash, k - from)
    ensures stop < to ==> StillHolds(slots, chain[stop].hash, stop - from)
    decreases |chain| - at
  {
    if at == to then to
    else if StillHolds(slots, chain[at].hash, at - from) then at
    else Stop(slots, chain, from, at + 1, to)
  }

  /** After the first of the pushes there is one less to come. */
  lemma {:induction false} StopShifts(slots: Slots, chain: seq<Header>, from: nat, at: nat, to: nat)
    requires slots != [] && Chain(chain) && from < at <= to <= |chain|
    ensures Stop(slots, chain, from, at, to) == Stop(Push(slots, Mini(chain[from])), chain, from + 1, at, to)
    decreases |chain| - at
  {
    if at == to {
    } else {
      PushShifts(slots, Mini(chain[from]), chain[at].hash, at - (from + 1));
      StopShifts(slots, chain, from, at + 1, to);
    }
  }

  lemma StopStep(slots: Slots, chain: seq<Header>, from: nat, to: nat)
    requires slots != [] && Chain(chain) && from < to <= |chain| && !StillHolds(slots, chain[from].hash, 0)
    ensures Stop(slots, chain, from, from, to) == Stop(Push(slots, Mini(chain[from])), chain, from + 1, from + 1, to)
  {
    StopShifts(slots, chain, from, from + 1, to);
  }

  lemma FollowTurn(n: Node, s: State, chain: seq<Header>, m: nat)
    requires Started(s) && Chain(chain) && Settled(n, chain, s.clock)
    requires m + 1 < |chain| && s.slots[0] == Some(Mini(chain[m]))
    ensures var next := Iterate(n, s);
            && (next.running <==> !StillHolds(s.slots, chain[m + 1].hash, 0))
            && next.state.clock >= s.clock
            && next.state.published == s.published + (if next.running then [Entry(chain[m + 1], 0, true, true)] else [])
            && (next.running ==> next.state.slots == Push(s.slots, Mini(chain[m + 1])))
  {
    assert Holds(s.slots, chain[m].hash);
    CatchUpTurn(n, s, chain, m);
    StillHoldsNow(s.slots, chain[m + 1].hash);
  }

  /** k turns with chain block m at the head publish the next chain blocks in order, once
      each and without winding back, up to the tip or the turns' end or, if that comes
      first, up to a block that is still buffered when asked for; there the process ends. */
  ghost predicate Follows(n: Node, s: State, chain: seq<Header>, m: nat, k: nat)
    requires Started(s) && m < |chain|
  {
    var to := Least(m + 1 + k, |chain|);
    var stop := Stop(s.slots, chain, m + 1, m + 1, to);
    && (Run(n, s, k).running <==> stop == to)
    && Run(n, s, k).state.published == s.published + Straight(chain, m + 1, stop)
  }

  lemma {:induction false} FollowTip(n: Node, s: State, chain: seq<Header>, m: nat, k: nat)
    requires Started(s) && Chain(chain) && Settled(n, chain, s.clock)
    requires m < |chain| && s.slots[0] == Some(Mini(chain[m]))
    ensures Follows(n, s, chain, m, k)
    decreases k
  {
    if k == 0 || m + 1 == |chain| {
      AtTip(n, s, chain, m, k);
    } else {
      FollowTurn(n, s, chain, m);
      if Iterate(n, s).running {
        FollowTip(n, Iterate(n, s).state, chain, m + 1, k - 1);
        FollowOn(n, s, chain, m, k);
      } else {
        FollowFatal(n, s, chain, m, k);
      }
    }
  }

  lemma FollowFatal(n: Node, s: State, chain: seq<Header>, m: nat, k: nat)
    requires Started(s) && k > 0 && m + 1 < |chain| && !Iterate(n, s).running
    requires StillHolds(s.slots, chain[m + 1].hash, 0) && Iterate(n, s).state.published == s.published
    ensures Follows(n, s, chain, m, k)
  {
    assert Stop(s.slots, chain, m + 1, m + 1, Least(m + 1 + k, |chain|)) == m + 1;
    assert Straight(chain, m + 1, m + 1) == [];
  }

  lemma {:induction false} AtTip(n: Node, s: State, chain: seq<Header>, m: nat, k: nat)
    requires Started(s) && Settled(n, chain, s.clock)
    requires m < |chain| && s.slots[0] == Some(Mini(chain[m])) && chain[m].number == m && (k == 0 || m + 1 == |chain|)
    ensures Follows(n, s, chain, m, k)
    decreases k
  {
    assert Straight(chain, m + 1, m + 1) == [];
    if k == 0 {
    } else {
      AtTip(n, Iterate(n, s).state, chain, m, k - 1);
    }
  }

  lemma FollowOn(n: Node, s: State, chain: seq<Header>, m: nat, k: nat)
    requires Started(s) && Chain(chain) && k > 0 && m + 1 < |chain| && Iterate(n, s).running
    requires !StillHolds(s.slots, chain[m + 1].hash, 0)
    requires Iterate(n, s).state.published == s.published + [Entry(chain[m + 1], 0, true, true)]
    requires Iterate(n, s).state.slots == Push(s.slots, Mini(chain[m + 1]))
    requires Follows(n, Iterate(n, s).state, chain, m + 1, k - 1)
    ensures Follows(n, s, chain, m, k)
  {
    var to := Least(m + 1 + k, |chain|);
    var stop, next := Stop(s.slots, chain, m + 1, m + 1, to), Iterate(n, s).state;
    StopStep(s.slots, chain, m + 1, to);
    assert stop == Stop(next.slots, chain, m + 2, m + 2, to);
    assert Run(n, s, k) == Run(n, next, k - 1);
    assert Run(n, s, k).state.published == next.published + Straight(chain, m + 2, stop);
    StraightSteps(chain, m + 1, stop, s.published);
  }

  /** What is published from the first turn on that goes back from `asked` to t. */
  function CaughtBlocks(chain: seq<Header>, asked: nat, t: nat, stop: nat): seq<Entry>
    requires t <= asked && t <= stop <= |chain|
  {
    if stop == t then [] else [Entry(chain[t], asked - t, true, true)] + Straight(chain, t + 1, stop)
  }

  /** k + 1 turns publish the chain from t on as far as the buffer lets them. */
  ghost predicate CatchesUp(n: Node, s: State, chain: seq<Header>, asked: nat, t: nat, k: nat)
    requires Started(s) && t < |chain| && t <= asked
  {
    var to := Least(t + 1 + k, |chain|);
    var stop := Stop(s.slots, chain, t, t, to);
    && Run(n, s, k + 1).state.published == s.published + CaughtBlocks(chain, asked, t, stop)
    && (Run(n, s, k + 1).running <==> stop == to)
  }

  lemma CaughtSplit(chain: seq<Header>, asked: nat, t: nat, stop: nat, before: seq<Entry>)
    requires t <= asked && t < stop <= |chain|
    ensures before + [Entry(chain[t], asked - t, true, true)] + Straight(chain, t + 1, stop) ==
            before + CaughtBlocks(chain, asked, t, stop)
  {
  }

  lemma RunFirst(n: Node, s: State, k: nat)
    requires Started(s)
    ensures Run(n, s, k + 1) == if Iterate(n, s).running then Run(n, Iterate(n, s).state, k) else Iterate(n, s)
  {
  }

  lemma CatchUpAndFollow(n: Node, s: State, chain: seq<Header>, asked: nat, t: nat, k: nat)
    requires Started(s) && Chain(chain) && t < |chain| && t <= asked && Iterate(n, s).running
    requires !StillHolds(s.slots, chain[t].hash, 0)
    requires Iterate(n, s).state.published == s.published + [Entry(chain[t], asked - t, true, true)]
    requires Iterate(n, s).state.slots == Push(s.slots, Mini(chain[t]))
    requires Follows(n, Iterate(n, s).state, chain, t, k)
    ensures CatchesUp(n, s, chain, asked, t, k)
  {
    var to := Least(t + 1 + k, |chain|);
    var next, stop := Iterate(n, s).state, Stop(s.slots, chain, t, t, to);
    StopStep(s.slots, chain, t, to);
    assert stop == Stop(next.slots, chain, t + 1, t + 1, to) > t;
    RunFirst(n, s, k);
    CaughtSplit(chain, asked, t, stop, s.published);
  }

  lemma FatalTurn(n: Node, s: State, chain: seq<Header>, asked: nat, t: nat, k: nat)
    requires Started(s) && t < |chain| && t <= asked && !Iterate(n, s).running
    requires StillHolds(s.slots, chain[t].hash, 0) && Iterate(n, s).state.published == s.published
    ensures CatchesUp(n, s, chain, asked, t, k)
  {
    assert Stop(s.slots, chain, t, t, Least(t + 1 + k, |chain|)) == t;
    assert Run(n, s, k + 1) == Iterate(n, s);
  }

  /** Reorg completeness. Let a chain stop changing with its tip above the head, let c be
      its highest block buffered at or below the head, and t the height gone back to. The
      turns that follow publish the chain's blocks from t on, ascending and once each, up to
      the first one that the buffer still holds when it is asked for, where the guard ends
      the process; or else up to the tip, and nothing more. So the monitor keeps running if
      and only if every chain block j from t on that is in slot i is pushed out in time, by
      the j - t blocks before it; and no block between c and t is skipped if and only if c
      is at most a buffer's size behind the head. */
  lemma ReorgCompleteness(n: Node, s: State, chain: seq<Header>, c: int, k: nat)
    requires Started(s) && Chain(chain) && Settled(n, chain, s.clock)
    requires HighestUpTo(s.slots, chain, c, s.slots[0].value.number) && s.slots[0].value.number + 1 < |chain|
    ensures var head := s.slots[0].value.number;
            var t := Resume(c, head + 1, |s.slots|);
            && CatchesUp(n, s, chain, head + 1, t, k)
            && (t == c + 1 <==> head - c <= |s.slots|)
            && head + 1 - t <= |s.slots|
  {
    var asked := s.slots[0].value.number + 1;
    var t := Resume(c, asked, |s.slots|);
    CatchUpTurn(n, s, chain, c);
    StillHoldsNow(s.slots, chain[t].hash);
    if Iterate(n, s).running {
      FollowTip(n, Iterate(n, s).state, chain, t, k);
      CatchUpAndFollow(n, s, chain, asked, t, k);
    } else {
      FatalTurn(n, s, chain, asked, t, k);
    }
  }

  /** Said of the blocks one by one: the monitor keeps running for k + 1 turns exactly if
      each chain block j it gets to that is in some slot i is out of the buffer by then,
      that is, if i + (j - t) is at least the buffer's size. */
  lemma KeepsRunningIff(n: Node, s: State, chain: seq<Header>, c: int, k: nat)
    requires Started(s) && Chain(chain) && Settled(n, chain, s.clock)
    requires HighestUpTo(s.slots, chain, c, s.slots[0].value.number) && s.slots[0].value.number + 1 < |chain|
    ensures var t := Resume(c, s.slots[0].value.number + 1, |s.slots|);
            Run(n, s, k + 1).running <==>
            forall j :: t <= j < Least(t + 1 + k, |chain|) ==> !StillHolds(s.slots, chain[j].hash, j - t)
  {
    ReorgCompleteness(n, s, chain, c, k);
  }

  /** A buffer without chain blocks above the head never clashes: every block is published. */
  lemma ReorgCompletes(n: Node, s: State, chain: seq<Header>, c: int, k: nat)
    requires Started(s) && Chain(chain) && Settled(n, chain, s.clock)
    requires HighestUpTo(s.slots, chain, c, |chain| - 1)
    requires c <= s.slots[0].value.number && s.slots[0].value.number + 1 < |chain|
    ensures var head := s.slots[0].value.number;
            var t := Resume(c, head + 1, |s.slots|);
            && Run(n, s, k + 1).running
            && Run(n, s, k + 1).state.published ==
               s.published + CaughtBlocks(chain, head + 1, t, Least(t + 1 + k, |chain|))
  {
    ReorgCompleteness(n, s, chain, c, k);
    var t := Resume(c, s.slots[0].value.number + 1, |s.slots|);
    var to := Least(t + 1 + k, |chain|);
    forall j | t <= j < to
      ensures !StillHolds(s.slots, chain[j].hash, j - t)
    {
      assert !Holds(s.slots, chain[j].hash);
    }
  }

  // ---- when the guard ends the process ----

  /** The turn finds the block it landed on in the buffer already. */
  ghost predicate GuardFires(n: Node, s: State)
    requires Started(s)
  {
    var reply := n.headers(s.clock, ByNumber(s.slots[0].value.number + 1));
    reply.Found? && var w := WindBack(n, s.slots, reply.header, 0, s.clock + 1); w.Landed? && Holds(s.slots, w.header.hash)
  }

  /** A header found by its hash has that hash. */
  ghost predicate HashesMatch(n: Node) {
    forall t, x :: n.headers(t, ByHash(x)).Found? ==> n.headers(t, ByHash(x)).header.hash == x
  }

  lemma {:induction false} WindBackLandsOutside(n: Node, slots: Slots, h: Header, counter: nat, clock: nat)
    requires HashesMatch(n) && !Holds(slots, h.hash)
    ensures var w := WindBack(n, slots, h, counter, clock); w.Landed? ==> !Holds(slots, w.header.hash)
    decreases |slots| - counter
  {
    if !(Holds(slots, h.parentHash) || counter >= |slots| || h.number == 0) {
      match n.headers(clock, ByHash(h.parentHash))
      case Found(parent) => WindBackLandsOutside(n, slots, parent, counter + 1, clock + 1);
      case _ =>
    }
  }

  /** The guard fires exactly if the header first found is buffered and there is no winding
      back from it: its parent is buffered too, or it is genesis. */
  lemma GuardFiresIff(n: Node, s: State)
    requires Started(s) && HashesMatch(n)
    ensures var reply := n.headers(s.clock, ByNumber(s.slots[0].value.number + 1));
            GuardFires(n, s) <==>
            reply.Found? && Holds(s.slots, reply.header.hash)
            && (Holds(s.slots, reply.header.parentHash) || reply.header.number == 0)
    ensures GuardFires(n, s) ==> !Iterate(n, s).running && Iterate(n, s).state.published == s.published
  {
    var reply := n.headers(s.clock, ByNumber(s.slots[0].value.number + 1));
    if reply.Found? {
      var h := reply.header;
      if !Holds(s.slots, h.hash) {
        WindBackLandsOutside(n, s.slots, h, 0, s.clock + 1);
      } else if !Holds(s.slots, h.parentHash) && h.number != 0 {
        match n.headers(s.clock + 1, ByHash(h.parentHash))
        case Found(parent) => WindBackLandsOutside(n, s.slots, parent, 1, s.clock + 2);
        case _ =>
      }
    }
  }

  // ---- how a turn ends ----

  /** The headers met while winding back: the first is h, each answers the request for the
      parent of the one before it, and none is a place to land. */
  ghost predicate Winds(n: Node, slots: Slots, h: Header, clock: nat, path: seq<Header>) {
    && path != [] && path[0] == h
    && (forall i :: 0 <= i < |path| ==> !Holds(slots, path[i].parentHash) && path[i].number != 0)
    && (forall i :: 0 < i < |path| ==> n.headers(clock + i - 1, ByHash(path[i - 1].parentHash)) == Found(path[i]))
  }

  /** What the node answers to the request for the last one's parent. */
  function LastReply(n: Node, clock: nat, path: seq<Header>): Reply
    requires path != []
  {
    n.headers(clock + |path| - 1, ByHash(path[|path| - 1].parentHash))
  }

  lemma WindsOn(n: Node, slots: Slots, h: Header, clock: nat, path: seq<Header>)
    requires Winds(n, slots, h, clock, path) && |path| > 1
    ensures n.headers(clock, ByHash(h.parentHash)) == Found(path[1])
    ensures Winds(n, slots, path[1], clock + 1, path[1..])
    ensures LastReply(n, clock + 1, path[1..]) == LastReply(n, clock, path)
  {
    var rest := path[1..];
    forall i | 0 < i < |rest|
      ensures n.headers(clock + 1 + i - 1, ByHash(rest[i - 1].parentHash)) == Found(rest[i])
    {
      assert rest[i] == path[i + 1] && rest[i - 1] == path[i];
    }
  }

  /** Any parent request that is not answered with a header ends the wind-back: NotFound to
      be tried again, a failure for good. */
  lemma {:induction false} WindBackEnds(n: Node, slots: Slots, h: Header, counter: nat, clock: nat, path: seq<Header>)
    requires Winds(n, slots, h, clock, path) && counter + |path| <= |slots|
    ensures LastReply(n, clock, path).NotFound? ==> WindBack(n, slots, h, counter, clock) == Retry(clock + |path|)
    ensures LastReply(n, clock, path).Failed? ==> WindBack(n, slots, h, counter, clock) == Abort(clock + |path|)
    decreases |path|
  {
    if |path| == 1 {
    } else {
      WindsOn(n, slots, h, clock, path);
      WindBackEnds(n, slots, path[1], counter + 1, clock + 1, path[1..]);
    }
  }

  /** And nothing else does. */
  lemma {:induction false} WindBackPath(n: Node, slots: Slots, h: Header, counter: nat, clock: nat) returns (path: seq<Header>)
    requires !WindBack(n, slots, h, counter, clock).Landed?
    ensures Winds(n, slots, h, clock, path) && counter + |path| <= |slots|
    ensures !LastReply(n, clock, path).Found?
    decreases |slots| - counter
  {
    match n.headers(clock, ByHash(h.parentHash))
    case Found(parent) =>
      var rest := WindBackPath(n, slots, parent, counter + 1, clock + 1);
      path := [h] + rest;
      forall i | 0 < i < |path|
        ensures n.headers(clock + i - 1, ByHash(path[i - 1].parentHash)) == Found(path[i])
      {
        if i > 1 {
          assert path[i] == rest[i - 1] && path[i - 1] == rest[i - 2];
        }
      }
      assert path[|path| - 1] == rest[|rest| - 1];
    case _ => path := [h];
  }

  /** The header request of the turn. */
  function FirstReply(n: Node, s: State): Reply
    requires Started(s)
  {
    n.headers(s.clock, ByNumber(s.slots[0].value.number + 1))
  }

  /** The turn's requests lead along these headers, at most a buffer's size of them, and
      the node answers the last one's parent request like this. */
  ghost predicate Meets(n: Node, s: State, path: seq<Header>, reply: Reply)
    requires Started(s)
  {
    && path != [] && |path| <= |s.slots| && FirstReply(n, s) == Found(path[0])
    && Winds(n, s.slots, path[0], s.clock + 1, path) && LastReply(n, s.clock + 1, path) == reply
  }

  /** No next block, or a parent that is not found because the chain changed meanwhile: the
      turn changes nothing, time aside, and the monitor goes on. A request that fails, the
      first or any later one: nothing changes either, and the process ends. */
  lemma UnansweredTurn(n: Node, s: State, path: seq<Header>)
    requires Started(s)
    ensures FirstReply(n, s).NotFound? ==> Iterate(n, s) == Next(s.(clock := s.clock + 1), true)
    ensures FirstReply(n, s).Failed? ==> Iterate(n, s) == Next(s.(clock := s.clock + 1), false)
    ensures Meets(n, s, path, NotFound) ==> Iterate(n, s) == Next(s.(clock := s.clock + 1 + |path|), true)
    ensures Meets(n, s, path, Failed) ==> Iterate(n, s) == Next(s.(clock := s.clock + 1 + |path|), false)
  {
    if Meets(n, s, path, NotFound) || Meets(n, s, path, Failed) {
      WindBackEnds(n, s.slots, path[0], 0, s.clock + 1, path);
    }
  }

  /** What a turn publishes is the buffer's new head: hash, number and bloom filter. */
  lemma PublishedHeadsBuffer(n: Node, s: State)
    requires Started(s) && Iterate(n, s).state.published != s.published
    ensures var next := Iterate(n, s).state;
            && |next.published| == |s.published| + 1
            && var h := next.published[|s.published|].header;
               next.slots == [Some(MiniBlock(h.hash, h.number, h.bloom))] + s.slots[..|s.slots| - 1]
  {
  }

  /** Some request of the turn fails. */
  ghost predicate RequestFails(n: Node, s: State)
    requires Started(s)
  {
    FirstReply(n, s).Failed? || exists path :: Meets(n, s, path, Failed)
  }

  /** The turn publishes a block, and the publisher times out or the recorder has an error. */
  ghost predicate PublishFails(n: Node, s: State)
    requires Started(s)
  {
    && FirstReply(n, s).Found?
    && var w := WindBack(n, s.slots, FirstReply(n, s).header, 0, s.clock + 1);
       && w.Landed? && !Holds(s.slots, w.header.hash)
       && (n.publishes(w.clock).TimedOut? || !n.records(w.clock).Done?)
  }

  /** A turn ends the process if and only if a request fails, the duplicate guard fires,
      the publisher times out or the recorder has an error. */
  lemma TurnStopsIff(n: Node, s: State)
    requires Started(s)
    ensures !Iterate(n, s).running <==> RequestFails(n, s) || GuardFires(n, s) || PublishFails(n, s)
  {
    if FirstReply(n, s).Found? {
      var h := FirstReply(n, s).header;
      var w := WindBack(n, s.slots, h, 0, s.clock + 1);
      if !w.Landed? {
        var path := WindBackPath(n, s.slots, h, 0, s.clock + 1);
        WindBackEnds(n, s.slots, h, 0, s.clock + 1, path);
        assert Meets(n, s, path, LastReply(n, s.clock + 1, path));
        UnansweredTurn(n, s, path);
      }
      if path :| Meets(n, s, path, Failed) {
        UnansweredTurn(n, s, path);
      }
    }
  }

  // ---- a run that ends at the guard: back to a branch left for another ----

  /** Genesis is 0; blocks 1, 2, 3 are one branch, 11, 12, 13 another. */
  function SmallTree(h: Hash): Header {
    if 1 <= h <= 3 then Header(h, h - 1, h as nat, 0)
    else if h == 11 then Header(11, 0, 1, 0)
    else if h == 12 then Header(12, 11, 2, 0)
    else if h == 13 then Header(13, 12, 3, 0)
    else Header(h, h, 0, 0)
  }

  /** The first branch grows to height 2, the second overtakes it, then the first is back. */
  function SmallChain(t: nat): seq<Header> {
    if t == 0 then [SmallTree(0)]
    else if t == 1 then [SmallTree(0), SmallTree(1)]
    else if t == 2 then [SmallTree(0), SmallTree(1), SmallTree(2)]
    else if t < 6 then [SmallTree(0), SmallTree(11), SmallTree(12), SmallTree(13)]
    else [SmallTree(0), SmallTree(1), SmallTree(2), SmallTree(3)]
  }

  function SmallReply(t: nat, r: Request): Reply {
    match r
    case Latest => Found(SmallChain(t)[|SmallChain(t)| - 1])
    case ByNumber(k) => if k < |SmallChain(t)| then Found(SmallChain(t)[k]) else NotFound
    case ByHash(x) => if 0 <= x <= 3 || 11 <= x <= 13 then Found(SmallTree(x)) else NotFound
  }

  const SMALL_NODE := Node((t: nat, r: Request) => SmallReply(t, r), t => true, t => Redis.Done, t => Redis.Done)

  const EMPTY_STATE := State([None, None, None, None], [], None, [], 0)

  function SmallSlots(a: Option<MiniBlock>, b: Option<MiniBlock>, c: Option<MiniBlock>, d: Option<MiniBlock>): (slots: Slots)
    ensures forall h :: Holds(slots, h) <==>
              || (a.Some? && a.value.hash == h) || (b.Some? && b.value.hash == h)
              || (c.Some? && c.value.hash == h) || (d.Some? && d.value.hash == h)
  {
    var slots := [a, b, c, d];
    assert slots[0] == a && slots[1] == b && slots[2] == c && slots[3] == d;
    slots
  }

  function SmallBlock(h: Hash): Option<MiniBlock> {
    Some(Mini(SmallTree(h)))
  }

  lemma SmallStart()
    ensures var next := Start(SMALL_NODE, EMPTY_STATE, 4);
            && next.running && next.state.clock == 1
            && next.state.slots == SmallSlots(SmallBlock(0), None, None, None)
  {
    var empty: Slots := seq(4, i => None);
    assert empty == [None, None, None, None];
  }

  /** A turn that need not wind back. */
  lemma SmallTurn(s: State, h: Hash)
    requires Started(s) && SmallReply(s.clock, ByNumber(s.slots[0].value.number + 1)) == Found(SmallTree(h))
    requires SmallTree(h).hash == h && Holds(s.slots, SmallTree(h).parentHash) && !Holds(s.slots, h)
    ensures var next := Iterate(SMALL_NODE, s);
            next.running && next.state.clock == s.clock + 1 && next.state.slots == Push(s.slots, SmallBlock(h).value)
  {
  }

  /** The turn that winds back from block 13 to block 11. */
  lemma SmallReorg(s: State)
    requires Started(s) && s.clock == 3 && s.slots == SmallSlots(SmallBlock(2), SmallBlock(1), SmallBlock(0), None)
    ensures var next := Iterate(SMALL_NODE, s);
            next.running && next.state.clock == 6 && next.state.slots == Push(s.slots, SmallBlock(11).value)
  {
    var n := SMALL_NODE;
    assert WindBack(n, s.slots, SmallTree(11), 2, 6) == Landed(SmallTree(11), 2, 6);
    assert WindBack(n, s.slots, SmallTree(12), 1, 5) == Landed(SmallTree(11), 2, 6);
    assert WindBack(n, s.slots, SmallTree(13), 0, 4) == Landed(SmallTree(11), 2, 6);
  }

  lemma SmallTreeIsTree()
    ensures Tree(SmallTree)
  {
  }

  lemma SmallChainInTree(t: nat, k: nat)
    requires k < |SmallChain(t)|
    ensures InTree(SmallTree, SmallChain(t)[k]) && SmallChain(t)[k].number == k
  {
  }

  lemma SmallReplyIsTrue(t: nat, r: Request)
    requires SmallReply(t, r).Found?
    ensures InTree(SmallTree, SmallReply(t, r).header)
    ensures r.ByNumber? ==> SmallReply(t, r).header.number == r.number
    ensures r.ByHash? ==> SmallReply(t, r).header.hash == r.hash
  {
    match r
    case Latest => SmallChainInTree(t, |SmallChain(t)| - 1);
    case ByNumber(k) => SmallChainInTree(t, k);
    case ByHash(x) =>
  }

  lemma SmallNodeIsTruthful()
    ensures Tree(SmallTree) && Truthful(SMALL_NODE, SmallTree)
  {
    SmallTreeIsTree();
    forall t: nat, r | SMALL_NODE.headers(t, r).Found?
      ensures InTree(SmallTree, SMALL_NODE.headers(t, r).header)
      ensures r.ByNumber? ==> SMALL_NODE.headers(t, r).header.number == r.number
      ensures r.ByHash? ==> SMALL_NODE.headers(t, r).header.hash == r.hash
    {
      SmallReplyIsTrue(t, r);
    }
  }

  lemma SmallChainSettles()
    ensures Chain(SmallChain(6)) && Settled(SMALL_NODE, SmallChain(6), 6)
  {
  }

  /** The state in which the second branch has been wound back to and its first block published. */
  lemma SmallRun() returns (s: State)
    ensures Start(SMALL_NODE, EMPTY_STATE, 4).running
    ensures Run(SMALL_NODE, Start(SMALL_NODE, EMPTY_STATE, 4).state, 3) == Next(s, true)
    ensures s.clock == 6 && s.slots == SmallSlots(SmallBlock(11), SmallBlock(2), SmallBlock(1), SmallBlock(0))
  {
    var n := SMALL_NODE;
    SmallStart();
    var s1 := Start(n, EMPTY_STATE, 4).state;
    SmallTurn(s1, 1);
    var s2 := Iterate(n, s1).state;
    assert s2.slots == SmallSlots(SmallBlock(1), SmallBlock(0), None, None);
    SmallTurn(s2, 2);
    var s3 := Iterate(n, s2).state;
    assert s3.slots == SmallSlots(SmallBlock(2), SmallBlock(1), SmallBlock(0), None);
    SmallReorg(s3);
    s := Iterate(n, s3).state;
    assert s.slots == SmallSlots(SmallBlock(11), SmallBlock(2), SmallBlock(1), SmallBlock(0));
    RunThrice(n, s1);
  }

  lemma RunThrice(n: Node, s: State)
    requires Started(s) && Iterate(n, s).running
    requires var s1 := Iterate(n, s).state; Iterate(n, s1).running && Iterate(n, Iterate(n, s1).state).running
    ensures Run(n, s, 3) == Iterate(n, Iterate(n, Iterate(n, s).state).state)
  {
    var s1 := Iterate(n, s).state;
    RunFirst(n, s, 2);
    RunFirst(n, s1, 1);
    RunFirst(n, Iterate(n, s1).state, 0);
  }

  /** With a truthful node, a buffer of four, from an empty log: blocks 0, 1, 2 and, after
      winding back, 11 are published. Then the chain is the first branch again, longer than
      before, and stays that way; asked for height 2 the node answers block 2, and the
      monitor exits. Nothing of the chain that stays is published any more. */
  lemma ReturnToOldBranchIsFatal() returns (s: State, chain: seq<Header>)
    ensures Tree(SmallTree) && Truthful(SMALL_NODE, SmallTree)
    ensures Start(SMALL_NODE, EMPTY_STATE, 4).running
    ensures Run(SMALL_NODE, Start(SMALL_NODE, EMPTY_STATE, 4).state, 3) == Next(s, true)
    ensures Chain(chain) && Settled(SMALL_NODE, chain, s.clock) && s.slots[0].value.number + 1 < |chain|
    ensures GuardFires(SMALL_NODE, s) && !Iterate(SMALL_NODE, s).running
  {
    SmallNodeIsTruthful();
    SmallChainSettles();
    s := SmallRun();
    chain := SmallChain(6);
    GuardFiresIff(SMALL_NODE, s);
  }

  /** While the new chain is not longer than the old head's height, nothing is published. */
  lemma {:induction false} WaitsForLongerChain(n: Node, s: State, chain: seq<Header>, k: nat)
    requires Started(s) && Settled(n, chain, s.clock) && |chain| <= s.slots[0].value.number + 1
    ensures Run(n, s, k).running && Run(n, s, k).state == s.(clock := s.clock + k)
    decreases k
  {
    if k == 0 {
    } else {
      WaitsForLongerChain(n, s.(clock := s.clock + 1), chain, k - 1);
    }
  }

  // ---- restarts ----

  /** The last block whose height was recorded; `origin` is the one recorded at the outset. */
  function LastRecorded(log: seq<Entry>, origin: Header): Header
    decreases log
  {
    if log == [] then origin
    else
      var last := log[|log| - 1];
      if last.recorded then last.header else LastRecorded(log[..|log| - 1], origin)
  }

  /** Entry i is the child of the block last recorded before it, or genesis once more
      while genesis is the block last recorded. */
  ghost predicate Extends(log: seq<Entry>, origin: Header, i: nat)
    requires i < |log|
  {
    var last, h := LastRecorded(log[..i], origin), log[i].header;
    (h.number == last.number + 1 && h.parentHash == last.hash) || (h == last && h.number == 0)
  }

  ghost predicate Unbroken(s: State, origin: Header) {
    && s.recorded == Some(LastRecorded(s.published, origin).number)
    && forall i :: 0 <= i < |s.published| ==> Extends(s.published, origin, i)
  }

  /** The block last recorded heads the buffer. */
  ghost predicate AtRecorded(s: State, origin: Header) {
    Started(s) && s.slots[0].value == Mini(LastRecorded(s.published, origin))
  }

  /** chains(t) is the chain the node is on at tick t; what it finds by number is on it. */
  ghost predicate Serves(n: Node, chains: nat -> seq<Header>) {
    && (forall t :: Chain(chains(t)))
    && (forall t, k: nat :: n.headers(t, ByNumber(k)).Found? ==>
          k < |chains(t)| && n.headers(t, ByNumber(k)).header == chains(t)[k])
  }

  /** The chain has not put another block in h's place. */
  predicate NotReplaced(chain: seq<Header>, h: Header) {
    h.number < |chain| ==> chain[h.number] == h
  }

  /** Now and for the next k turns, the node's chain has not replaced the block last recorded. */
  ghost predicate KeepsRecorded(n: Node, chains: nat -> seq<Header>, s: State, origin: Header, k: nat)
    requires Started(s)
    decreases k
  {
    k == 0 ||
    (&& NotReplaced(chains(s.clock), LastRecorded(s.published, origin))
     && (Iterate(n, s).running ==> KeepsRecorded(n, chains, Iterate(n, s).state, origin, k - 1)))
  }

  /** The same over sessions; each start can read the recorded height. */
  ghost predicate NothingReorganised(n: Node, chains: nat -> seq<Header>, s: State, origin: Header, size: nat, turns: seq<nat>)
    requires size > 0
    decreases turns
  {
    turns == [] ||
    (&& n.recalls(s.clock) && NotReplaced(chains(s.clock), LastRecorded(s.published, origin))
     && (Start(n, s, size).running ==> KeepsRecorded(n, chains, Start(n, s, size).state, origin, turns[0]))
     && NothingReorganised(n, chains, Session(n, s, size, turns[0]), origin, size, turns[1..]))
  }

  lemma PublishUnbroken(n: Node, s: State, origin: Header, h: Header, requests: nat)
    requires Unbroken(s, origin) && Started(s) && s.slots[0].value == Mini(h)
    requires var last := LastRecorded(s.published, origin);
             (h.number == last.number + 1 && h.parentHash == last.hash) || (h == last && h.number == 0)
    ensures Unbroken(Publish(n, s, h, requests).state, origin)
    ensures Publish(n, s, h, requests).running ==> AtRecorded(Publish(n, s, h, requests).state, origin)
  {
    var next := Publish(n, s, h, requests).state;
    if next.published != s.published {
      assert next.published[..|s.published|] == s.published;
      forall i | 0 <= i < |next.published|
        ensures Extends(next.published, origin, i)
      {
        assert i <= |s.published| && next.published[..i] == s.published[..i];
        if i < |s.published| {
          assert Extends(s.published, origin, i);
        } else {
          assert s.published[..i] == s.published;
        }
      }
    }
  }

  lemma IterateUnbroken(n: Node, chains: nat -> seq<Header>, s: State, origin: Header)
    requires Serves(n, chains) && Unbroken(s, origin) && AtRecorded(s, origin)
    requires NotReplaced(chains(s.clock), LastRecorded(s.published, origin))
    ensures Unbroken(Iterate(n, s).state, origin)
    ensures Iterate(n, s).running ==> AtRecorded(Iterate(n, s).state, origin)
  {
    match n.headers(s.clock, ByNumber(s.slots[0].value.number + 1))
    case Found(h) =>
      var last := LastRecorded(s.published, origin);
      assert Chain(chains(s.clock)) && h == chains(s.clock)[last.number + 1];
      assert h.number == last.number + 1 && h.parentHash == last.hash;
      assert Holds(s.slots, h.parentHash);
      assert WindBack(n, s.slots, h, 0, s.clock + 1) == Landed(h, 0, s.clock + 1);
      if !Holds(s.slots, h.hash) {
        PublishUnbroken(n, s.(slots := Push(s.slots, Mini(h)), clock := s.clock + 1), origin, h, 0);
      }
    case _ =>
  }

  lemma {:induction false} RunUnbroken(n: Node, chains: nat -> seq<Header>, s: State, origin: Header, k: nat)
    requires Serves(n, chains) && Unbroken(s, origin) && AtRecorded(s, origin) && KeepsRecorded(n, chains, s, origin, k)
    ensures Unbroken(Run(n, s, k).state, origin)
    decreases k
  {
    if k == 0 {
    } else {
      IterateUnbroken(n, chains, s, origin);
      if Iterate(n, s).running {
        RunUnbroken(n, chains, Iterate(n, s).state, origin, k - 1);
      }
    }
  }

  lemma StartUnbroken(n: Node, chains: nat -> seq<Header>, s: State, origin: Header, size: nat)
    requires size > 0 && Serves(n, chains) && Unbroken(s, origin)
    requires n.recalls(s.clock) && NotReplaced(chains(s.clock), LastRecorded(s.published, origin))
    ensures Unbroken(Start(n, s, size).state, origin)
    ensures Start(n, s, size).running ==> AtRecorded(Start(n, s, size).state, origin)
  {
    var reply := n.headers(s.clock, StartRequest(n, s));
    if reply.Found? {
      assert reply.header == LastRecorded(s.published, origin);
      BufferedUnbroken(s, origin, size, reply.header);
      if reply.header.number == 0 {
        PublishUnbroken(n, Buffered(s, size, reply.header), origin, reply.header, 0);
      }
    }
  }

  lemma BufferedUnbroken(s: State, origin: Header, size: nat, h: Header)
    requires size > 0 && Unbroken(s, origin) && h == LastRecorded(s.published, origin)
    ensures Unbroken(Buffered(s, size, h), origin) && AtRecorded(Buffered(s, size, h), origin)
  {
    assert Buffered(s, size, h).published == s.published;
  }

  /** If the node's chain never replaces the block last recorded, then over any crashes
      and restarts every published block is the child of the block last recorded before
      it, or genesis again. */
  lemma {:induction false} RestartsUnbroken(n: Node, chains: nat -> seq<Header>, s: State, origin: Header, size: nat,
                                            turns: seq<nat>)
    requires size > 0 && Serves(n, chains) && Unbroken(s, origin)
    requires NothingReorganised(n, chains, s, origin, size, turns)
    ensures Unbroken(Sessions(n, s, size, turns), origin)
    decreases turns
  {
    if turns == [] {
    } else {
      StartUnbroken(n, chains, s, origin, size);
      if Start(n, s, size).running {
        RunUnbroken(n, chains, Start(n, s, size).state, origin, turns[0]);
      }
      RestartsUnbroken(n, chains, Session(n, s, size, turns[0]), origin, size, turns[1..]);
    }
  }

  /** The recorded height never goes down along such a log. */
  lemma {:induction false} RecordedRises(log: seq<Entry>, origin: Header, i: nat, j: nat)
    requires i <= j <= |log|
    requires forall m :: 0 <= m < |log| ==> Extends(log, origin, m)
    ensures LastRecorded(log[..i], origin).number <= LastRecorded(log[..j], origin).number
    ensures i < j && log[i].recorded ==> log[i].header.number <= LastRecorded(log[..j], origin).number
    decreases j
  {
    if i == j {
    } else {
      assert log[..j][..j - 1] == log[..j - 1];
      assert Extends(log, origin, j - 1);
      RecordedRises(log, origin, i, j - 1);
    }
  }

  lemma ExtendsFront(log: seq<Entry>, origin: Header)
    requires log != [] && forall m :: 0 <= m < |log| ==> Extends(log, origin, m)
    ensures var front := log[..|log| - 1]; forall m :: 0 <= m < |front| ==> Extends(front, origin, m)
  {
    var front := log[..|log| - 1];
    forall m | 0 <= m < |front|
      ensures Extends(front, origin, m)
    {
      assert front[..m] == log[..m];
      assert Extends(log, origin, m);
    }
  }

  /** At least once: no height between the first and the last recorded one is missing. */
  lemma {:induction false} NoGap(log: seq<Entry>, origin: Header, height: nat) returns (i: nat)
    requires forall m :: 0 <= m < |log| ==> Extends(log, origin, m)
    requires origin.number < height <= LastRecorded(log, origin).number
    ensures i < |log| && log[i].recorded && log[i].header.number == height
    decreases log
  {
    assert log != [];
    var front, last := log[..|log| - 1], log[|log| - 1];
    ExtendsFront(log, origin);
    assert Extends(log, origin, |log| - 1);
    if last.recorded && last.header.number == height {
      i := |log| - 1;
    } else {
      i := NoGap(front, origin, height);
    }
  }

  /** Not much more than once: a block is published again only if it was not recorded
      the first time, or is genesis. */
  lemma OnlyUnrecordedRepeats(log: seq<Entry>, origin: Header, i: nat, j: nat)
    requires i < j < |log| && log[i].header == log[j].header
    requires forall m :: 0 <= m < |log| ==> Extends(log, origin, m)
    ensures !log[i].recorded || log[i].header.number == 0
  {
    RecordedRises(log, origin, i, j);
    assert Extends(log, origin, j);
  }

  /** A session resumes at the recorded height exactly if the recorder could be read, or
      nothing was mined since: an unreadable recorder silently means the latest block. */
  lemma ResumesWhereItLeftOff(n: Node, tree: Hash -> Header, s: State, size: nat)
    requires size > 0 && Truthful(n, tree) && s.recorded.Some?
    requires n.headers(s.clock, Latest).Found? && n.headers(s.clock, ByNumber(s.recorded.value)).Found?
    ensures Started(Start(n, s, size).state)
    ensures Start(n, s, size).state.slots[0].value.number == s.recorded.value <==>
            n.recalls(s.clock) || n.headers(s.clock, Latest).header.number == s.recorded.value
  {
    assert n.headers(s.clock, ByNumber(s.recorded.value)).header.number == s.recorded.value;
  }

  // ---- what consumers get ----

  /** Consumers got a block of this height. */
  ghost predicate Reaches(log: seq<Entry>, height: nat) {
    exists i :: 0 <= i < |log| && log[i].received && log[i].header.number == height
  }

  /** Every height from the first to the last recorded one. */
  ghost predicate NoneMissing(log: seq<Entry>, origin: Header) {
    forall height :: origin.number < height <= LastRecorded(log, origin).number ==> Reaches(log, height)
  }

  /** Publishing records a block that nobody got exactly if the push failed, other than by
      a timeout, without being carried out, and the recording was carried out. */
  lemma RecordsUnreceivedIff(n: Node, s: State, h: Header, requests: nat)
    ensures var log := Publish(n, s, h, requests).state.published;
            (|log| > |s.published| && !log[|s.published|].received && log[|s.published|].recorded) <==>
            n.publishes(s.clock).Failed? && !n.publishes(s.clock).late && Redis.Took(n.records(s.clock))
  {
  }

  /** No recorded height is missing if and only if none was recorded without being received,
      then or when its block was published before. */
  lemma NoneMissingIff(log: seq<Entry>, origin: Header)
    requires forall m :: 0 <= m < |log| ==> Extends(log, origin, m)
    ensures NoneMissing(log, origin) <==>
            forall i :: 0 <= i < |log| && log[i].recorded && log[i].header.number > origin.number ==>
              Reaches(log, log[i].header.number)
  {
    if NoneMissing(log, origin) {
      forall i | 0 <= i < |log| && log[i].recorded && log[i].header.number > origin.number
        ensures Reaches(log, log[i].header.number)
      {
        RecordedRises(log, origin, i, |log|);
        assert log[..|log|] == log;
      }
    } else {
      var height: nat :| origin.number < height <= LastRecorded(log, origin).number && !Reaches(log, height);
      var i := NoGap(log, origin, height);
    }
  }

  /** The same over any crashes and restarts on a chain that replaces no recorded block. */
  lemma RestartsMissNoneIff(n: Node, chains: nat -> seq<Header>, s: State, origin: Header, size: nat, turns: seq<nat>)
    requires size > 0 && Serves(n, chains) && Unbroken(s, origin)
    requires NothingReorganised(n, chains, s, origin, size, turns)
    ensures var log := Sessions(n, s, size, turns).published;
            NoneMissing(log, origin) <==>
            forall i :: 0 <= i < |log| && log[i].recorded && log[i].header.number > origin.number ==>
              Reaches(log, log[i].header.number)
  {
    RestartsUnbroken(n, chains, s, origin, size, turns);
    NoneMissingIff(Sessions(n, s, size, turns).published, origin);
  }

  /** No push was refused, above the height the log began at. */
  ghost predicate AllReceived(log: seq<Entry>, origin: Header) {
    forall i :: 0 <= i < |log| && log[i].header.number > origin.number ==> log[i].received
  }

  /** Recorded entries above genesis rise strictly. */
  lemma OneAtEachHeight(log: seq<Entry>, origin: Header, i: nat, j: nat)
    requires forall m :: 0 <= m < |log| ==> Extends(log, origin, m)
    requires i < j < |log| && log[i].recorded && log[j].header.number > 0
    ensures log[i].header.number < log[j].header.number
  {
    RecordedRises(log, origin, i, j);
    assert Extends(log, origin, j);
  }

  /** If every publish was recorded, no height is missing if and only if no push was refused. */
  lemma NoneMissingIffAllReceived(log: seq<Entry>, origin: Header)
    requires forall m :: 0 <= m < |log| ==> Extends(log, origin, m) && log[m].recorded
    ensures NoneMissing(log, origin) <==> AllReceived(log, origin)
  {
    NoneMissingIff(log, origin);
    if NoneMissing(log, origin) {
      forall i | 0 <= i < |log| && log[i].header.number > origin.number
        ensures log[i].received
      {
        var j :| 0 <= j < |log| && log[j].received && log[j].header.number == log[i].header.number;
        if i < j {
          OneAtEachHeight(log, origin, i, j);
        } else if j < i {
          OneAtEachHeight(log, origin, j, i);
        }
      }
    } else {
      var i :| 0 <= i < |log| && log[i].recorded && log[i].header.number > origin.number && !Reaches(log, log[i].header.number);
    }
  }

  /** A block with this hash was received, or a session started from it. */
  ghost predicate KnownReceived(published: seq<Entry>, starts: seq<Header>, hash: Hash) {
    || (exists i :: 0 <= i < |published| && published[i].received && published[i].header.hash == hash)
    || (exists i :: 0 <= i < |starts| && starts[i].hash == hash)
  }

  /** The parent is in the log, and every push of it before entry i was refused. */
  ghost predicate ParentRefused(published: seq<Entry>, i: nat)
    requires i < |published|
  {
    && (exists j :: 0 <= j < i && published[j].header.hash == published[i].header.parentHash)
    && (forall j :: 0 <= j < i && published[j].header.hash == published[i].header.parentHash ==> !published[j].received)
  }

  /** Ancestor closure as consumers see it. A block of the log that is neither genesis nor
      where a wind-back was exhausted lacks a parent among the blocks received and started
      from if and only if its parent is no start block and every push of it was refused. */
  lemma OrphanIffParentRefused(s: State, size: nat, i: nat)
    requires Closed(s, size) && i < |s.published|
    requires s.published[i].header.number > 0 && s.published[i].requests < size
    ensures var parent := s.published[i].header.parentHash;
            !KnownReceived(s.published[..i], s.starts, parent) <==>
            ParentRefused(s.published, i) && !Known([], s.starts, parent)
  {
    var front, parent := s.published[..i], s.published[i].header.parentHash;
    assert Anchored(s.published, s.starts, size, i);
    assert forall j :: 0 <= j < i ==> front[j] == s.published[j];
  }

  // ---- what a restart misses ----

  /** From tick `from` on, the chain's last block is the latest one. */
  ghost predicate TipServed(n: Node, chain: seq<Header>, from: nat) {
    chain != [] && forall t :: from <= t ==> n.headers(t, Latest) == Found(chain[|chain| - 1])
  }

  /** Where a session starts on a settled chain. */
  function StartHeight(n: Node, s: State, chain: seq<Header>): nat
    requires chain != []
  {
    if s.recorded.Some? && n.recalls(s.clock) then s.recorded.value else |chain| - 1
  }

  lemma StartOnChain(n: Node, s: State, size: nat, chain: seq<Header>)
    requires size > 0 && Chain(chain) && Settled(n, chain, s.clock) && TipServed(n, chain, s.clock)
    requires StartHeight(n, s, chain) < |chain|
    ensures var start, next := StartHeight(n, s, chain), Start(n, s, size);
            && next.running && next.state.clock == s.clock + 1
            && next.state.published == s.published + (if start == 0 then [Entry(chain[0], 0, true, true)] else [])
            && next.state.slots[0] == Some(Mini(chain[start]))
            && forall x :: Holds(next.state.slots, x) ==> x == chain[start].hash
  {
    var empty: Slots, start := seq(size, i => None), StartHeight(n, s, chain);
    assert n.headers(s.clock, StartRequest(n, s)) == Found(chain[start]);
    PushHolds(empty, Mini(chain[start]));
  }

  /** A session on a settled chain publishes the chain's blocks above the one it starts
      from, and that one if it is genesis; the buffer of the session before is gone. */
  lemma RestartPublishes(n: Node, s: State, size: nat, chain: seq<Header>, k: nat)
    requires size > 0 && Chain(chain) && Settled(n, chain, s.clock) && TipServed(n, chain, s.clock)
    requires StartHeight(n, s, chain) < |chain|
    ensures var start := StartHeight(n, s, chain);
            Session(n, s, size, k).published ==
            s.published + (if start == 0 then [Entry(chain[0], 0, true, true)] else [])
            + Straight(chain, start + 1, Least(start + 1 + k, |chain|))
  {
    StartOnChain(n, s, size, chain);
    var start, next := StartHeight(n, s, chain), Start(n, s, size).state;
    var to := Least(start + 1 + k, |chain|);
    FollowTip(n, next, chain, start, k);
    assert forall x, i: nat :: StillHolds(next.slots, x, i) ==> Holds(next.slots, x);
    assert Stop(next.slots, chain, start + 1, start + 1, to) == to;
  }

  /** Consumers got h, or the log began there. */
  ghost predicate Covers(log: seq<Entry>, origin: Header, h: Header) {
    h == origin || exists i :: 0 <= i < |log| && log[i].received && log[i].header == h
  }

  ghost predicate CaughtUp(log: seq<Entry>, origin: Header, chain: seq<Header>, to: nat)
    requires to <= |chain|
  {
    forall j :: origin.number <= j < to ==> Covers(log, origin, chain[j])
  }

  lemma CoversAppend(log: seq<Entry>, more: seq<Entry>, origin: Header, h: Header)
    ensures Covers(log + more, origin, h) <==>
            Covers(log, origin, h) || exists i :: 0 <= i < |more| && more[i].received && more[i].header == h
  {
    if i :| 0 <= i < |log| && log[i].received && log[i].header == h {
      assert (log + more)[i] == log[i];
    }
    if i :| 0 <= i < |more| && more[i].received && more[i].header == h {
      assert (log + more)[|log| + i] == more[i];
    }
  }

  /** Given enough turns, no block of a settled chain is missing after a restart if and
      only if none was missing up to the block it starts from. */
  lemma RestartCatchesUpIff(n: Node, s: State, origin: Header, size: nat, chain: seq<Header>, k: nat)
    requires size > 0 && Chain(chain) && Settled(n, chain, s.clock) && TipServed(n, chain, s.clock)
    requires StartHeight(n, s, chain) < |chain| <= k
    ensures var start := StartHeight(n, s, chain);
            CaughtUp(Session(n, s, size, k).published, origin, chain, |chain|) <==>
            start == 0 || CaughtUp(s.published, origin, chain, start + 1)
  {
    var start, after := StartHeight(n, s, chain), Session(n, s, size, k).published;
    var first := if start == 0 then [Entry(chain[0], 0, true, true)] else [];
    var rest := Straight(chain, start + 1, |chain|);
    RestartPublishes(n, s, size, chain, k);
    assert after == s.published + (first + rest);
    forall j | 0 <= j < |chain|
      ensures Covers(after, origin, chain[j]) <==> Covers(s.published, origin, chain[j]) || j > start || start == j == 0
    {
      CoversAppend(s.published, first + rest, origin, chain[j]);
      if j > start {
        assert (first + rest)[|first| + j - start - 1].header == chain[j];
      } else if start == 0 {
        assert (first + rest)[0].header == chain[0];
      } else {
        assert forall i :: 0 <= i < |first + rest| ==> (first + rest)[i].header.number > start;
      }
    }
  }

  /** On a chain that has the block last recorded, every block below it was received, if
      no push was refused. */
  lemma {:induction false} AncestorsCovered(log: seq<Entry>, origin: Header, tree: Hash -> Header, chain: seq<Header>, r: nat, j: nat)
    requires (forall m :: 0 <= m < |log| ==> Extends(log, origin, m)) && AllReceived(log, origin)
    requires InTree(tree, origin) && forall m :: 0 <= m < |log| ==> InTree(tree, log[m].header)
    requires Chain(chain) && forall m :: 0 <= m < |chain| ==> InTree(tree, chain[m])
    requires r < |chain| && LastRecorded(log, origin) == chain[r] && origin.number <= j <= r
    ensures Covers(log, origin, chain[j])
    decreases log
  {
    if log == [] {
    } else {
      var front, last := log[..|log| - 1], log[|log| - 1];
      ExtendsFront(log, origin);
      assert log == front + [last] && Extends(log, origin, |log| - 1);
      CoversAppend(front, [last], origin, chain[j]);
      assert AllReceived(front, origin);
      if last.recorded && last.received && j == r {
        assert [last][0].header == chain[j];
      } else if LastRecorded(front, origin) == chain[r] {
        AncestorsCovered(front, origin, tree, chain, r, j);
      } else {
        LastInTree(front, origin, tree);
        RisesFromOrigin(front, origin);
        assert LastRecorded(front, origin) == chain[r - 1];
        AncestorsCovered(front, origin, tree, chain, r - 1, j);
      }
    }
  }

  lemma RisesFromOrigin(log: seq<Entry>, origin: Header)
    requires forall m :: 0 <= m < |log| ==> Extends(log, origin, m)
    ensures origin.number <= LastRecorded(log, origin).number
  {
    RecordedRises(log, origin, 0, |log|);
    assert log[..|log|] == log && log[..0] == [];
  }

  /** On such a chain every logged block is the chain's, if every publish was recorded. */
  lemma {:induction false} LoggedOnChain(log: seq<Entry>, origin: Header, tree: Hash -> Header, chain: seq<Header>, r: nat, m: nat)
    requires forall i :: 0 <= i < |log| ==> Extends(log, origin, i) && log[i].recorded
    requires InTree(tree, origin) && forall i :: 0 <= i < |log| ==> InTree(tree, log[i].header)
    requires Chain(chain) && forall i :: 0 <= i < |chain| ==> InTree(tree, chain[i])
    requires r < |chain| && LastRecorded(log, origin) == chain[r] && m < |log|
    ensures log[m].header.number <= r && log[m].header == chain[log[m].header.number]
    decreases log
  {
    var front, last := log[..|log| - 1], log[|log| - 1];
    if m < |front| {
      ExtendsFront(log, origin);
      assert Extends(log, origin, |log| - 1);
      LastInTree(front, origin, tree);
      var r' := if last.header.number == 0 then r else r - 1;
      assert LastRecorded(front, origin) == chain[r'];
      LoggedOnChain(front, origin, tree, chain, r', m);
    }
  }

  lemma {:induction false} LastInTree(log: seq<Entry>, origin: Header, tree: Hash -> Header)
    requires InTree(tree, origin) && forall m :: 0 <= m < |log| ==> InTree(tree, log[m].header)
    ensures InTree(tree, LastRecorded(log, origin))
    decreases log
  {
    if log == [] {
    } else {
      LastInTree(log[..|log| - 1], origin, tree);
    }
  }

  /** If every entry was recorded, none is higher than the block last recorded, and none
      but that one is as high. */
  lemma NoneAsHigh(log: seq<Entry>, origin: Header, h: Header)
    requires forall m :: 0 <= m < |log| ==> Extends(log, origin, m) && log[m].recorded
    requires Covers(log, origin, h)
    ensures h.number <= LastRecorded(log, origin).number
    ensures h.number == LastRecorded(log, origin).number ==> h == LastRecorded(log, origin) || h.number == 0
  {
    if log == [] {
    } else {
      var n := |log| - 1;
      assert log[..|log|] == log && log[..0] == [] && Extends(log, origin, n);
      RecordedRises(log, origin, 0, n);
      if h != origin {
        var i :| 0 <= i < |log| && log[i].header == h;
        RecordedRises(log, origin, i, n);
        RecordedRises(log, origin, i, |log|);
      }
    }
  }

  /** A monitor that crashed with everything published also recorded, restarted on a chain
      that has grown past the recorded height: consumers miss no chain block if and only if
      the recorder can be read, the block recorded is still on the chain and no push was
      refused (or nothing above genesis was recorded). So even a reorganisation one block
      deep that happens while it is down skips a block. */
  lemma RestartMissesNothingIff(n: Node, s: State, origin: Header, tree: Hash -> Header, size: nat, chain: seq<Header>, k: nat)
    requires size > 0 && Chain(chain) && Settled(n, chain, s.clock) && TipServed(n, chain, s.clock)
    requires Unbroken(s, origin) && forall m :: 0 <= m < |s.published| ==> s.published[m].recorded
    requires LogInTree(s, tree) && InTree(tree, origin) && forall m :: 0 <= m < |chain| ==> InTree(tree, chain[m])
    requires s.recorded.value + 1 < |chain| <= k
    ensures var r, last := s.recorded.value, LastRecorded(s.published, origin);
            CaughtUp(Session(n, s, size, k).published, origin, chain, |chain|) <==>
            n.recalls(s.clock) && (r == 0 || (chain[r] == last && AllReceived(s.published, origin)))
  {
    var log, r, last, start := s.published, s.recorded.value, LastRecorded(s.published, origin), StartHeight(n, s, chain);
    RestartCatchesUpIff(n, s, origin, size, chain, k);
    RisesFromOrigin(log, origin);
    if CaughtUp(log, origin, chain, start + 1) {
      assert Covers(log, origin, chain[start]);
      NoneAsHigh(log, origin, chain[start]);
      if start == r && chain[r] == last {
        CoveredMeansReceived(log, origin, tree, chain, r);
      }
    }
    if chain[r] == last && AllReceived(log, origin) {
      forall j | origin.number <= j < r + 1
        ensures Covers(log, origin, chain[j])
      {
        AncestorsCovered(log, origin, tree, chain, r, j);
      }
    }
  }

  lemma CoveredMeansReceived(log: seq<Entry>, origin: Header, tree: Hash -> Header, chain: seq<Header>, r: nat)
    requires forall i :: 0 <= i < |log| ==> Extends(log, origin, i) && log[i].recorded
    requires InTree(tree, origin) && forall i :: 0 <= i < |log| ==> InTree(tree, log[i].header)
    requires Chain(chain) && forall i :: 0 <= i < |chain| ==> InTree(tree, chain[i])
    requires r < |chain| && LastRecorded(log, origin) == chain[r] && CaughtUp(log, origin, chain, r + 1)
    ensures AllReceived(log, origin)
  {
    forall m | 0 <= m < |log| && log[m].header.number > origin.number
      ensures log[m].received
    {
      var height := log[m].header.number;
      LoggedOnChain(log, origin, tree, chain, r, m);
      assert Covers(log, origin, chain[height]);
      var i :| 0 <= i < |log| && log[i].received && log[i].header == chain[height];
      if i < m {
        OneAtEachHeight(log, origin, i, m);
      } else if m < i {
        OneAtEachHeight(log, origin, m, i);
      }
    }
  }
}
