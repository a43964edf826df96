/** Headers, and the ring buffer of monitor/blocks. */
module RingBuffer {
  import opened Text

  type Hash = int

  datatype MiniBlock = MiniBlock(hash: Hash, number: nat, bloom: int)

  /** The buffer's contents, most recent first, None where nothing was added yet. */
  type Slots = seq<Option<MiniBlock>>

  function Push(slots: Slots, b: MiniBlock): (s: Slots)
    requires slots != []
    ensures |s| == |slots|
  {
    [Some(b)] + slots[..|slots| - 1]
  }

  predicate Holds(slots: Slots, hash: Hash) {
    exists i :: 0 <= i < |slots| && slots[i].Some? && slots[i].value.hash == hash
  }

  /** Reading an array backwards from its head, around its end. */
  function Unroll(a: Slots, head: nat): (s: Slots)
    requires head < |a|
    ensures |s| == |a|
  {
    seq(|a|, i requires 0 <= i < |a| => a[if i <= head then head - i else head - i + |a|])
  }

  lemma AdvanceIsPush(a: Slots, head: nat, next: nat, b: MiniBlock)
    requires head < |a| && next == if head + 1 < |a| then head + 1 else 0
    ensures Unroll(a[next := Some(b)], next) == Push(Unroll(a, head), b)
  {
    var s, t := Unroll(a[next := Some(b)], next), Push(Unroll(a, head), b);
    forall i | 0 <= i < |a|
      ensures s[i] == t[i]
    {
      if i > 0 {
        assert t[i] == Unroll(a, head)[i - 1];
      }
    }
  }

  class BlockRingBuffer {
    const blocks: array<Option<MiniBlock>>
    const size: nat
    var head: nat

    ghost predicate Valid()
      reads this
    {
      size > 0 && blocks.Length == size && head < size
    }

    /** Slot i is i places behind the head. */
    ghost function Contents(): (s: Slots)
      requires Valid()
      reads this, blocks
      ensures |s| == size
    {
      Unroll(blocks[..], head)
    }

    constructor (size: nat)
      requires size > 0
      ensures Valid() && this.size == size && fresh(blocks)
      ensures Contents() == seq(size, i => None)
    {
      this.blocks := new Option<MiniBlock>[size](i => None);
      this.size := size;
      this.head := 0;
    }

    method Add(mb: MiniBlock)
      requires Valid()
      modifies this`head, blocks
      ensures Valid() && Contents() == Push(old(Contents()), mb)
    {
      ghost var before, at := blocks[..], head;
      head := (head + 1) % size;
      blocks[head] := Some(mb);
      assert head == if at + 1 < size then at + 1 else 0;
      AdvanceIsPush(before, at, head, mb);
      assert blocks[..] == before[head := Some(mb)];
    }

    /** Get(0) is the last block added. Counts that reach outside the array panic. */
    method Get(count: int) returns (block: Option<MiniBlock>)
      requires Valid() && 0 <= head - count + size < 2 * size
      ensures 0 <= count < size ==> block == Contents()[count]
    {
      var index := head - count;
      if index < 0 {
        index := index + size;
      }
      block := blocks[index];
    }

    /** The most recent position of a block with this hash, or -1. */
    method HashIndex(hash: Hash) returns (index: int)
      requires Valid()
      ensures index == -1 <==> !Holds(Contents(), hash)
      ensures index != -1 ==>
                && 0 <= index < size && Contents()[index].Some? && Contents()[index].value.hash == hash
                && forall i :: 0 <= i < index && Contents()[i].Some? ==> Contents()[i].value.hash != hash
    {
      for i := 0 to size
        invariant forall j :: 0 <= j < i && Contents()[j].Some? ==> Contents()[j].value.hash != hash
      {
        var block := Get(i);
        if block.Some? && block.value.hash == hash {
          return i;
        }
      }
      return -1;
    }
  }

  function PushAll(slots: Slots, added: seq<MiniBlock>): (s: Slots)
    requires slots != []
    ensures |s| == |slots|
    decreases added
  {
    if added == [] then slots else Push(PushAll(slots, added[..|added| - 1]), added[|added| - 1])
  }

  /** After any adds to an empty buffer, slot i is the i-th most recent block, or nothing
      if fewer were added. */
  lemma {:induction false} MostRecent(size: nat, added: seq<MiniBlock>, i: nat)
    requires i < size
    ensures PushAll(seq(size, j => None), added)[i] ==
            if i < |added| then Some(added[|added| - 1 - i]) else None
    decreases added
  {
    if added != [] && i > 0 {
      MostRecent(size, added[..|added| - 1], i - 1);
    }
  }

  /** No two slots hold the same hash. */
  ghost predicate Distinct(slots: Slots) {
    forall i, j :: 0 <= i < j < |slots| && slots[i].Some? && slots[j].Some? ==>
      slots[i].value.hash != slots[j].value.hash
  }

  lemma PushKeepsDistinct(slots: Slots, b: MiniBlock)
    requires slots != [] && Distinct(slots) && !Holds(slots, b.hash)
    ensures Distinct(Push(slots, b))
  {
    var pushed := Push(slots, b);
    assert forall i :: 0 < i < |pushed| ==> pushed[i] == slots[i - 1];
  }

  /** What a push does to membership: the new hash is in, and nothing else comes in. */
  lemma PushHolds(slots: Slots, b: MiniBlock)
    requires slots != []
    ensures Holds(Push(slots, b), b.hash)
    ensures forall h :: Holds(Push(slots, b), h) ==> h == b.hash || Holds(slots, h)
  {
    var pushed := Push(slots, b);
    assert pushed[0] == Some(b);
    forall h | Holds(pushed, h) && h != b.hash
      ensures Holds(slots, h)
    {
      var i :| 0 <= i < |pushed| && pushed[i].Some? && pushed[i].value.hash == h;
      assert slots[i - 1] == pushed[i];
    }
  }
}
