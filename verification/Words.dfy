/** Strings of 32-byte words: the common shape of hash preimages and of ABI heads. */
module Words {
  import opened Bytes
  import opened Orders

  /** An address as a 32-byte word. */
  function Padded(a: Address): (w: Word)
    ensures w == Zeros(12) + a
  {
    Zeros(12) + a
  }

  function Flatten(words: seq<Word>): (b: Bytes)
    ensures |b| == 32 * |words|
  {
    if words == [] then [] else words[0] + Flatten(words[1..])
  }

  /** The word at index i sits at byte 32 * i, whatever follows. */
  lemma {:induction false} WordAt(words: seq<Word>, tail: Bytes, i: nat)
    requires i < |words|
    ensures (Flatten(words) + tail)[32 * i..32 * i + 32] == words[i]
  {
    var first: Bytes, rest: Bytes := words[0], Flatten(words[1..]) + tail;
    assert Flatten(words) + tail == first + rest;
    if i > 0 {
      WordAt(words[1..], tail, i - 1);
      assert (first + rest)[32 * i..32 * i + 32] == rest[32 * (i - 1)..32 * (i - 1) + 32];
    }
  }

  lemma {:induction false} FlattenInjective(a: seq<Word>, b: seq<Word>)
    requires |a| == |b| && Flatten(a) == Flatten(b)
    ensures a == b
  {
    if a == [] {
    } else {
      assert a[0] == Flatten(a)[..32] == b[0];
      assert Flatten(a[1..]) == Flatten(a)[32..] == Flatten(b[1..]);
      FlattenInjective(a[1..], b[1..]);
      assert a == [a[0]] + a[1..];
    }
  }

  lemma PaddedInjective(a: Address, b: Address)
    requires Padded(a) == Padded(b)
    ensures a == b
  {
    assert a == Padded(a)[12..] == Padded(b)[12..] == b;
  }

  lemma {:induction false} FlattenSnoc(words: seq<Word>, w: Word)
    ensures Flatten(words + [w]) == Flatten(words) + w
  {
    if words == [] {
      assert [] + [w] == [w];
    } else {
      FlattenSnoc(words[1..], w);
      assert (words + [w])[1..] == words[1..] + [w];
    }
  }

  /** The static fields of an order, in the order both encodings write them. */
  function PartyWords(s: Signed): seq<Word> {
    [Padded(s.maker), Padded(s.taker), Padded(s.feeRecipient), Padded(s.sender)]
  }

  function AmountWords(s: Signed): seq<Word> {
    [s.makerAmount, s.takerAmount, s.makerFee, s.takerFee, s.expiration, s.salt]
  }

  /** The static fields are determined by their words. */
  lemma StaticWordsFixFields(s: Signed, t: Signed)
    requires PartyWords(s) == PartyWords(t) && AmountWords(s) == AmountWords(t)
    ensures s == t.(exchange := s.exchange, makerAssetData := s.makerAssetData, takerAssetData := s.takerAssetData)
  {
    var p, q, a, b := PartyWords(s), PartyWords(t), AmountWords(s), AmountWords(t);
    assert p[0] == q[0] && p[1] == q[1] && p[2] == q[2] && p[3] == q[3];
    assert a[0] == b[0] && a[1] == b[1] && a[2] == b[2] && a[3] == b[3] && a[4] == b[4] && a[5] == b[5];
    PaddedInjective(s.maker, t.maker);
    PaddedInjective(s.taker, t.taker);
    PaddedInjective(s.feeRecipient, t.feeRecipient);
    PaddedInjective(s.sender, t.sender);
  }

  /** A buffer that grows by appending, a whole word at a time, as the sha3 hashers
      and the call encoder are fed. */
  class WordBuffer {
    var written: Bytes
    ghost var words: seq<Word>

    ghost predicate Valid()
      reads this
    {
      written == Flatten(words)
    }

    constructor ()
      ensures Valid() && words == []
    {
      written, words := [], [];
    }

    method WriteWord(w: Word)
      requires Valid()
      modifies this
      ensures Valid() && words == old(words) + [w]
    {
      written := written + w;
      FlattenSnoc(words, w);
      words := words + [w];
    }

    /** Twelve null bytes, then the address. */
    method WriteAddress(a: Address)
      requires Valid()
      modifies this
      ensures Valid() && words == old(words) + [Padded(a)]
    {
      written := written + Zeros(12);
      written := written + a;
      assert written == Flatten(words) + Padded(a);
      FlattenSnoc(words, Padded(a));
      words := words + [Padded(a)];
    }

    method WriteParties(s: Signed)
      requires Valid()
      modifies this
      ensures Valid() && words == old(words) + PartyWords(s)
    {
      WriteAddress(s.maker);
      WriteAddress(s.taker);
      WriteAddress(s.feeRecipient);
      WriteAddress(s.sender);
    }

    method WriteAmounts(s: Signed)
      requires Valid()
      modifies this
      ensures Valid() && words == old(words) + AmountWords(s)
    {
      WriteWord(s.makerAmount);
      WriteWord(s.takerAmount);
      WriteWord(s.makerFee);
      WriteWord(s.takerFee);
      WriteWord(s.expiration);
      WriteWord(s.salt);
    }
  }
}
