/** The packed ids of the slot containers. An id, a free-list link and a free-list
    head are all words of `tagBits + indexBits` bits. */
module PackedIds {
  import opened Bits

  /** An unpacked word. */
  datatype Word = Word(tag: nat, index: nat)

  datatype Layout = Layout(indexBits: nat, tagBits: nat) {

    ghost predicate Valid() {
      indexBits > 0 && tagBits > 0
    }

    /** The number of distinct index values; the largest marks the end of a list. */
    function Indices(): (n: nat)
      ensures n >= 1
    {
      Pow2(indexBits)
    }

    function Tags(): (n: nat)
      ensures n >= 1
    {
      Pow2(tagBits)
    }

    function Invalid(): nat {
      Indices() - 1
    }

    function IndexMask(): nat {
      Indices() - 1
    }

    function TagMask(): nat {
      Join(indexBits, Tags() - 1, 0)
    }

    /** Words wrap at this size. */
    function Size(): (n: nat)
      ensures n > 0
    {
      MultipleGap(Tags(), Indices());
      Join(indexBits, Tags(), 0)
    }

    function UnpackIndex(id: nat): nat {
      And(id, IndexMask())
    }

    function TagPart(id: nat): nat {
      And(id, TagMask())
    }

    function ResetIndex(id: nat, newIndex: nat): nat {
      Or(And(id, TagMask()), newIndex)
    }

    function IncrementTagAndReset(id: nat, newIndex: nat): nat {
      Or(And((And(id, TagMask()) + Indices()) % Size(), TagMask()), newIndex)
    }

    function IncrementTag(id: nat): nat {
      IncrementTagAndReset(id, UnpackIndex(id))
    }

    /** Appending to a free list whose last word carries an all-ones index. */
    function Relink(last: nat, newIndex: nat): nat {
      And(last, Or(TagMask(), newIndex))
    }

    ghost predicate Fits(w: Word) {
      w.tag < Tags() && w.index < Indices()
    }

    function Pack(w: Word): nat {
      Join(indexBits, w.tag, w.index)
    }

    lemma PackInjective(a: Word, b: Word)
      requires Fits(a) && Fits(b)
      ensures Pack(a) == Pack(b) <==> a == b
    {
      JoinParts(indexBits, a.tag, a.index);
      JoinParts(indexBits, b.tag, b.index);
    }

    /** The index mask yields the index field, the tag mask the tag field. */
    lemma UnpackPacked(w: Word)
      requires Fits(w)
      ensures UnpackIndex(Pack(w)) == w.index
      ensures TagPart(Pack(w)) == Pack(Word(w.tag, 0))
    {
      hide And, Or, Join, Pow2;
      assert Pow2(indexBits) >= 1 && Pow2(tagBits) >= 1;
      AndZero(w.tag);
      AndZero(w.index);
      JoinZero(indexBits, w.index);
      JoinZero(indexBits, IndexMask());
      AndJoin(indexBits, w.tag, w.index, 0, IndexMask());
      AndOnes(indexBits, w.index);
      AndJoin(indexBits, w.tag, w.index, Tags() - 1, 0);
      AndOnes(tagBits, w.tag);
    }

    lemma ResetPacked(w: Word, newIndex: nat)
      requires Fits(w) && newIndex < Indices()
      ensures ResetIndex(Pack(w), newIndex) == Pack(Word(w.tag, newIndex))
    {
      UnpackPacked(w);
      OrJoin(indexBits, w.tag, 0, 0, newIndex);
    }

    lemma TagCarry(tag: nat)
      requires tag < Tags()
      ensures (Pack(Word(tag, 0)) + Indices()) % Size() == Pack(Word(Rem(tag + 1, Tags()), 0))
    {
      WrapMultiple(tag, Tags(), Indices());
    }

    /** The tag field counts modulo the number of tags and never carries out. */
    lemma IncrementPacked(w: Word, newIndex: nat)
      requires Fits(w) && newIndex < Indices()
      ensures IncrementTagAndReset(Pack(w), newIndex) == Pack(Word(Rem(w.tag + 1, Tags()), newIndex))
    {
      UnpackPacked(w);
      TagCarry(w.tag);
      ResetPacked(Word(Rem(w.tag + 1, Tags()), 0), newIndex);
    }

    static lemma WrapMultiple(tag: nat, tags: nat, m: nat)
      requires tag < tags && m > 0
      ensures tags * m > 0
      ensures (tag * m + m) % (tags * m) == ((tag + 1) % tags) * m
    {
      MultipleGap(tags, m);
      MultipleGap(tags - tag - 1, m);
      if tag + 1 == tags {
        DivideByMultiple(1, tags, 0);
        FullTurn(tag * m + m, tags * m);
      } else {
        SmallModulo(tag + 1, tags);
        SmallerProduct(tag, tags, m);
        SmallModulo(tag * m + m, tags * m);
      }
    }

    static lemma FullTurn(a: nat, n: nat)
      requires n > 0 && a == n
      ensures a % n == 0
    {
      DivideByMultiple(1, n, 0);
    }

    static lemma SmallerProduct(tag: nat, tags: nat, m: nat)
      requires tag + 1 < tags && m > 0
      ensures tag * m + m < tags * m
    {
      MultipleGap(tags - tag - 1, m);
      assert tags * m - tag * m - m == (tags - tag - 1) * m;
    }

    /** The one-sided update that appends a slot to the free list: it writes the
        index because the field held all ones, and it keeps the tag. */
    lemma RelinkPacked(tag: nat, newIndex: nat)
      requires tag < Tags() && newIndex < Indices()
      ensures Relink(Pack(Word(tag, Invalid())), newIndex) == Pack(Word(tag, newIndex))
    {
      hide And, Or, Join, Pow2;
      assert Pow2(indexBits) >= 1 && Pow2(tagBits) >= 1;
      JoinZero(indexBits, newIndex);
      OrJoin(indexBits, Tags() - 1, 0, 0, newIndex);
      OrZero(Tags() - 1);
      OrZero(newIndex);
      AndJoin(indexBits, tag, Invalid(), Tags() - 1, newIndex);
      AndOnes(tagBits, tag);
      AndOnes(indexBits, newIndex);
    }

    /** On any other index field the update loses bits: it is exact for every new
        index only if the field holds all ones. */
    lemma RelinkNeedsOnes(w: Word)
      requires Fits(w)
      ensures (forall i: nat | i < Indices() :: Relink(Pack(w), i) == Pack(Word(w.tag, i)))
         <==> w.index == Invalid()
    {
      hide Relink, Pack, Pow2;
      assert Invalid() < Indices();
      if w.index == Invalid() {
        forall i: nat | i < Indices()
          ensures Relink(Pack(w), i) == Pack(Word(w.tag, i))
        {
          RelinkPacked(w.tag, i);
        }
      } else {
        RelinkInvalid(w);
        PackInjective(w, Word(w.tag, Invalid()));
      }
    }

    /** Appending the end mark changes nothing. */
    lemma RelinkInvalid(w: Word)
      requires Fits(w)
      ensures Relink(Pack(w), Invalid()) == Pack(w)
    {
      hide And, Or, Join, Pow2;
      assert Pow2(indexBits) >= 1 && Pow2(tagBits) >= 1;
      JoinZero(indexBits, Invalid());
      OrZero(Tags() - 1);
      OrZero(Invalid());
      OrJoin(indexBits, Tags() - 1, 0, 0, Invalid());
      AndJoin(indexBits, w.tag, w.index, Tags() - 1, Invalid());
      AndOnes(tagBits, w.tag);
      AndOnes(indexBits, w.index);
    }
  }
}
