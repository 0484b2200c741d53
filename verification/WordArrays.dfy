/** What the packed words of a slot vector's entries stand for. */
module WordArrays {
  import opened Bits
  import opened PackedIds
  import opened FreeList

  function ConfigOf(l: Layout): Config {
    Config(l.Invalid(), l.Tags())
  }

  function Unpack(l: Layout, x: nat): Word {
    Word(Quo(x, l.Indices()), Rem(x, l.Indices()))
  }

  function Words(l: Layout, ids: seq<nat>): seq<Word> {
    seq(|ids|, (i: nat) requires i < |ids| => Unpack(l, ids[i]))
  }

  /** A word is determined by its two fields. */
  lemma PackUnpack(l: Layout, x: nat)
    ensures l.Pack(Unpack(l, x)) == x
    ensures l.Fits(Unpack(l, x)) <==> x < l.Size()
  {
    var p, q := l.Indices(), Quo(x, l.Indices());
    Split(x, p);
    MultipleGap(l.Tags() - q, p);
    assert (l.Tags() - q) * p == l.Size() - q * p;
  }

  lemma UnpackPack(l: Layout, w: Word)
    requires l.Fits(w)
    ensures Unpack(l, l.Pack(w)) == w
  {
    JoinParts(l.indexBits, w.tag, w.index);
  }

  lemma ValidConfig(l: Layout)
    requires l.Valid()
    ensures ConfigOf(l).Valid()
  {
  }

  // The expressions of the source, field by field.

  lemma ReadIndex(l: Layout, x: nat)
    requires l.Fits(Unpack(l, x))
    ensures l.UnpackIndex(x) == Unpack(l, x).index
  {
    PackUnpack(l, x);
    l.UnpackPacked(Unpack(l, x));
  }

  lemma SameTag(l: Layout, x: nat, y: nat)
    requires l.Fits(Unpack(l, x)) && l.Fits(Unpack(l, y))
    ensures l.TagPart(x) == l.TagPart(y) <==> Unpack(l, x).tag == Unpack(l, y).tag
  {
    PackUnpack(l, x);
    PackUnpack(l, y);
    l.UnpackPacked(Unpack(l, x));
    l.UnpackPacked(Unpack(l, y));
    l.PackInjective(Word(Unpack(l, x).tag, 0), Word(Unpack(l, y).tag, 0));
  }

  lemma WriteIndex(l: Layout, x: nat, index: nat)
    requires l.Fits(Unpack(l, x)) && index < l.Indices()
    ensures Unpack(l, l.ResetIndex(x, index)) == Word(Unpack(l, x).tag, index)
  {
    PackUnpack(l, x);
    l.ResetPacked(Unpack(l, x), index);
    UnpackPack(l, Word(Unpack(l, x).tag, index));
  }

  lemma NextTag(l: Layout, x: nat, index: nat)
    requires l.Fits(Unpack(l, x)) && index < l.Indices()
    ensures Unpack(l, l.IncrementTagAndReset(x, index)) == Word((Unpack(l, x).tag + 1) % l.Tags(), index)
  {
    PackUnpack(l, x);
    hide Unpack, Bits.Pow2, Bits.And, Bits.Or, Bits.Join;
    l.IncrementPacked(Unpack(l, x), index);
    UnpackPack(l, Word(Rem(Unpack(l, x).tag + 1, l.Tags()), index));
  }

  lemma AppendLink(l: Layout, x: nat, index: nat)
    requires l.Fits(Unpack(l, x)) && Unpack(l, x).index == l.Invalid() && index < l.Indices()
    ensures Unpack(l, l.Relink(x, index)) == Word(Unpack(l, x).tag, index)
  {
    PackUnpack(l, x);
    l.RelinkPacked(Unpack(l, x).tag, index);
    UnpackPack(l, Word(Unpack(l, x).tag, index));
  }

  /** A bare index is a word with tag zero. */
  lemma BareIndex(l: Layout, index: nat)
    requires index < l.Indices()
    ensures Unpack(l, index) == Word(0, index)
  {
    UnpackPack(l, Word(0, index));
  }

  /** An index field cannot overflow. */
  lemma TagFits(l: Layout, x: nat)
    requires Unpack(l, x).tag < l.Tags()
    ensures l.Fits(Unpack(l, x))
  {
  }

  lemma WordAt(l: Layout, ids: seq<nat>, i: nat)
    requires i < |ids|
    ensures Words(l, ids)[i] == Unpack(l, ids[i])
  {
  }

  lemma WriteWord(l: Layout, ids: seq<nat>, i: nat, x: nat)
    requires i < |ids|
    ensures Words(l, ids[i := x]) == Words(l, ids)[i := Unpack(l, x)]
  {
  }

  lemma AppendWord(l: Layout, ids: seq<nat>, x: nat)
    ensures Words(l, ids + [x]) == Words(l, ids) + [Unpack(l, x)]
  {
  }

  /** The loop that threads new slots in front of the free list. */
  method Thread(l: Layout, ids: seq<nat>, n: nat, firstFree: nat) returns (grown: seq<nat>)
    requires |ids| < n <= l.Invalid() && firstFree <= l.Invalid()
    ensures |grown| == n && grown[..|ids|] == ids
    ensures forall i :: |ids| <= i < n ==>
              Unpack(l, grown[i]) == Word(0, if i + 1 < n then i + 1 else firstFree)
  {
    grown := ids + seq(n - |ids|, _ => 0);
    var i := |ids|;
    while i < n - 1
      invariant |ids| <= i <= n - 1 && |grown| == n && grown[..|ids|] == ids
      invariant forall k :: |ids| <= k < i ==> Unpack(l, grown[k]) == Word(0, k + 1)
    {
      BareIndex(l, i + 1);
      grown := grown[i := i + 1];
      i := i + 1;
    }
    BareIndex(l, firstFree);
    grown := grown[n - 1 := firstFree];
  }

  /** The threaded slots are the ones the growth of the free list adds. */
  lemma ThreadedWords(l: Layout, links: Links, ids: seq<nat>, grown: seq<nat>, n: nat)
    requires links.words == Words(l, ids) && |ids| < n && |grown| == n && grown[..|ids|] == ids
    requires forall i :: |ids| <= i < n ==>
               Unpack(l, grown[i]) == Word(0, if i + 1 < n then i + 1 else links.first)
    ensures Words(l, grown) == Grow(ConfigOf(l), links, n).words
  {
    var words, words' := Words(l, grown), Grow(ConfigOf(l), links, n).words;
    forall i | 0 <= i < n
      ensures words[i] == words'[i]
    {
      assert i < |ids| ==> grown[i] == ids[i];
    }
  }
}
