/** The free list of the sequential slot vectors: threaded first-in first-out through
    the words of the slots that hold no element. */
module FreeList {
  import opened Basics
  import opened PackedIds

  /** `invalid` is the all-ones index that ends the list; tags count modulo `tags`. */
  datatype Config = Config(invalid: nat, tags: nat) {
    ghost predicate Valid() {
      invalid > 0 && tags > 0
    }
  }

  datatype Links = Links(words: seq<Word>, first: nat, last: nat)

  /** The list from `first` to `last` is exactly `free`. */
  ghost predicate Chain(c: Config, l: Links, free: seq<nat>) {
    && |l.words| <= c.invalid
    && l.first == Following(c.invalid, free, 0)
    && l.last == (if free == [] then c.invalid else free[|free| - 1])
    && Distinct(free)
    && forall k :: 0 <= k < |free| ==>
         free[k] < |l.words| && l.words[free[k]].index == Following(c.invalid, free, k + 1)
  }

  lemma DistinctConcat(a: seq<nat>, b: seq<nat>)
    requires Distinct(a) && Distinct(b) && forall i :: i in a ==> i !in b
    ensures Distinct(a + b)
  {
    var q := a + b;
    forall j, k | 0 <= j < k < |q|
      ensures q[j] != q[k]
    {
      assert j < |a| ==> q[j] == a[j] && q[j] in a;
      assert j >= |a| ==> q[j] == b[j - |a|];
      assert k < |a| ==> q[k] == a[k];
      assert k >= |a| ==> q[k] == b[k - |a|] && q[k] in b;
    }
  }

  /** Distinct numbers below n are at most n many. */
  lemma {:induction false} Pigeonhole(q: seq<nat>, n: nat)
    requires Distinct(q) && forall k :: 0 <= k < |q| ==> q[k] < n
    ensures |q| <= n
  {
    assert |q| > 0 ==> q[0] < n;
    if n == 0 {
    } else if n - 1 in q {
      var k :| 0 <= k < |q| && q[k] == n - 1;
      Pigeonhole(q[..k] + q[k + 1..], n - 1);
    } else {
      Pigeonhole(q, n - 1);
    }
  }

  // ---- taking a slot ----

  predicate Empty(c: Config, l: Links) {
    l.last == c.invalid
  }

  /** Unlinks the first free slot; its word is the caller's to change. */
  function Take(c: Config, l: Links): Links
    requires l.first < |l.words|
  {
    var first := l.words[l.first].index;
    Links(l.words, first, if first == c.invalid then c.invalid else l.last)
  }

  lemma TakeChain(c: Config, l: Links, free: seq<nat>)
    requires Chain(c, l, free)
    ensures Empty(c, l) <==> free == []
    ensures free != [] ==> l.first == free[0] < |l.words| && Chain(c, Take(c, l), free[1..])
  {
    if free != [] {
      var l', rest := Take(c, l), free[1..];
      forall k | 0 <= k < |rest|
        ensures rest[k] < |l'.words| && l'.words[rest[k]].index == Following(c.invalid, rest, k + 1)
      {
        assert rest[k] == free[k + 1];
      }
      assert rest != [] ==> rest[|rest| - 1] == free[|free| - 1];
    } else {
      assert l.last == c.invalid;
    }
  }

  /** Words of slots outside the list may change. */
  lemma ChainFrame(c: Config, l: Links, free: seq<nat>, words: seq<Word>)
    requires Chain(c, l, free) && |l.words| <= |words| <= c.invalid
    requires forall i :: 0 <= i < |l.words| && i in free ==> words[i].index == l.words[i].index
    ensures Chain(c, l.(words := words), free)
  {
    forall k | 0 <= k < |free|
      ensures free[k] < |words| && words[free[k]].index == Following(c.invalid, free, k + 1)
    {
      assert free[k] in free;
    }
  }

  // ---- returning a slot ----

  /** Increments the slot's tag, marks it as the end of the list and appends it. */
  function Put(c: Config, l: Links, slot: nat): Links
    requires c.tags > 0 && slot < |l.words| && (Empty(c, l) || l.last < |l.words|)
  {
    var words := l.words[slot := Word((l.words[slot].tag + 1) % c.tags, c.invalid)];
    if Empty(c, l) then Links(words, slot, slot)
    else Links(words[l.last := Word(words[l.last].tag, slot)], l.first, slot)
  }

  lemma PutChain(c: Config, l: Links, free: seq<nat>, slot: nat)
    requires c.Valid() && Chain(c, l, free) && slot < |l.words| && slot !in free
    ensures Empty(c, l) || l.last < |l.words|
    ensures Chain(c, Put(c, l, slot), free + [slot])
  {
    LastOfList(c, l, free);
    DistinctConcat(free, [slot]);
    var l', free' := Put(c, l, slot), free + [slot];
    forall k | 0 <= k < |free'|
      ensures free'[k] < |l'.words| && l'.words[free'[k]].index == Following(c.invalid, free', k + 1)
    {
      if k < |free| {
        assert free'[k] == free[k] && free[k] in free;
        assert k + 1 < |free| ==> free[k] != free[|free| - 1];
      }
    }
  }

  lemma LastOfList(c: Config, l: Links, free: seq<nat>)
    requires Chain(c, l, free)
    ensures Empty(c, l) <==> free == []
    ensures free != [] ==> l.last == free[|free| - 1] && l.last in free && l.last < |l.words|
                           && l.words[l.last].index == c.invalid
  {
  }

  /** Which words an append changes. */
  lemma PutWords(c: Config, l: Links, free: seq<nat>, slot: nat)
    requires c.Valid() && Chain(c, l, free) && slot < |l.words| && slot !in free
    ensures Empty(c, l) || l.last < |l.words|
    ensures |Put(c, l, slot).words| == |l.words|
    ensures Put(c, l, slot).words[slot] == Word((l.words[slot].tag + 1) % c.tags, c.invalid)
    ensures forall i :: 0 <= i < |l.words| && i != slot ==>
              Put(c, l, slot).words[i].tag == l.words[i].tag
              && (i !in free ==> Put(c, l, slot).words[i] == l.words[i])
  {
    LastOfList(c, l, free);
  }

  // ---- growing ----

  /** Appends slots up to size n and links them in front of the list. */
  function Grow(c: Config, l: Links, n: nat): Links
    requires n > |l.words|
  {
    var size := |l.words|;
    var added := seq(n - size, (i: nat) => Word(0, if size + i + 1 < n then size + i + 1 else l.first));
    Links(l.words + added, size, if Empty(c, l) then n - 1 else l.last)
  }

  function Range(from: nat, to: nat): seq<nat>
    requires from <= to
  {
    seq(to - from, (i: nat) => from + i)
  }

  lemma RangeMembers(from: nat, to: nat, i: nat)
    requires from <= to
    ensures i in Range(from, to) <==> from <= i < to
  {
    if from <= i < to {
      assert Range(from, to)[i - from] == i;
    }
  }

  lemma GrowChain(c: Config, l: Links, free: seq<nat>, n: nat)
    requires Chain(c, l, free) && |l.words| < n <= c.invalid
    ensures Chain(c, Grow(c, l, n), Range(|l.words|, n) + free)
  {
    LastOfList(c, l, free);
    GrowDistinct(c, l, free, n);
    var free' := Range(|l.words|, n) + free;
    forall k | 0 <= k < |free'|
      ensures free'[k] < n && Grow(c, l, n).words[free'[k]].index == Following(c.invalid, free', k + 1)
    {
      GrowLink(c, l, free, n, k);
    }
  }

  lemma GrowLink(c: Config, l: Links, free: seq<nat>, n: nat, k: nat)
    requires Chain(c, l, free) && |l.words| < n <= c.invalid && k < n - |l.words| + |free|
    ensures var free' := Range(|l.words|, n) + free;
            free'[k] < n && Grow(c, l, n).words[free'[k]].index == Following(c.invalid, free', k + 1)
  {
    if k < n - |l.words| {
      GrowLinkNew(c, l, free, n, k);
    } else {
      GrowLinkOld(c, l, free, n, k - (n - |l.words|));
    }
  }

  lemma GrowLinkNew(c: Config, l: Links, free: seq<nat>, n: nat, k: nat)
    requires l.first == Following(c.invalid, free, 0) && |l.words| + k < n
    ensures var free' := Range(|l.words|, n) + free;
            free'[k] == |l.words| + k && Grow(c, l, n).words[free'[k]].index == Following(c.invalid, free', k + 1)
  {
    var free' := Range(|l.words|, n) + free;
    assert free'[k] == |l.words| + k;
    if |l.words| + k + 1 < n {
      assert free'[k + 1] == |l.words| + k + 1;
    } else {
      assert Following(c.invalid, free', k + 1) == Following(c.invalid, free, 0);
    }
  }

  lemma GrowLinkOld(c: Config, l: Links, free: seq<nat>, n: nat, i: nat)
    requires i < |free| && free[i] < |l.words| < n
    requires l.words[free[i]].index == Following(c.invalid, free, i + 1)
    ensures var free', k := Range(|l.words|, n) + free, n - |l.words| + i;
            free'[k] == free[i] && Grow(c, l, n).words[free'[k]].index == Following(c.invalid, free', k + 1)
  {
    var free', k := Range(|l.words|, n) + free, n - |l.words| + i;
    assert free'[k] == free[i];
    assert Grow(c, l, n).words[free[i]] == l.words[free[i]];
    assert Following(c.invalid, free', k + 1) == Following(c.invalid, free, i + 1);
  }

  lemma GrowDistinct(c: Config, l: Links, free: seq<nat>, n: nat)
    requires Chain(c, l, free) && |l.words| < n
    ensures Distinct(Range(|l.words|, n) + free)
  {
    var added := Range(|l.words|, n);
    forall i | i in added
      ensures i !in free
    {
      var k :| 0 <= k < |added| && added[k] == i;
      assert i >= |l.words|;
    }
    DistinctConcat(added, free);
  }
}
