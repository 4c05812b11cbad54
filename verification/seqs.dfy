/** Element-wise mapping of sequences, and how it treats multisets. */
module Seqs {

  /** `s.map(f)`. */
  function Map<A, B>(f: A -> B, s: seq<A>): (r: seq<B>)
    ensures |r| == |s|
    ensures forall i :: 0 <= i < |s| ==> r[i] == f(s[i])
  {
    seq(|s|, i requires 0 <= i < |s| => f(s[i]))
  }

  /** Mapping commutes with taking a prefix. */
  lemma MapPrefix<A, B>(f: A -> B, s: seq<A>, k: nat)
    requires k <= |s|
    ensures Map(f, s[..k]) == Map(f, s)[..k]
  {
  }

  /** Mapping commutes with concatenation. */
  lemma MapAppend<A, B>(f: A -> B, a: seq<A>, b: seq<A>)
    ensures Map(f, a + b) == Map(f, a) + Map(f, b)
  {
  }

  /** Reordering a sequence only reorders its image. */
  lemma {:induction false} MapPermutation<A, B>(f: A -> B, a: seq<A>, b: seq<A>)
    requires multiset(a) == multiset(b)
    ensures multiset(Map(f, a)) == multiset(Map(f, b))
    decreases |a|
  {
    if |a| == 0 {
      assert |multiset(b)| == 0;
    } else {
      var x := a[0];
      assert x in multiset(b);
      var j :| 0 <= j < |b| && b[j] == x;
      var rest := b[..j] + b[j + 1..];
      assert b == b[..j] + [x] + b[j + 1..];
      assert multiset(b) == multiset(b[..j]) + multiset{x} + multiset(b[j + 1..]);
      assert multiset(rest) == multiset(b[..j]) + multiset(b[j + 1..]);
      assert a == [x] + a[1..];
      assert multiset(a) == multiset{x} + multiset(a[1..]);
      assert multiset(a[1..]) == multiset(rest) by {
        assert multiset{x} + multiset(a[1..]) == multiset{x} + multiset(rest);
        forall z ensures multiset(a[1..])[z] == multiset(rest)[z] {
          assert (multiset{x} + multiset(a[1..]))[z] == (multiset{x} + multiset(rest))[z];
        }
      }
      MapPermutation(f, a[1..], rest);
      MapAppend(f, [x], a[1..]);
      MapAppend(f, b[..j] + [x], b[j + 1..]);
      MapAppend(f, b[..j], [x]);
      MapAppend(f, b[..j], b[j + 1..]);
    }
  }

  /** The image of a prefix of a reordering is part of the image of the original. */
  lemma MapPrefixOfPermutation<A, B>(f: A -> B, a: seq<A>, b: seq<A>, k: nat)
    requires multiset(a) == multiset(b)
    requires k <= |a|
    ensures multiset(Map(f, a[..k])) <= multiset(Map(f, b))
  {
    MapPermutation(f, a, b);
    MapPrefix(f, a, k);
    var all := Map(f, a);
    assert all == all[..k] + all[k..];
    assert multiset(all) == multiset(all[..k]) + multiset(all[k..]);
  }

  /**
    What the image of a reordering holds beyond the image of the reordering's
    prefix is exactly the image of its suffix.
  */
  lemma MapSuffixOfPermutation<A, B>(f: A -> B, a: seq<A>, b: seq<A>, k: nat)
    requires multiset(a) == multiset(b)
    requires k <= |a|
    ensures multiset(Map(f, b)) - multiset(Map(f, a[..k])) == multiset(Map(f, a[k..]))
  {
    MapPermutation(f, a, b);
    assert a == a[..k] + a[k..];
    MapAppend(f, a[..k], a[k..]);
    var front := multiset(Map(f, a[..k]));
    var back := multiset(Map(f, a[k..]));
    assert multiset(Map(f, b)) == front + back;
    forall y ensures (front + back - front)[y] == back[y] {
    }
  }
}
