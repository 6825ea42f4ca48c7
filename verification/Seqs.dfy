/** Laws of sequences that the codecs and the logs share. */
module Seqs {
  /** Concatenation is associative. */
  lemma Regroup<T>(a: seq<T>, b: seq<T>, c: seq<T>)
    ensures (a + b) + c == a + (b + c)
  {
  }

  /** A slice of a slice is a slice. */
  lemma SubSlice<T>(s: seq<T>, lo: nat, hi: nat, x: nat, y: nat)
    requires lo <= hi <= |s| && x <= y <= hi - lo
    ensures s[lo..hi][x..y] == s[lo + x..lo + y]
  {
    var a, b := s[lo..hi][x..y], s[lo + x..lo + y];
    assert |a| == |b| && forall i :: 0 <= i < |a| ==> a[i] == s[lo..hi][x + i] == s[lo + x + i] == b[i];
  }

  /** Cutting the element at k + 1 keeps the first one in front. */
  lemma CutLater<T>(s: seq<T>, k: nat)
    requires k + 1 < |s|
    ensures [s[0]] + (s[1..][..k] + s[1..][k + 1..]) == s[..k + 1] + s[k + 2..]
  {
  }
}
