/** Facts about sequences of any element type, stated once so that the
    proofs about sequences of lines, words and files can use them without
    comparing the elements themselves. */
module Seqs {

  /** Appending is associative. */
  lemma AppendAssoc<T>(x: seq<T>, y: seq<T>, z: seq<T>)
    ensures (x + y) + z == x + (y + z)
  {
  }

  /** A non-empty sequence is its front followed by its last element. */
  lemma FrontLast<T>(s: seq<T>)
    requires s != []
    ensures s == s[..|s| - 1] + [s[|s| - 1]]
  {
  }

  /** The front and last element of a sequence with one element appended. */
  lemma SnocParts<T>(s: seq<T>, x: T)
    ensures (s + [x])[..|s|] == s && (s + [x])[|s|] == x
  {
  }

  /** A non-empty sequence is its first element followed by the rest. */
  lemma HeadRest<T>(s: seq<T>)
    requires s != []
    ensures s == [s[0]] + s[1..]
  {
  }

  /** The first element and the rest of a sequence with one element put in front. */
  lemma ConsParts<T>(x: T, s: seq<T>)
    ensures ([x] + s)[0] == x && ([x] + s)[1..] == s
  {
  }

  /** The front of a concatenation with a non-empty second part. */
  lemma AppendFront<T>(a: seq<T>, b: seq<T>)
    requires b != []
    ensures (a + b)[..|a + b| - 1] == a + b[..|b| - 1] && (a + b)[|a + b| - 1] == b[|b| - 1]
  {
  }

  /** Appending nothing changes nothing. */
  lemma AppendNil<T>(a: seq<T>)
    ensures a + [] == a
  {
  }

  /** The first element and the rest of a concatenation with a non-empty first part. */
  lemma AppendRest<T>(a: seq<T>, b: seq<T>)
    requires a != []
    ensures (a + b)[0] == a[0] && (a + b)[1..] == a[1..] + b
  {
  }

  /** A slice of a prefix is the same slice of the whole sequence. */
  lemma SliceOfPrefix<T>(s: seq<T>, n: int, lo: int, hi: int)
    requires 0 <= lo <= hi <= n <= |s|
    ensures s[..n][lo..hi] == s[lo..hi]
  {
  }

  /** Extending a slice by one element appends that element. */
  lemma SliceSnoc<T>(s: seq<T>, lo: int, hi: int)
    requires 0 <= lo <= hi < |s|
    ensures s[lo..hi + 1] == s[lo..hi] + [s[hi]]
  {
  }

  /** A non-empty slice is its first element followed by the rest. */
  lemma SliceCons<T>(s: seq<T>, lo: int, hi: int)
    requires 0 <= lo < hi <= |s|
    ensures s[lo..hi] == [s[lo]] + s[lo + 1..hi]
  {
  }

  /** Adjacent slices put together form the joint slice. */
  lemma SliceJoin<T>(s: seq<T>, lo: int, mid: int, hi: int)
    requires 0 <= lo <= mid <= hi <= |s|
    ensures s[lo..hi] == s[lo..mid] + s[mid..hi]
  {
  }

  /** The parts of a sequence holding one element twice. */
  lemma Twice<T>(x: T)
    ensures [x] + [x] == [x, x]
    ensures [x, x][0..1] == [x] && [x, x][1..2] == [x]
  {
  }

  /** A prefix is a shorter prefix followed by the slice between them. */
  lemma PrefixJoin<T>(s: seq<T>, x: int, y: int)
    requires 0 <= x <= y <= |s|
    ensures s[..y] == s[..x] + s[x..y]
  {
  }

  /** A slice from the start is a prefix. */
  lemma SliceFromStart<T>(s: seq<T>, y: int)
    requires 0 <= y <= |s|
    ensures s[0..y] == s[..y]
  {
  }

  /** A prefix one longer is the prefix followed by the next element. */
  lemma PrefixSnoc<T>(s: seq<T>, j: int)
    requires 0 <= j < |s|
    ensures s[..j + 1] == s[..j] + [s[j]]
  {
  }

  /** The prefix of full length is the whole sequence. */
  lemma PrefixAll<T>(s: seq<T>)
    ensures s[..|s|] == s
  {
  }

  lemma AppendSlices<T>(a: seq<T>, t: seq<T>, j: int)
    requires 0 <= j <= |a|
    ensures (a + t)[..j] == a[..j] && (a + t)[j..] == a[j..] + t
  {
  }

  lemma NilAppend<T>(b: seq<T>)
    ensures [] + b == b
  {
  }
}
