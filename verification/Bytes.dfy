/** Byte strings, streams of chunks, and the first occurrence of one byte string in another. */
module Bytes {

  type byte = b: int | 0 <= b < 0x100

  datatype Option<+T> = None | Some(value: T)

  /** The text of a stream, whatever the chunks it comes in. */
  function Flatten<T>(chunks: seq<seq<T>>): seq<T> {
    if chunks == [] then [] else chunks[0] + Flatten(chunks[1..])
  }

  /** The length of the longest chunk. */
  function Largest<T>(chunks: seq<seq<T>>): nat {
    if chunks == [] then 0
    else if |chunks[0]| > Largest(chunks[1..]) then |chunks[0]| else Largest(chunks[1..])
  }

  lemma {:induction false} FlattenAppend<T>(a: seq<seq<T>>, b: seq<seq<T>>)
    ensures Flatten(a + b) == Flatten(a) + Flatten(b)
  {
    if a == [] {
      assert a + b == b;
    } else {
      assert (a + b)[1..] == a[1..] + b;
      FlattenAppend(a[1..], b);
    }
  }

  lemma FlattenSnoc<T>(a: seq<seq<T>>, c: seq<T>)
    ensures Flatten(a + [c]) == Flatten(a) + c
  {
    FlattenAppend(a, [c]);
    assert [c][1..] == [];
    assert Flatten([c]) == c + Flatten([c][1..]) == c;
  }

  predicate MatchAt(h: seq<byte>, n: seq<byte>, i: int) {
    0 <= i && i + |n| <= |h| && h[i..i + |n|] == n
  }

  /** `i` is where `n` first occurs in `h`. */
  ghost predicate FirstAt(h: seq<byte>, n: seq<byte>, i: int) {
    MatchAt(h, n, i) && forall k :: 0 <= k < i ==> !MatchAt(h, n, k)
  }

  ghost predicate Absent(h: seq<byte>, n: seq<byte>) {
    forall k :: !MatchAt(h, n, k)
  }

  lemma NoMatchAt(h: seq<byte>, n: seq<byte>, i: nat, j: nat)
    requires j < |n| && i + j < |h| && h[i + j] != n[j]
    ensures !MatchAt(h, n, i)
  {
    if i + |n| <= |h| {
      assert h[i..i + |n|][j] == h[i + j];
    }
  }

  /** Looking at a prefix decides every match that ends inside it. */
  lemma MatchInPrefix(h: seq<byte>, more: seq<byte>, n: seq<byte>, i: int)
    requires i + |n| <= |h|
    ensures MatchAt(h + more, n, i) <==> MatchAt(h, n, i)
  {
    if 0 <= i {
      assert (h + more)[i..i + |n|] == h[i..i + |n|];
    }
  }

  lemma MatchShift(p: seq<byte>, h: seq<byte>, n: seq<byte>, i: int)
    requires 0 <= i
    ensures MatchAt(p + h, n, |p| + i) <==> MatchAt(h, n, i)
  {
    if i + |n| <= |h| {
      assert (p + h)[|p| + i..|p| + i + |n|] == h[i..i + |n|];
    }
  }

  lemma FirstAtUnique(h: seq<byte>, n: seq<byte>, i: int, j: int)
    requires FirstAt(h, n, i) && FirstAt(h, n, j)
    ensures i == j
  {
  }

  /** What follows a first match does not move it. */
  lemma FirstInPrefix(h: seq<byte>, more: seq<byte>, n: seq<byte>, i: int)
    requires FirstAt(h, n, i)
    ensures FirstAt(h + more, n, i)
  {
    MatchInPrefix(h, more, n, i);
    forall k | 0 <= k < i ensures !MatchAt(h + more, n, k) {
      MatchInPrefix(h, more, n, k);
    }
  }
}
