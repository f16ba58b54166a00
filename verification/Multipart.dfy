/** The streaming multipart reader (apps/server/src/http/multipart.ts). */
module Multipart {
  import opened Bytes

  const CR: byte := 13
  const LF: byte := 10
  const DASH: byte := 45
  const CRLF: seq<byte> := [CR, LF]
  const CRLF_CRLF: seq<byte> := [CR, LF, CR, LF]
  const DASH_DASH: seq<byte> := [DASH, DASH]

  const MAX_PREAMBLE_BYTES: nat := 8 * 1024
  const MAX_PART_HEADER_BYTES: nat := 16 * 1024
  const MAX_META_BYTES: nat := 1024 * 1024

  datatype Error =
    | NoBoundary | Truncated | Oversized | BadDelimiter | NoName | WrongPart | BadMeta
    | TooLarge | LargerThanDeclared | SmallerThanDeclared
    | AlreadyRead | OutOfOrder | Closed

  datatype Result<+T> = Ok(value: T) | Err(error: Error)

  method IndexOfSub(haystack: seq<byte>, needle: seq<byte>, from: int := 0) returns (at: int)
    ensures at == -1 || at >= 0
    ensures at == -1 ==> forall k :: from <= k ==> !MatchAt(haystack, needle, k)
    ensures at != -1 ==> from <= at && MatchAt(haystack, needle, at)
    ensures at != -1 ==> forall k :: from <= k < at ==> !MatchAt(haystack, needle, k)
  {
    var last := |haystack| - |needle|;
    var i := if from < 0 then 0 else from;
    while i <= last
      invariant 0 <= i && from <= i
      invariant forall k :: from <= k < i ==> !MatchAt(haystack, needle, k)
    {
      var j := 0;
      while j < |needle| && haystack[i + j] == needle[j]
        invariant 0 <= j <= |needle|
        invariant haystack[i..i + j] == needle[..j]
      {
        assert haystack[i..i + j + 1] == haystack[i..i + j] + [haystack[i + j]];
        j := j + 1;
      }
      if j == |needle| {
        assert needle[..j] == needle;
        return i;
      }
      assert haystack[i..i + |needle|][j] != needle[j];
      i := i + 1;
    }
    return -1;
  }

  // ---- The cursor ------------------------------------------------------------------

  /** Where a suspended `chunksUntil` generator resumes. */
  datatype Resume = Top | AfterMatch | AfterHeld

  datatype Step = Yield(chunk: seq<byte>) | Done | Fail

  class ByteCursor {
    var buf: seq<byte>
    var ended: bool
    /** The chunks the stream's reader has still to hand over. */
    var unread: seq<seq<byte>>

    ghost predicate Valid() reads this { ended ==> unread == [] }

    /** Every byte not yet consumed. */
    ghost function Rest(): seq<byte> reads this { buf + Flatten(unread) }

    constructor (stream: seq<seq<byte>>)
      ensures Valid() && buf == [] && unread == stream && Rest() == Flatten(stream)
    {
      buf, ended, unread := [], false, stream;
    }

    method Fill() returns (more: bool)
      requires Valid()
      modifies this
      ensures Valid() && Rest() == old(Rest())
      ensures more ==> old(unread) != [] && unread == old(unread[1..]) && buf == old(buf + unread[0])
      ensures !more ==> old(unread) == [] && unread == [] && buf == old(buf) && Rest() == buf
    {
      if ended {
        return false;
      }
      if unread == [] {
        ended := true;
        return false;
      }
      buf, unread := buf + unread[0], unread[1..];
      return true;
    }

    method Take(n: nat) returns (out: seq<byte>)
      requires Valid() && n <= |buf|
      modifies this
      ensures Valid() && out == old(buf[..n]) && buf == old(buf[n..]) && unread == old(unread)
      ensures old(Rest()) == out + Rest()
    {
      out, buf := buf[..n], buf[n..];
    }

    method ReadExact(n: nat) returns (r: Result<seq<byte>>)
      requires Valid()
      modifies this
      ensures Valid()
      ensures r.Ok? <==> n <= |old(Rest())|
      ensures r.Ok? ==> r.value == old(Rest())[..n] && Rest() == old(Rest())[n..]
      ensures r.Err? ==> r.error == Truncated && Rest() == old(Rest())
    {
      while |buf| < n
        invariant Valid() && Rest() == old(Rest())
        decreases |unread|
      {
        var more := Fill();
        if !more {
          return Err(Truncated);
        }
      }
      var out := Take(n);
      return Ok(out);
    }

    /** Whatever the chunk boundaries, the stream is cut at the first occurrence of the
        needle; "oversized" needs a buffer over the limit with no needle in it. */
    method ReadUntil(needle: seq<byte>, limit: nat) returns (r: Result<seq<byte>>)
      requires Valid()
      modifies this
      ensures Valid()
      ensures r.Ok? ==> FirstAt(old(Rest()), needle, |r.value|) && old(Rest()) == r.value + needle + Rest()
      ensures r.Err? ==> Rest() == old(Rest()) && Absent(buf, needle)
      ensures r.Err? ==> r.error == (if |buf| > limit then Oversized else Truncated)
      ensures r.Err? && r.error == Truncated ==> Rest() == buf
      ensures forall at :: FirstAt(old(Rest()), needle, at) && at + |needle| <= limit + 1 ==> r.Ok?
      ensures |buf| <= old(|buf|) || |buf| <= limit + old(Largest(unread))
    {
      ghost var s := Rest();
      var searched := 0;
      while true
        invariant Valid() && Rest() == s && searched >= 0
        invariant forall k :: 0 <= k < searched ==> !MatchAt(buf, needle, k)
        invariant Largest(unread) <= old(Largest(unread))
        invariant |buf| <= old(|buf|) || |buf| <= limit + old(Largest(unread))
        decreases |unread|
      {
        var at := IndexOfSub(buf, needle, searched);
        if at != -1 {
          FirstInPrefix(buf, Flatten(unread), needle, at);
          var out := Take(at);
          var gone := Take(|needle|);
          return Ok(out);
        }
        assert Absent(buf, needle);
        searched := if |buf| - |needle| + 1 < 0 then 0 else |buf| - |needle| + 1;
        MissSoFar(buf, Flatten(unread), needle);
        if |buf| > limit {
          return Err(Oversized);
        }
        ghost var before := buf;
        var more := Fill();
        if !more {
          assert s == buf;
          return Err(Truncated);
        }
        assert buf == before + buf[|before|..];
        MissSoFar(before, buf[|before|..], needle);
      }
    }

    /** The suspended generator's invariant: `got` has been yielded of the stream that
        read `origin` when it started. */
    ghost predicate Streaming(needle: seq<byte>, at: Resume, got: seq<byte>, origin: seq<byte>)
      reads this
    {
      && Valid()
      && Delivered(origin, got, Rest(), needle)
      && (at.AfterMatch? ==> MatchAt(buf, needle, 0))
      && (at.AfterHeld? ==> |buf| < |needle|)
    }

    /** One `next()` of `chunksUntil`. Between two fills it holds less than one needle. */
    method NextChunk(needle: seq<byte>, at: Resume, ghost got: seq<byte>, ghost origin: seq<byte>)
      returns (step: Step, next: Resume)
      requires Streaming(needle, at, got, origin)
      modifies this
      ensures Valid()
      ensures step.Yield? ==> step.chunk != [] && !next.Top? && Streaming(needle, next, got + step.chunk, origin)
      ensures step.Done? ==> FirstAt(origin, needle, |got|) && origin == got + needle + Rest()
      ensures step.Fail? ==> Absent(origin, needle) && origin == got + Rest()
      ensures Largest(unread) <= old(Largest(unread))
      ensures |buf| <= old(|buf|) || |buf| < |needle| + old(Largest(unread))
    {
      next := Top;
      var held := at.AfterHeld?;
      if at.AfterMatch? {
        FoundHere(origin, got, buf, Flatten(unread), needle);
        var gone := Take(|needle|);
        return Done, Top;
      }
      while true
        invariant Valid() && Delivered(origin, got, Rest(), needle)
        invariant held ==> |buf| < |needle|
        invariant Largest(unread) <= old(Largest(unread))
        invariant |buf| <= old(|buf|) || |buf| < |needle| + old(Largest(unread))
        decreases |unread|
      {
        if !held {
          var i := IndexOfSub(buf, needle);
          if i > 0 {
            DeliverMore(origin, got, buf, Flatten(unread), needle, i);
            var out := Take(i);
            return Yield(out), AfterMatch;
          }
          if i == 0 {
            FoundHere(origin, got, buf, Flatten(unread), needle);
            var gone := Take(|needle|);
            return Done, Top;
          }
          assert !MatchAt(buf, needle, 0);
          var safe := |buf| - (|needle| - 1);
          if safe > 0 {
            DeliverMore(origin, got, buf, Flatten(unread), needle, safe);
            var out := Take(safe);
            return Yield(out), AfterHeld;
          }
        }
        var more := Fill();
        if !more {
          return Fail, Top;
        }
        held := false;
      }
    }
  }

  /** `got` is the start of `origin`, `rest` what follows, and no needle starts in `got`. */
  ghost predicate Delivered(origin: seq<byte>, got: seq<byte>, rest: seq<byte>, needle: seq<byte>) {
    origin == got + rest && forall k :: 0 <= k < |got| ==> !MatchAt(origin, needle, k)
  }

  lemma DeliverMore(origin: seq<byte>, got: seq<byte>, buf: seq<byte>, more: seq<byte>, needle: seq<byte>, i: nat)
    requires Delivered(origin, got, buf + more, needle)
    requires i <= |buf| && i + |needle| <= |buf| + 1
    requires forall k :: 0 <= k < i ==> !MatchAt(buf, needle, k)
    ensures Delivered(origin, got + buf[..i], buf[i..] + more, needle)
    ensures MatchAt(buf, needle, i) ==> MatchAt(buf[i..], needle, 0)
  {
    assert buf + more == buf[..i] + (buf[i..] + more);
    assert got + (buf[..i] + (buf[i..] + more)) == (got + buf[..i]) + (buf[i..] + more);
    forall k | |got| <= k < |got| + i ensures !MatchAt(origin, needle, k) {
      MatchShift(got, buf + more, needle, k - |got|);
      MatchInPrefix(buf, more, needle, k - |got|);
    }
    assert buf == buf[..i] + buf[i..];
    MatchShift(buf[..i], buf[i..], needle, 0);
  }

  lemma FoundHere(origin: seq<byte>, got: seq<byte>, buf: seq<byte>, more: seq<byte>, needle: seq<byte>)
    requires Delivered(origin, got, buf + more, needle)
    requires MatchAt(buf, needle, 0)
    ensures FirstAt(origin, needle, |got|)
    ensures origin == got + needle + (buf[|needle|..] + more)
  {
    MatchInPrefix(buf, more, needle, 0);
    MatchShift(got, buf + more, needle, 0);
  }

  /** A needle not found in the buffer can only start in its last |needle| - 1 bytes. */
  lemma MissSoFar(buf: seq<byte>, more: seq<byte>, needle: seq<byte>)
    requires Absent(buf, needle)
    ensures forall k :: 0 <= k < |buf| - |needle| + 1 ==> !MatchAt(buf + more, needle, k)
  {
    forall k | 0 <= k < |buf| - |needle| + 1 ensures !MatchAt(buf + more, needle, k) {
      MatchInPrefix(buf, more, needle, k);
    }
  }
}
