/** White space, trimming, and cutting text at a separator. */
module Text {

  predicate IsSpace(c: char) {
    var n := c as int;
    9 <= n <= 13 || n == 32 || n == 160 || n == 0x1680 || 0x2000 <= n <= 0x200a || n == 0x2028 || n == 0x2029
    || n == 0x202f || n == 0x205f || n == 0x3000 || n == 0xfeff
  }

  function TrimStart(s: string): string { if s != [] && IsSpace(s[0]) then TrimStart(s[1..]) else s }

  function TrimEnd(s: string): string { if s != [] && IsSpace(s[|s| - 1]) then TrimEnd(s[..|s| - 1]) else s }

  function Trim(s: string): string { TrimEnd(TrimStart(s)) }

  /** Trimming takes the white space off both ends, and no more. */
  lemma TrimIs(s: string) returns (a: nat, b: nat)
    ensures a <= b <= |s| && Trim(s) == s[a..b]
    ensures forall i :: 0 <= i < a || b <= i < |s| ==> IsSpace(s[i])
    ensures a < b ==> !IsSpace(s[a]) && !IsSpace(s[b - 1])
  {
    a := TrimStartIs(s);
    var n := TrimEndIs(s[a..]);
    b := a + n;
    assert s[a..][..b - a] == s[a..b];
    forall i | b <= i < |s| ensures IsSpace(s[i]) {
      assert s[i] == s[a..][i - a];
    }
  }

  lemma {:induction false} TrimStartIs(s: string) returns (a: nat)
    ensures a <= |s| && TrimStart(s) == s[a..] && forall i :: 0 <= i < a ==> IsSpace(s[i])
    ensures a < |s| ==> !IsSpace(s[a])
  {
    if s != [] && IsSpace(s[0]) {
      a := TrimStartIs(s[1..]);
      assert s[1..][a..] == s[a + 1..];
      assert forall i :: 0 < i <= a ==> s[i] == s[1..][i - 1];
      assert a < |s[1..]| ==> s[a + 1] == s[1..][a];
      a := a + 1;
    } else {
      a := 0;
    }
  }

  lemma {:induction false} TrimEndIs(s: string) returns (b: nat)
    ensures b <= |s| && TrimEnd(s) == s[..b] && forall i :: b <= i < |s| ==> IsSpace(s[i])
    ensures b > 0 ==> !IsSpace(s[b - 1])
  {
    b := |s|;
    if s != [] && IsSpace(s[|s| - 1]) {
      b := TrimEndIs(s[..|s| - 1]);
    }
  }

  /** Only the capitals of ASCII change, each to its own small letter. */
  lemma LowerIs(c: char)
    ensures Lower(c) == if 'A' <= c <= 'Z' then "abcdefghijklmnopqrstuvwxyz"[c as int - 65] else c
  {
  }

  function Lower(c: char): char { if 'A' <= c <= 'Z' then c + ' ' else c }

  /** The pieces of a text between separators, always at least one. */
  function Split(text: string, sep: char): (r: seq<string>)
    ensures r != []
  {
    if text == [] then [""]
    else
      var rest := Split(text[1..], sep);
      if text[0] == sep then [""] + rest else [[text[0]] + rest[0]] + rest[1..]
  }

  function Join(pieces: seq<string>, sep: string): string {
    if pieces == [] then "" else if |pieces| == 1 then pieces[0] else pieces[0] + sep + Join(pieces[1..], sep)
  }

  /** Splitting is the inverse of joining pieces that hold no separator. */
  lemma {:induction false} SplitIs(text: string, sep: char)
    ensures Join(Split(text, sep), [sep]) == text
    ensures forall i :: 0 <= i < |Split(text, sep)| ==> sep !in Split(text, sep)[i]
  {
    if text != [] {
      SplitIs(text[1..], sep);
      var rest := Split(text[1..], sep);
      if text[0] != sep {
        var all := [[text[0]] + rest[0]] + rest[1..];
        assert all[1..] == rest[1..];
        assert Join(all, [sep]) == [text[0]] + Join(rest, [sep]);
        assert text == [text[0]] + text[1..];
      } else {
        assert ([""] + rest)[1..] == rest;
        assert text == [sep] + text[1..];
      }
    }
  }

  lemma {:induction false} SplitPiece(piece: string, rest: string, sep: char)
    requires sep !in piece
    ensures Split(piece + [sep] + rest, sep) == [piece] + Split(rest, sep)
    ensures Split(piece, sep) == [piece]
  {
    if piece == [] {
      assert (piece + [sep] + rest)[1..] == rest;
    } else {
      SplitPiece(piece[1..], rest, sep);
      assert (piece + [sep] + rest)[1..] == piece[1..] + [sep] + rest;
      assert piece == [piece[0]] + piece[1..];
      var more := Split(piece[1..] + [sep] + rest, sep);
      assert more[0] == piece[1..] && more[1..] == Split(rest, sep);
      var own := Split(piece[1..], sep);
      assert own[0] == piece[1..] && own[1..] == [];
    }
  }

  lemma {:induction false} SplitJoin(pieces: seq<string>, sep: char)
    requires pieces != [] && forall i :: 0 <= i < |pieces| ==> sep !in pieces[i]
    ensures Split(Join(pieces, [sep]), sep) == pieces
  {
    if |pieces| == 1 {
      SplitPiece(pieces[0], "", sep);
      assert pieces == [pieces[0]];
    } else {
      SplitJoin(pieces[1..], sep);
      SplitPiece(pieces[0], Join(pieces[1..], [sep]), sep);
      assert pieces == [pieces[0]] + pieces[1..];
    }
  }

  lemma TrimNothing(s: string)
    requires s != [] && !IsSpace(s[0]) && !IsSpace(s[|s| - 1])
    ensures Trim(s) == s
  {
  }
}
