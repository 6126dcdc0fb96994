/** The two string primitives the edge agent leans on: `trim()` and `split(sep)`. */
module Text {

  /** ECMAScript white space and line terminators, the characters `trim()` removes. */
  predicate IsSpace(c: char) {
    || '\t' <= c <= '\r'
    || c == ' '
    || c == '\U{00A0}'
    || c == '\U{1680}'
    || '\U{2000}' <= c <= '\U{200A}'
    || c == '\U{2028}'
    || c == '\U{2029}'
    || c == '\U{202F}'
    || c == '\U{205F}'
    || c == '\U{3000}'
    || c == '\U{FEFF}'
  }

  /** The 25 code points of the productions WhiteSpace and LineTerminator (sections 12.2 and 12.3 of ECMA-262). */
  lemma SpacesAre(c: char)
    ensures IsSpace(c) <==> c as int in {
              0x9, 0xA, 0xB, 0xC, 0xD, 0x20, 0xA0, 0x1680,
              0x2000, 0x2001, 0x2002, 0x2003, 0x2004, 0x2005, 0x2006, 0x2007, 0x2008, 0x2009, 0x200A,
              0x2028, 0x2029, 0x202F, 0x205F, 0x3000, 0xFEFF}
  {
  }

  function TrimStart(s: string): string {
    if s != [] && IsSpace(s[0]) then TrimStart(s[1..]) else s
  }

  function TrimEnd(s: string): string {
    if s != [] && IsSpace(s[|s| - 1]) then TrimEnd(s[..|s| - 1]) else s
  }

  function Trim(s: string): string {
    TrimEnd(TrimStart(s))
  }

  /** No space at either end: exactly the strings `trim()` leaves alone. */
  predicate IsTrimmed(s: string) {
    s != [] ==> !IsSpace(s[0]) && !IsSpace(s[|s| - 1])
  }

  lemma TrimKeeps(s: string)
    requires IsTrimmed(s)
    ensures Trim(s) == s
  {
  }

  predicate AllSpace(s: string) {
    forall c | c in s :: IsSpace(c)
  }

  lemma {:induction false} TrimStartCuts(s: string) returns (front: string)
    ensures s == front + TrimStart(s) && AllSpace(front) && (TrimStart(s) != [] ==> !IsSpace(TrimStart(s)[0]))
  {
    front := [];
    if s != [] && IsSpace(s[0]) {
      var rest := TrimStartCuts(s[1..]);
      front := [s[0]] + rest;
      assert s == [s[0]] + s[1..];
    }
  }

  lemma {:induction false} TrimEndCuts(s: string) returns (back: string)
    ensures s == TrimEnd(s) + back && AllSpace(back) && (TrimEnd(s) != [] ==> !IsSpace(TrimEnd(s)[|TrimEnd(s)| - 1]))
  {
    back := [];
    if s != [] && IsSpace(s[|s| - 1]) {
      var rest := TrimEndCuts(s[..|s| - 1]);
      back := rest + [s[|s| - 1]];
      assert s == s[..|s| - 1] + [s[|s| - 1]];
    }
  }

  /** Trimming cuts off spaces only, and all of them at both ends. */
  lemma TrimCutsSpaces(s: string) returns (front: string, back: string)
    ensures s == front + Trim(s) + back && AllSpace(front) && AllSpace(back) && IsTrimmed(Trim(s))
  {
    front := TrimStartCuts(s);
    back := TrimEndCuts(TrimStart(s));
    var middle := Trim(s);
    if middle != [] { assert TrimStart(s)[0] == middle[0]; }
  }

  /** `s.split(sep)`: the pieces between separators, always at least one. */
  function Split<T(==)>(s: seq<T>, sep: T): (r: seq<seq<T>>)
    ensures |r| >= 1
  {
    if s == [] then [[]]
    else if s[0] == sep then [[]] + Split(s[1..], sep)
    else
      var r := Split(s[1..], sep);
      [[s[0]] + r[0]] + r[1..]
  }

  /** `.map(trim).filter(Boolean)`: the trimmed pieces that are not empty. */
  function UsefulLines(lines: seq<string>): seq<string> {
    if lines == [] then []
    else
      var l := Trim(lines[0]);
      (if l != "" then [l] else []) + UsefulLines(lines[1..])
  }

  lemma UsefulCons(line: string, rest: seq<string>)
    ensures UsefulLines([line] + rest) == (if Trim(line) != "" then [Trim(line)] else []) + UsefulLines(rest)
  {
    assert ([line] + rest)[1..] == rest;
  }

  /** A separator-free piece in front of a separator is split off whole. */
  lemma {:induction false} SplitPiece<T>(piece: seq<T>, sep: T, rest: seq<T>)
    requires sep !in piece
    ensures Split(piece + [sep] + rest, sep) == [piece] + Split(rest, sep)
  {
    var s := piece + [sep] + rest;
    if piece == [] {
      assert s == [sep] + rest;
      assert s[1..] == rest;
    } else {
      assert s[1..] == piece[1..] + [sep] + rest;
      SplitPiece(piece[1..], sep, rest);
      assert [s[0]] + piece[1..] == piece;
    }
  }

  /** Pieces hold no separator and only elements of the split sequence. */
  lemma {:induction false} PiecesHoldNoSeparator<T>(s: seq<T>, sep: T)
    ensures forall i | 0 <= i < |Split(s, sep)| :: sep !in Split(s, sep)[i] && forall x | x in Split(s, sep)[i] :: x in s
  {
    if s != [] {
      PiecesHoldNoSeparator(s[1..], sep);
    }
  }
}
