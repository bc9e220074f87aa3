/** Shared vocabulary: optional values and the text trimming Rust's `str` offers. */
module Basics {

  datatype Option<+T> = None | Some(value: T)

  function Min(a: int, b: int): int {
    if a <= b then a else b
  }

  function Max(a: int, b: int): int {
    if a >= b then a else b
  }

  lemma MulMono(k: nat, a: int, b: int)
    requires a <= b
    ensures k * a <= k * b
  {
  }

  /** The characters Rust's `char::is_whitespace` accepts (Unicode White_Space). */
  predicate IsWhitespace(c: char) {
    || '\t' <= c <= '\r'
    || c == ' '
    || c as int == 0x85
    || c as int == 0xA0
    || c as int == 0x1680
    || 0x2000 <= c as int <= 0x200A
    || c as int == 0x2028
    || c as int == 0x2029
    || c as int == 0x202F
    || c as int == 0x205F
    || c as int == 0x3000
  }

  /** What a trim drops: blanks, and NUL characters too when `nul` is set. */
  predicate Drops(c: char, nul: bool) {
    IsWhitespace(c) || (nul && c == '\0')
  }

  function TrimStart(s: string, nul: bool): (r: string)
    ensures r != [] ==> !Drops(r[0], nul)
    ensures |r| <= |s| && r == s[|s| - |r|..]
  {
    if s != [] && Drops(s[0], nul) then TrimStart(s[1..], nul) else s
  }

  function TrimEnd(s: string, nul: bool): (r: string)
    ensures r != [] ==> !Drops(r[|r| - 1], nul)
    ensures |r| <= |s| && r == s[..|r|]
  {
    if s != [] && Drops(s[|s| - 1], nul) then TrimEnd(s[..|s| - 1], nul) else s
  }

  /** `trim`, or `trim_matches` with NUL as well: drops a run at both ends. */
  function Trim(s: string, nul: bool): string {
    TrimEnd(TrimStart(s, nul), nul)
  }

  predicate AllDropped(s: string, nul: bool) {
    forall i :: 0 <= i < |s| ==> Drops(s[i], nul)
  }

  /** Neither end is one a trim would drop. */
  predicate Trimmed(s: string, nul: bool) {
    s != [] ==> !Drops(s[0], nul) && !Drops(s[|s| - 1], nul)
  }

  lemma TrimStartOne(c: char, s: string, all: string, nul: bool)
    requires Drops(c, nul) && all == [c] + s
    ensures TrimStart(all, nul) == TrimStart(s, nul)
  {
    assert all[1..] == s;
  }

  lemma TrimEndOne(s: string, c: char, all: string, nul: bool)
    requires Drops(c, nul) && all == s + [c]
    ensures TrimEnd(all, nul) == TrimEnd(s, nul)
  {
    assert all[..|all| - 1] == s;
  }

  lemma NothingTrimmedOff(s: string, nul: bool)
    ensures (s != [] ==> !Drops(s[0], nul)) ==> TrimStart(s, nul) == s
    ensures (s != [] ==> !Drops(s[|s| - 1], nul)) ==> TrimEnd(s, nul) == s
  {
    hide Drops;
  }

  lemma {:induction false} TrimStartDrops(before: string, s: string, all: string, nul: bool)
    requires AllDropped(before, nul) && (s != [] ==> !Drops(s[0], nul)) && all == before + s
    ensures TrimStart(all, nul) == s
    decreases |before|
  {
    hide Drops, TrimStart;
    if before == [] {
      NothingTrimmedOff(s, nul);
      assert all == s;
    } else {
      var rest := before[1..] + s;
      TrimStartDrops(before[1..], s, rest, nul);
      assert all == [before[0]] + rest;
      TrimStartOne(before[0], rest, all, nul);
    }
  }

  lemma {:induction false} TrimEndDrops(s: string, after: string, all: string, nul: bool)
    requires AllDropped(after, nul) && (s != [] ==> !Drops(s[|s| - 1], nul)) && all == s + after
    ensures TrimEnd(all, nul) == s
    decreases |after|
  {
    hide Drops, TrimEnd;
    if after == [] {
      NothingTrimmedOff(s, nul);
      assert all == s;
    } else {
      var n := |after| - 1;
      var rest := s + after[..n];
      TrimEndDrops(s, after[..n], rest, nul);
      assert all == rest + [after[n]];
      TrimEndOne(rest, after[n], all, nul);
    }
  }

  /** Trimming takes off all there is to drop at both ends, and nothing else. */
  lemma TrimIs(before: string, s: string, after: string, nul: bool)
    requires AllDropped(before, nul) && AllDropped(after, nul) && Trimmed(s, nul)
    ensures Trim(before + s + after, nul) == s
  {
    hide Drops, TrimStart, TrimEnd;
    assert before + s + after == before + (s + after);
    if s == [] {
      assert before + (s + after) == (before + after) + [];
      TrimStartDrops(before + after, [], before + (s + after), nul);
      NothingTrimmedOff([], nul);
    } else {
      assert (s + after)[0] == s[0];
      TrimStartDrops(before, s + after, before + (s + after), nul);
      TrimEndDrops(s, after, s + after, nul);
    }
  }

  /** Tab to carriage return, the blank, and Unicode's other spaces and separators. */
  lemma WhitespaceIs(c: char)
    ensures IsWhitespace(c) <==> c as int in {9, 10, 11, 12, 13, 32, 0x85, 0xA0, 0x1680, 0x2028, 0x2029, 0x202F, 0x205F, 0x3000} || c as int - 0x2000 in {0, 1, 2, 3, 4, 5, 6, 7, 8, 9, 10}
  {
  }
}
