/** Greedy word wrap, as the check tool prints its remedies. Widths are counted
    in UTF-8 bytes, which is what Rust's `len` gives. */
module Wrap {
  import opened Basics

  // ---- Words ----

  /** The length of the run of non-blank characters at the front. */
  function WordEnd(s: string): (n: nat)
    ensures n <= |s|
    ensures s != [] && !IsWhitespace(s[0]) ==> n > 0
  {
    if s == [] || IsWhitespace(s[0]) then 0 else 1 + WordEnd(s[1..])
  }

  /** `split_whitespace`: the maximal runs of non-blank characters. */
  function Words(s: string): seq<string>
    decreases |s|
  {
    if s == [] then []
    else if IsWhitespace(s[0]) then Words(s[1..])
    else [s[..WordEnd(s)]] + Words(s[WordEnd(s)..])
  }

  predicate IsWord(w: string) {
    w != [] && forall i :: 0 <= i < |w| ==> !IsWhitespace(w[i])
  }

  predicate AreWords(ws: seq<string>) {
    forall i :: 0 <= i < |ws| ==> IsWord(ws[i])
  }

  function Join(ws: seq<string>): string {
    if ws == [] then ""
    else if |ws| == 1 then ws[0]
    else Join(ws[..|ws| - 1]) + " " + ws[|ws| - 1]
  }

  lemma {:induction false} WordEndBounds(s: string)
    ensures forall i :: 0 <= i < WordEnd(s) ==> !IsWhitespace(s[i])
  {
    if s != [] && !IsWhitespace(s[0]) { WordEndBounds(s[1..]); }
  }

  lemma {:induction false} WordsAreWords(s: string)
    ensures AreWords(Words(s))
    decreases |s|
  {
    if s != [] {
      if IsWhitespace(s[0]) {
        WordsAreWords(s[1..]);
      } else {
        WordEndBounds(s);
        WordsAreWords(s[WordEnd(s)..]);
      }
    }
  }

  lemma {:induction false} WordEndOf(a: string, tail: string)
    requires forall i :: 0 <= i < |a| ==> !IsWhitespace(a[i])
    requires tail != [] ==> IsWhitespace(tail[0])
    ensures WordEnd(a + tail) == |a|
    decreases |a|
  {
    if a == [] {
      assert a + tail == tail;
    } else {
      WordEndOf(a[1..], tail);
      assert (a + tail)[1..] == a[1..] + tail;
    }
  }

  /** A blank-led or empty tail is split by itself. */
  lemma {:induction false} WordsAppend(s: string, tail: string)
    requires tail != [] ==> IsWhitespace(tail[0])
    ensures Words(s + tail) == Words(s) + Words(tail)
    decreases |s|
  {
    var t := s + tail;
    if s == [] {
      assert t == tail;
    } else if IsWhitespace(s[0]) {
      assert t[1..] == s[1..] + tail;
      WordsAppend(s[1..], tail);
    } else {
      var n := WordEnd(s);
      WordEndAppend(s, tail);
      assert t[..n] == s[..n] && t[n..] == s[n..] + tail;
      WordsAppend(s[n..], tail);
      assert Words(t) == [s[..n]] + (Words(s[n..]) + Words(tail));
    }
  }

  lemma {:induction false} WordEndAppend(s: string, tail: string)
    requires tail != [] ==> IsWhitespace(tail[0])
    ensures WordEnd(s + tail) == WordEnd(s)
    decreases |s|
  {
    if s == [] {
      assert s + tail == tail;
    } else {
      assert (s + tail)[1..] == s[1..] + tail;
      WordEndAppend(s[1..], tail);
    }
  }

  lemma OneWord(w: string)
    requires IsWord(w)
    ensures Words(w) == [w]
  {
    WordEndOf(w, "");
    assert w + "" == w && w[..|w|] == w && w[|w|..] == "";
  }

  /** A line is its words with one blank between each two. */
  lemma JoinIs(ws: seq<string>, w: string)
    ensures Join([]) == "" && Join([w]) == w
    ensures ws != [] ==> Join(ws + [w]) == Join(ws) + [' '] + w
  {
    assert (ws + [w])[..|ws|] == ws;
  }

  /** Splitting a line gives back the words it was joined from. */
  lemma {:induction false} WordsOfJoin(ws: seq<string>)
    requires AreWords(ws)
    ensures Words(Join(ws)) == ws
    decreases |ws|
  {
    if |ws| == 1 {
      OneWord(ws[0]);
    } else if |ws| > 1 {
      var front := ws[..|ws| - 1];
      var last := ws[|ws| - 1];
      WordsOfJoin(front);
      OneWord(last);
      assert (" " + last)[1..] == last;
      assert Words(" " + last) == [last];
      WordsAppend(Join(front), " " + last);
      assert Join(ws) == Join(front) + (" " + last);
    }
  }

  predicate AllBlank(s: string) {
    forall i :: 0 <= i < |s| ==> IsWhitespace(s[i])
  }

  /** The words with these gaps, each in front of its word. */
  function Woven(gaps: seq<string>, ws: seq<string>): string
    requires |gaps| == |ws|
  {
    if ws == [] then ""
    else
      var n := |ws| - 1;
      Woven(gaps[..n], ws[..n]) + (gaps[n] + ws[n])
  }

  lemma {:induction false} BlanksLead(gap: string, s: string)
    requires AllBlank(gap)
    ensures Words(gap + s) == Words(s)
    decreases |gap|
  {
    if gap == [] {
      assert gap + s == s;
    } else {
      assert (gap + s)[1..] == gap[1..] + s;
      BlanksLead(gap[1..], s);
    }
  }

  lemma NoBlanksAlone(tail: string)
    requires AllBlank(tail)
    ensures Words(tail) == []
  {
    BlanksLead(tail, "");
    assert tail + "" == tail;
  }

  lemma OneMoreWord(text: string, gap: string, w: string)
    requires AllBlank(gap) && IsWord(w) && (gap != "" || text == "")
    ensures Words(text + (gap + w)) == Words(text) + [w]
  {
    hide Words, IsWhitespace;
    BlanksLead(gap, w);
    OneWord(w);
    if gap == "" {
      assert text + (gap + w) == w;
      NoBlanksAlone("");
    } else {
      assert (gap + w)[0] == gap[0];
      WordsAppend(text, gap + w);
    }
  }

  /** Whatever blanks stand between words, and around them, the text is split into
      those words. */
  lemma WordsOfWoven(gaps: seq<string>, ws: seq<string>, tail: string)
    requires |gaps| == |ws| && AreWords(ws) && AllBlank(tail)
    requires forall i :: 0 <= i < |gaps| ==> AllBlank(gaps[i]) && (i > 0 ==> gaps[i] != "")
    ensures Words(Woven(gaps, ws) + tail) == ws
  {
    hide Words, IsWhitespace, Woven;
    WordsBeforeTail(gaps, ws);
    NoBlanksAlone(tail);
    WordsAppend(Woven(gaps, ws), tail);
  }

  lemma {:induction false} WordsBeforeTail(gaps: seq<string>, ws: seq<string>)
    requires |gaps| == |ws| && AreWords(ws)
    requires forall i :: 0 <= i < |gaps| ==> AllBlank(gaps[i]) && (i > 0 ==> gaps[i] != "")
    ensures Words(Woven(gaps, ws)) == ws
    decreases |ws|
  {
    hide Words, IsWord, AllBlank;
    if ws == [] {
      NothingIsBlank();
      NoBlanksAlone("");
    } else {
      var n := |ws| - 1;
      WordsBeforeTail(gaps[..n], ws[..n]);
      OneMoreWord(Woven(gaps[..n], ws[..n]), gaps[n], ws[n]);
      assert ws[..n] + [ws[n]] == ws;
    }
  }

  lemma NothingIsBlank()
    ensures AllBlank("")
  {
  }

  // ---- Lengths ----

  function Utf8Length(c: char): nat {
    if c as int < 0x80 then 1 else if c as int < 0x800 then 2 else if c as int < 0x1_0000 then 3 else 4
  }

  /** Rust's `len` of a string. */
  function Len(s: string): (n: nat)
    ensures s != [] ==> n > 0
  {
    if s == [] then 0 else Len(s[..|s| - 1]) + Utf8Length(s[|s| - 1])
  }

  /** The bytes of a character in UTF-8 (section 3 of RFC 3629). */
  function Utf8(c: char): (bytes: seq<nat>)
    ensures forall i :: 0 <= i < |bytes| ==> bytes[i] < 256
  {
    var n := c as int;
    if n < 0x80 then [n]
    else if n < 0x800 then [0xC0 + n / 64, 0x80 + n % 64]
    else if n < 0x1_0000 then [0xE0 + n / 4096, 0x80 + n / 64 % 64, 0x80 + n % 64]
    else [0xF0 + n / 262144, 0x80 + n / 4096 % 64, 0x80 + n / 64 % 64, 0x80 + n % 64]
  }

  function Encoded(s: string): seq<nat> {
    if s == [] then [] else Encoded(s[..|s| - 1]) + Utf8(s[|s| - 1])
  }

  /** A length is the number of bytes the text is encoded in. */
  lemma {:induction false} LenIsBytes(s: string)
    ensures Len(s) == |Encoded(s)|
  {
    hide Utf8;
    if s != [] {
      LenIsBytes(s[..|s| - 1]);
      Utf8Counts(s[|s| - 1]);
    }
  }

  lemma Utf8Counts(c: char)
    ensures |Utf8(c)| == Utf8Length(c)
  {
  }

  lemma {:induction false} LenOfSum(a: string, b: string)
    ensures Len(a + b) == Len(a) + Len(b)
    decreases |b|
  {
    if b == [] {
      assert a + b == a;
    } else {
      LenOfSum(a, b[..|b| - 1]);
      assert (a + b)[..|a + b| - 1] == a + b[..|b| - 1];
    }
  }

  /** The width of a line. */
  function Width(ws: seq<string>): nat {
    Len(Join(ws))
  }

  lemma WidthGrows(ws: seq<string>, w: string)
    ensures Width(ws + [w]) == if ws == [] then Len(w) else Width(ws) + 1 + Len(w)
  {
    var all := ws + [w];
    if ws != [] {
      assert all[..|all| - 1] == ws;
      LenOfSum(Join(ws), " ");
      LenOfSum(Join(ws) + " ", w);
      assert Len(" ") == 1 by { assert " "[..0] == ""; }
    }
  }

  /** Leaving words off the front makes no line wider. */
  lemma {:induction false} WidthOfTail(ws: seq<string>, k: nat)
    requires k < |ws|
    ensures Width(ws[k..]) <= Width(ws)
    decreases |ws|
  {
    var n := |ws| - 1;
    var front := ws[..n];
    assert ws == front + [ws[n]];
    WidthGrows(front, ws[n]);
    if k < n {
      WidthOfTail(front, k);
      WidthGrows(front[k..], ws[n]);
      assert ws[k..] == front[k..] + [ws[n]];
    } else {
      assert ws[k..] == [ws[n]];
    }
  }

  // ---- Ways to break a text into lines ----

  function Flatten(lines: seq<seq<string>>): seq<string> {
    if lines == [] then [] else Flatten(lines[..|lines| - 1]) + lines[|lines| - 1]
  }

  predicate Fits(line: seq<string>, width: nat) {
    |line| == 1 || (|line| > 1 && Width(line) <= width)
  }

  /** An in-order split of the words into lines that fit or hold a single word. */
  predicate Splits(lines: seq<seq<string>>, words: seq<string>, width: nat) {
    Flatten(lines) == words && forall i :: 0 <= i < |lines| ==> Fits(lines[i], width)
  }

  function Greedy(words: seq<string>, width: nat): seq<seq<string>> {
    if words == [] then [] else Placed(Greedy(words[..|words| - 1], width), words[|words| - 1], width)
  }

  predicate HasRoom(g: seq<seq<string>>, word: string, width: nat) {
    g != [] && Width(g[|g| - 1]) + 1 + Len(word) <= width
  }

  function Placed(g: seq<seq<string>>, word: string, width: nat): seq<seq<string>> {
    if HasRoom(g, word, width) then g[..|g| - 1] + [g[|g| - 1] + [word]] else g + [[word]]
  }

  lemma FlattenPush(lines: seq<seq<string>>, line: seq<string>)
    ensures Flatten(lines + [line]) == Flatten(lines) + line
  {
    assert (lines + [line])[..|lines|] == lines;
  }

  lemma SplitsPush(front: seq<seq<string>>, before: seq<string>, line: seq<string>, width: nat)
    requires Splits(front, before, width) && Fits(line, width)
    ensures Splits(front + [line], before + line, width)
  {
    FlattenPush(front, line);
    hide Fits, Flatten;
  }

  lemma SplitsPop(front: seq<seq<string>>, last: seq<string>, words: seq<string>, width: nat)
    requires Splits(front + [last], words, width)
    ensures Splits(front, Flatten(front), width) && Fits(last, width) && words == Flatten(front) + last
  {
    var g := front + [last];
    FlattenPush(front, last);
    hide Fits, Flatten;
    assert g[|front|] == last;
    forall i | 0 <= i < |front| ensures Fits(front[i], width) { assert g[i] == front[i]; }
  }

  lemma PlacedSplits(g: seq<seq<string>>, words: seq<string>, word: string, width: nat)
    requires Splits(g, words, width)
    ensures Splits(Placed(g, word, width), words + [word], width)
  {
    hide Splits;
    if HasRoom(g, word, width) {
      var front := g[..|g| - 1];
      var last := g[|g| - 1];
      assert g == front + [last];
      SplitsPop(front, last, words, width);
      WidthGrows(last, word);
      SplitsPush(front, Flatten(front), last + [word], width);
      assert Flatten(front) + (last + [word]) == words + [word];
    } else {
      SplitsPush(g, words, [word], width);
    }
  }

  /** Every line the greedy way makes fits, and no word is lost, added or moved. */
  lemma {:induction false} GreedySplits(words: seq<string>, width: nat)
    ensures Splits(Greedy(words, width), words, width)
    ensures Greedy(words, width) == [] <==> words == []
  {
    if words != [] {
      var n := |words| - 1;
      GreedySplits(words[..n], width);
      assert words == words[..n] + [words[n]];
      hide Splits;
      PlacedSplits(Greedy(words[..n], width), words[..n], words[n], width);
    }
  }

  /** What is left of a split when its last word is taken away. */
  function Shortened(lines: seq<seq<string>>): (r: seq<seq<string>>)
    requires lines != [] && lines[|lines| - 1] != []
  {
    var last := lines[|lines| - 1];
    if |last| == 1 then lines[..|lines| - 1] else lines[..|lines| - 1] + [last[..|last| - 1]]
  }

  lemma ShortenedSplits(lines: seq<seq<string>>, words: seq<string>, width: nat)
    requires Splits(lines, words, width) && words != []
    ensures lines != [] && lines[|lines| - 1] != []
    ensures Splits(Shortened(lines), words[..|words| - 1], width)
    ensures lines[|lines| - 1][|lines[|lines| - 1]| - 1] == words[|words| - 1]
  {
    var front := lines[..|lines| - 1];
    var last := lines[|lines| - 1];
    assert Fits(last, width);
    assert lines == front + [last];
    FlattenPush(front, last);
    assert words[|words| - 1] == last[|last| - 1];
    if |last| == 1 {
      assert words[..|words| - 1] == Flatten(front);
    } else {
      var less := last[..|last| - 1];
      assert last == less + [last[|last| - 1]];
      WidthGrows(less, last[|last| - 1]);
      FlattenPush(front, less);
      assert words[..|words| - 1] == Flatten(front) + less;
    }
  }

  /** The last line is the end of the text. */
  lemma LastLine(lines: seq<seq<string>>, words: seq<string>)
    requires Flatten(lines) == words && lines != []
    ensures var last := lines[|lines| - 1]; |last| <= |words| && last == words[|words| - |last|..]
  {
  }

  /** Greedy stays ahead: no other split of the text uses fewer lines, nor as few
      with a shorter last one. */
  lemma {:induction false} StaysAhead(words: seq<string>, width: nat, lines: seq<seq<string>>)
    requires Splits(lines, words, width)
    ensures var g := Greedy(words, width);
      && |g| <= |lines|
      && (|g| == |lines| && g != [] ==> |g[|g| - 1]| <= |lines[|lines| - 1]|)
    decreases |words|
  {
    if words != [] {
      var before := words[..|words| - 1];
      ShortenedSplits(lines, words, width);
      StaysAhead(before, width, Shortened(lines));
      GreedySplits(before, width);
      GreedySplits(words, width);
      var g := Greedy(before, width);
      var last := lines[|lines| - 1];
      if |last| > 1 && |g| == |lines| {
        AppendsToo(words, width, lines);
      }
    }
  }

  /** Where the other split still has room for the word on its last line, so has
      the greedy one, whose last line is no longer. */
  lemma AppendsToo(words: seq<string>, width: nat, lines: seq<seq<string>>)
    requires words != [] && Splits(lines, words, width) && lines != [] && |lines[|lines| - 1]| > 1
    requires var g := Greedy(words[..|words| - 1], width);
      |g| == |lines| && |g[|g| - 1]| <= |lines[|lines| - 1]| - 1
    ensures var g := Greedy(words[..|words| - 1], width);
      Width(g[|g| - 1]) + 1 + Len(words[|words| - 1]) <= width
  {
    hide Width, Len, Greedy, Flatten;
    var before := words[..|words| - 1];
    var word := words[|words| - 1];
    var g := Greedy(before, width);
    var mine := g[|g| - 1];
    var theirs := lines[|lines| - 1];
    GreedySplits(before, width);
    assert Fits(mine, width) && Fits(theirs, width);
    LastLine(g, before);
    LastLine(lines, words);
    var k := |theirs| - 1 - |mine|;
    assert theirs[k..] == mine + [word];
    WidthOfTail(theirs, k);
    WidthGrows(mine, word);
  }

  // ---- The program ----

  function Joined(lines: seq<seq<string>>): (r: seq<string>)
    ensures |r| == |lines| && forall i :: 0 <= i < |lines| ==> r[i] == Join(lines[i])
  {
    seq(|lines|, i requires 0 <= i < |lines| => Join(lines[i]))
  }

  /** The lines finished so far and the one being grown, as the loop holds them. */
  ghost predicate Held(g: seq<seq<string>>, lines: seq<string>, current: string) {
    if g == [] then current == "" && lines == []
    else current == Join(g[|g| - 1]) && current != [] && lines == Joined(g[..|g| - 1])
  }

  lemma HeldGrown(g: seq<seq<string>>, lines: seq<string>, current: string, word: string)
    requires Held(g, lines, current) && current != [] && g[|g| - 1] != []
    ensures Held(g[..|g| - 1] + [g[|g| - 1] + [word]], lines, current + " " + word)
  {
    var last := g[|g| - 1];
    var next := g[..|g| - 1] + [last + [word]];
    assert (last + [word])[..|last|] == last;
    assert next[..|next| - 1] == g[..|g| - 1];
  }

  lemma JoinedPush(front: seq<seq<string>>, last: seq<string>)
    ensures Joined(front + [last]) == Joined(front) + [Join(last)]
  {
  }

  lemma HeldBroken(g: seq<seq<string>>, lines: seq<string>, current: string, word: string)
    requires Held(g, lines, current) && word != []
    ensures Held(g + [[word]], if current == [] then lines else lines + [current], word)
  {
    var next := g + [[word]];
    assert next[..|next| - 1] == g;
    hide Join;
    if g != [] {
      assert g == g[..|g| - 1] + [g[|g| - 1]];
      JoinedPush(g[..|g| - 1], g[|g| - 1]);
    }
    assert Join([word]) == word by { OneJoined(word); }
  }

  lemma OneJoined(word: string)
    ensures Join([word]) == word
  {
  }

  /** Word by word: `current` is the line being grown. */
  method WrapText(text: string, width: nat) returns (lines: seq<string>)
    ensures lines == Joined(Greedy(Words(text), width))
  {
    hide Held, Joined, Len, Join, Words;
    var words := Words(text);
    WordsAreWords(text);
    lines := [];
    var current := "";
    assert Held([], [], "") by { HeldAtStart(); }
    for i := 0 to |words|
      invariant Held(Greedy(words[..i], width), lines, current)
    {
      ghost var g := Greedy(words[..i], width);
      var word := words[i];
      assert words[..i + 1][..i] == words[..i];
      assert IsWord(word);
      HeldMeans(g, lines, current);
      if current != [] { GreedyLines(words[..i], width); }
      if current == [] || Len(current) + 1 + Len(word) > width {
        HeldBroken(g, lines, current, word);
      } else {
        HeldGrown(g, lines, current, word);
      }
      assert "" + word == word;
      if current != [] && Len(current) + 1 + Len(word) > width {
        lines := lines + [current];
        current := "";
      }
      if current != [] {
        current := current + " ";
      }
      current := current + word;
    }
    assert words[..|words|] == words;
    HeldMeans(Greedy(words, width), lines, current);
    if current != [] {
      HeldToLines(Greedy(words, width), lines, current);
      lines := lines + [current];
    }
  }

  lemma HeldAtStart()
    ensures Held([], [], "")
  {
  }

  lemma HeldMeans(g: seq<seq<string>>, lines: seq<string>, current: string)
    requires Held(g, lines, current)
    ensures current == [] <==> g == []
    ensures g != [] ==> Width(g[|g| - 1]) == Len(current)
    ensures g == [] ==> lines == Joined(g)
  {
  }

  lemma GreedyLines(words: seq<string>, width: nat)
    ensures forall i :: 0 <= i < |Greedy(words, width)| ==> Greedy(words, width)[i] != []
  {
    GreedySplits(words, width);
    forall i | 0 <= i < |Greedy(words, width)| ensures Greedy(words, width)[i] != [] {
      assert Fits(Greedy(words, width)[i], width);
    }
  }

  lemma HeldToLines(g: seq<seq<string>>, lines: seq<string>, current: string)
    requires Held(g, lines, current) && current != []
    ensures lines + [current] == Joined(g)
  {
    assert g == g[..|g| - 1] + [g[|g| - 1]];
    JoinedPush(g[..|g| - 1], g[|g| - 1]);
  }

  function WordsOfAll(lines: seq<string>): seq<string> {
    if lines == [] then [] else WordsOfAll(lines[..|lines| - 1]) + Words(lines[|lines| - 1])
  }

  lemma {:induction false} WordsOfJoined(lines: seq<seq<string>>)
    requires AreWords(Flatten(lines))
    ensures WordsOfAll(Joined(lines)) == Flatten(lines)
  {
    if lines != [] {
      var n := |lines| - 1;
      var all := Flatten(lines);
      var front := Flatten(lines[..n]);
      assert forall i :: 0 <= i < |front| ==> front[i] == all[i];
      assert forall i :: 0 <= i < |lines[n]| ==> lines[n][i] == all[|front| + i];
      WordsOfJoined(lines[..n]);
      WordsOfJoin(lines[n]);
      assert Joined(lines)[..n] == Joined(lines[..n]);
    }
  }

  /** What wrapping promises: the printed lines hold the words of the text in
      order and nothing else; each is as wide as allowed or a single word; and no
      in-order split that keeps to this rule has fewer lines. */
  lemma Wrapped(text: string, width: nat, split: seq<seq<string>>)
    requires Splits(split, Words(text), width)
    ensures var lines := Joined(Greedy(Words(text), width));
      && WordsOfAll(lines) == Words(text)
      && (forall i :: 0 <= i < |lines| ==> Len(lines[i]) <= width || |Words(lines[i])| == 1)
      && |lines| <= |split|
  {
    var g := Greedy(Words(text), width);
    var lines := Joined(g);
    GreedySplits(Words(text), width);
    WordsAreWords(text);
    WordsOfJoined(g);
    StaysAhead(Words(text), width, split);
    forall i | 0 <= i < |lines| ensures Len(lines[i]) <= width || |Words(lines[i])| == 1 {
      assert Fits(g[i], width);
      if |g[i]| == 1 {
        LineHolds(g, Words(text), i);
        WordsOfJoin(g[i]);
      }
    }
  }

  lemma {:induction false} LineHolds(lines: seq<seq<string>>, words: seq<string>, i: nat)
    requires Flatten(lines) == words && AreWords(words) && i < |lines|
    ensures AreWords(lines[i])
    decreases |lines|
  {
    var n := |lines| - 1;
    var front := Flatten(lines[..n]);
    assert forall j :: 0 <= j < |front| ==> front[j] == words[j];
    assert forall j :: 0 <= j < |lines[n]| ==> lines[n][j] == words[|front| + j];
    if i < n { LineHolds(lines[..n], front, i); }
  }
}
