/** What the path scanner makes of any text: numbers in every form they may be
    written in, by value, and commands with their letters given or implied. */
module IconText {
  import opened Basics
  import opened IconPath

  // ---- Numbers by value ----

  function Real(d: Dec): real {
    d.digits as real / Pow10(d.scale) as real
  }

  lemma {:induction false} Pow10Sum(a: nat, b: nat)
    ensures Pow10(a + b) == Pow10(a) * Pow10(b)
  {
    if a > 0 { Pow10Sum(a - 1, b); }
  }

  lemma RealProduct(a: int, b: int)
    ensures (a * b) as real == a as real * b as real
  {
  }

  /** A decimal with `more` places more has the same value. */
  lemma Widened(d: Dec, more: nat)
    ensures (d.digits * Pow10(more)) as real / Pow10(d.scale + more) as real == Real(d)
  {
    hide Pow10;
    Pow10Sum(d.scale, more);
    Rescaled(d.digits, Pow10(d.scale), Pow10(more));
  }

  lemma Rescaled(x: int, q: nat, k: nat)
    requires q > 0 && k > 0
    ensures q * k > 0 && (x * k) as real / (q * k) as real == x as real / q as real
  {
    RealProduct(q, k);
    RealProduct(x, k);
    CancelFactor(x as real, q as real, k as real);
    assert q * k >= k by { MulMono(k, 1, q); }
  }

  lemma CancelFactor(x: real, q: real, k: real)
    requires q > 0.0 && k > 0.0
    ensures q * k > 0.0 && (x * k) / (q * k) == x / q
  {
  }

  lemma SumOver(x: real, y: real, p: real)
    requires p > 0.0
    ensures (x + y) / p == x / p + y / p
  {
  }

  /** Adding decimals adds their values. */
  lemma AddValue(a: Dec, b: Dec)
    ensures Real(Add(a, b)) == Real(a) + Real(b)
  {
    hide Pow10;
    if a.scale >= b.scale {
      Widened(b, a.scale - b.scale);
      SumOver(a.digits as real, (b.digits * Pow10(a.scale - b.scale)) as real, Pow10(a.scale) as real);
    } else {
      Widened(a, b.scale - a.scale);
      SumOver((a.digits * Pow10(b.scale - a.scale)) as real, b.digits as real, Pow10(b.scale) as real);
    }
  }

  predicate AllDigits(s: string) {
    forall i :: 0 <= i < |s| ==> '0' <= s[i] <= '9'
  }

  predicate Blank(s: string) {
    forall i :: 0 <= i < |s| ==> s[i] in {' ', ',', '\t', '\n', '\r'}
  }

  /** The text cannot go on with a number that ends before it. */
  predicate CutsNumber(s: string) {
    s != [] ==> s[0] != '.' && !('0' <= s[0] <= '9')
  }

  predicate IsSign(s: string) {
    s == "" || s == "-" || s == "+"
  }

  /** A number as it may be written: separators, a sign, and digits with at most
      one point among, before or behind them. */
  datatype Numeral = Numeral(before: string, sign: string, whole: string, point: string, fraction: string)

  predicate WellFormed(n: Numeral) {
    && Blank(n.before) && IsSign(n.sign) && (n.point == "" || n.point == ".")
    && AllDigits(n.whole) && AllDigits(n.fraction)
    && (n.point == "" ==> n.fraction == "") && (n.whole != "" || n.fraction != "")
  }

  function Run(n: Numeral): string {
    n.whole + n.point + n.fraction
  }

  function NumeralText(n: Numeral): string {
    n.before + (n.sign + Run(n))
  }

  /** What it means: the digits as one integer, less a power of ten for each digit
      behind the point. */
  function Meant(n: Numeral): Dec {
    var digits: int := DigitsOf(n.whole + n.fraction);
    Dec(if n.sign == "-" then -digits else digits, |n.fraction|)
  }

  lemma {:induction false} DigitsJoin(a: string, b: string)
    requires AllDigits(b)
    ensures DigitsOf(a + b) == DigitsOf(a) * Pow10(|b|) + DigitsOf(b)
    decreases |b|
  {
    if b == [] {
      assert a + b == a;
    } else {
      var front := b[..|b| - 1];
      DigitsJoin(a, front);
      LastDigit(a + front, b[|b| - 1]);
      LastDigit(front, b[|b| - 1]);
      assert a + b == a + front + [b[|b| - 1]] && front + [b[|b| - 1]] == b;
      hide DigitsOf;
      Regroup(DigitsOf(a), Pow10(|front|), DigitsOf(front), b[|b| - 1] as int - '0' as int);
    }
  }

  lemma LastDigit(s: string, c: char)
    requires '0' <= c <= '9'
    ensures DigitsOf(s + [c]) == DigitsOf(s) * 10 + (c as int - '0' as int)
  {
    assert (s + [c])[..|s|] == s;
  }

  lemma Regroup(a: int, p: int, f: int, d: int)
    ensures (a * p + f) * 10 + d == a * (10 * p) + (f * 10 + d)
  {
    assert a * (10 * p) == 10 * (a * p);
  }

  /** A digit in front is worth its place. */
  lemma PlaceValue(c: char, s: string)
    requires '0' <= c <= '9' && AllDigits(s)
    ensures DigitsOf([c] + s) == (c as int - '0' as int) * Pow10(|s|) + DigitsOf(s)
  {
    hide DigitsOf, Pow10, AllDigits;
    DigitsJoin([c], s);
    OneDigit(c);
  }

  lemma OneDigit(c: char)
    requires '0' <= c <= '9'
    ensures DigitsOf([c]) == c as int - '0' as int
  {
    assert [c][..0] == [];
  }

  /** By value a number is its whole part and its fraction, with the sign. */
  lemma MeantValue(n: Numeral)
    requires WellFormed(n)
    ensures var size := DigitsOf(n.whole) as real + DigitsOf(n.fraction) as real / Pow10(|n.fraction|) as real;
      Real(Meant(n)) == if n.sign == "-" then -size else size
  {
    hide DigitsOf, Pow10, AllDigits, Blank;
    DigitsJoin(n.whole, n.fraction);
    MixedDigits(DigitsOf(n.whole), DigitsOf(n.fraction), Pow10(|n.fraction|));
  }

  lemma MixedDigits(w: nat, f: nat, p: nat)
    requires p > 0
    ensures (w * p + f) as real / p as real == w as real + f as real / p as real
    ensures (-(w * p + f)) as real / p as real == -(w as real + f as real / p as real)
  {
    RealProduct(w, p);
    MixedNumber(w as real, f as real, p as real);
    assert (w * p + f) as real == w as real * p as real + f as real;
    assert (-(w * p + f)) as real == -(w as real * p as real + f as real);
  }

  lemma MixedNumber(w: real, f: real, p: real)
    requires p > 0.0
    ensures (w * p + f) / p == w + f / p && -(w * p + f) / p == -(w + f / p)
  {
  }

  lemma {:induction false} SkipBlank(before: string, t: string)
    requires Blank(before)
    ensures Skip(before + t) == Skip(t)
    decreases |before|
  {
    if before == [] {
      assert before + t == t;
    } else {
      assert (before + t)[1..] == before[1..] + t;
      SkipBlank(before[1..], t);
    }
  }

  lemma {:induction false} NoPoint(s: string)
    requires AllDigits(s)
    ensures Point(s) == |s|
    decreases |s|
  {
    if s != [] { NoPoint(s[1..]); }
  }

  lemma RunMeans(n: Numeral)
    requires WellFormed(n)
    ensures Magnitude(Run(n)) == Some(Dec(DigitsOf(n.whole + n.fraction), |n.fraction|))
    ensures Run(n) != [] && forall i :: 0 <= i < |Run(n)| ==> IsNumeral(Run(n)[i])
  {
    var u := Run(n);
    if n.point == "" {
      assert u == n.whole && n.whole + n.fraction == n.whole;
      NoPoint(u);
      assert u[..|u|] + "" == u;
    } else {
      assert u == n.whole + "." + n.fraction;
      PointAfter(n.whole, n.fraction);
      PointedNumerals(n.whole, n.fraction);
      assert u[..|n.whole|] == n.whole && u[|n.whole| + 1..] == n.fraction;
      assert forall i :: 0 <= i < |n.fraction| ==> n.fraction[i] != '.';
    }
  }

  lemma NoNumeralSeparates(c: char)
    ensures IsNumeral(c) ==> !IsSeparator(c) && c != '-' && c != '+'
    ensures !IsSeparator('-') && !IsSeparator('+')
  {
  }

  lemma SignedRun(n: Numeral)
    requires WellFormed(n)
    ensures var t := n.sign + Run(n);
      SignLength(t) == |n.sign| && t[|n.sign|..] == Run(n) && t != [] && !IsSeparator(t[0]) && (t[0] == '-' <==> n.sign == "-")
  {
    hide Run, Magnitude, DigitsOf, Blank, AllDigits, IsSeparator;
    RunMeans(n);
    NoNumeralSeparates(Run(n)[0]);
    var t := n.sign + Run(n);
    if n.sign == "" { assert t == Run(n); } else { assert t[0] == n.sign[0]; }
  }

  lemma NumeralValued(n: Numeral)
    requires WellFormed(n)
    ensures Value(n.sign + Run(n)) == Some(Meant(n))
  {
    hide Run, Magnitude, DigitsOf, Blank, AllDigits, IsSeparator, SignLength, IsNumeral;
    RunMeans(n);
    SignedRun(n);
  }

  lemma NumeralLength(n: Numeral, rest: string)
    requires WellFormed(n) && CutsNumber(rest)
    ensures NumberLength(n.sign + Run(n) + rest) == |n.sign + Run(n)|
  {
    hide Run, Magnitude, NumeralRun, DigitsOf, Blank, AllDigits, IsSeparator, WellFormed;
    RunMeans(n);
    SignedRun(n);
    NumeralRunOf(Run(n), rest);
    var t := n.sign + Run(n);
    assert (t + rest)[0] == t[0];
    assert (t + rest)[|n.sign|..] == Run(n) + rest;
  }

  /** Reading a number, in front of anything that cannot continue it, gives its
      value and leaves the rest. */
  lemma NumberMeans(n: Numeral, rest: string)
    requires WellFormed(n) && CutsNumber(rest)
    ensures ReadNumber(NumeralText(n) + rest) == Scan(Some(Meant(n)), rest)
  {
    hide Run, Value, NumberLength, Meant, Blank, AllDigits, IsSeparator, SignLength;
    var t := n.sign + Run(n);
    NumeralValued(n);
    NumeralLength(n, rest);
    SignedRun(n);
    SkipBlank(n.before, t + rest);
    assert NumeralText(n) + rest == n.before + (t + rest);
    assert (t + rest)[0] == t[0];
    assert Skip(t + rest) == t + rest;
    assert (t + rest)[..|t|] == t && (t + rest)[|t|..] == rest;
  }

  /** Digits and points in which no number can be read. */
  predicate Unreadable(run: string) {
    && (forall i :: 0 <= i < |run| ==> run[i] == '.' || '0' <= run[i] <= '9')
    && (run == "" || run == "." || exists i, j :: 0 <= i < j < |run| && run[i] == '.' && run[j] == '.')
  }

  lemma NoMagnitude(run: string)
    requires Unreadable(run)
    ensures Magnitude(run) == None && forall i :: 0 <= i < |run| ==> IsNumeral(run[i])
  {
    if run != "" && run != "." {
      var p := Point(run);
      var i, j :| 0 <= i < j < |run| && run[i] == '.' && run[j] == '.';
      assert p <= i;
      assert run[p + 1..][j - p - 1] == '.';
    }
  }

  lemma SignedText(sign: string, run: string, rest: string)
    requires IsSign(sign) && (sign != "" || run != "") && forall i :: 0 <= i < |run| ==> IsNumeral(run[i])
    requires CutsNumber(rest)
    ensures var t := sign + run;
      && SignLength(t) == SignLength(t + rest) == |sign| && t[|sign|..] == run
      && NumberLength(t + rest) == |t| && Skip(t + rest) == t + rest
  {
    hide NumeralRun, IsSeparator;
    var t := sign + run;
    NumeralRunOf(run, rest);
    assert (t + rest)[0] == t[0];
    NoNumeralSeparates(t[0]);
    if sign == "" { assert t == run; } else { assert t[0] == sign[0]; }
    assert (t + rest)[|sign|..] == run + rest;
  }

  /** A sign alone, a point alone, or a run with two points is no number; it is
      consumed all the same. */
  lemma NoNumber(before: string, sign: string, run: string, rest: string)
    requires Blank(before) && IsSign(sign) && (sign != "" || run != "") && Unreadable(run) && CutsNumber(rest)
    ensures ReadNumber(before + (sign + run) + rest) == Scan(None, rest)
  {
    hide Blank, Unreadable, NumberLength, Skip, Magnitude, SignLength;
    var t := sign + run;
    NoMagnitude(run);
    SignedText(sign, run, rest);
    SkipBlank(before, t + rest);
    assert before + t + rest == before + (t + rest);
    assert (t + rest)[..|t|] == t && (t + rest)[|t|..] == rest;
  }

  // ---- Texts as they may be written ----

  /** A command: a letter behind separators, or none where it is implied, and its
      numbers. */
  datatype Command = Command(gap: string, letter: Option<char>, numerals: seq<Numeral>)

  function NumeralsText(numerals: seq<Numeral>, rest: string): string
    decreases |numerals|
  {
    if numerals == [] then rest else NumeralText(numerals[0]) + NumeralsText(numerals[1..], rest)
  }

  /** Each number is one, and is not continued by what follows it. */
  predicate NumeralsFit(numerals: seq<Numeral>, rest: string)
    decreases |numerals|
  {
    numerals != [] ==>
      WellFormed(numerals[0]) && CutsNumber(NumeralsText(numerals[1..], rest)) && NumeralsFit(numerals[1..], rest)
  }

  function Values(numerals: seq<Numeral>): seq<Dec> {
    seq(|numerals|, i requires 0 <= i < |numerals| => Meant(numerals[i]))
  }

  function TextOf(commands: seq<Command>, tail: string): string
    decreases |commands|
  {
    if commands == [] then tail
    else
      commands[0].gap + (if commands[0].letter.Some? then [commands[0].letter.value] else "")
      + NumeralsText(commands[0].numerals, TextOf(commands[1..], tail))
  }

  /** The letter a command is carried out under: its own, or the one before; a
      move is followed by lines. */
  function Under(before: char, c: Command): char {
    match c.letter
    case Some(letter) => letter
    case None => if before == 'M' then 'L' else if before == 'm' then 'l' else before
  }

  /** The segment of a letter with the numbers it takes. */
  function SegmentOf(letter: char, v: seq<Dec>): Option<Segment> {
    if letter in {'M', 'm'} && |v| == 2 then Some(M(letter == 'm', v[0], v[1]))
    else if letter in {'L', 'l'} && |v| == 2 then Some(L(letter == 'l', v[0], v[1]))
    else if letter in {'H', 'h'} && |v| == 1 then Some(H(letter == 'h', v[0]))
    else if letter in {'V', 'v'} && |v| == 1 then Some(V(letter == 'v', v[0]))
    else if letter in {'C', 'c'} && |v| == 6 then Some(C(letter == 'c', v[0], v[1], v[2], v[3], v[4], v[5]))
    else if letter in {'Z', 'z'} && v == [] then Some(Z)
    else None
  }

  predicate CommandFits(before: char, c: Command, rest: string) {
    && Blank(c.gap) && (c.letter == None ==> c.gap == "" && c.numerals != [])
    && SegmentOf(Under(before, c), Values(c.numerals)).Some?
    && NumeralsFit(c.numerals, rest)
  }

  predicate CommandsFit(before: char, commands: seq<Command>, tail: string)
    decreases |commands|
  {
    commands != [] ==>
      && CommandFits(before, commands[0], TextOf(commands[1..], tail))
      && CommandsFit(Under(before, commands[0]), commands[1..], tail)
  }

  function SegmentsOf(before: char, commands: seq<Command>, tail: string): seq<Segment>
    requires CommandsFit(before, commands, tail)
    decreases |commands|
  {
    if commands == [] then []
    else
      var letter := Under(before, commands[0]);
      [SegmentOf(letter, Values(commands[0].numerals)).value] + SegmentsOf(letter, commands[1..], tail)
  }

  function LastLetter(before: char, commands: seq<Command>): char
    decreases |commands|
  {
    if commands == [] then before else LastLetter(Under(before, commands[0]), commands[1..])
  }

  /** The drawing ends at place `k`, past separators: with the text, at a letter
      that is no command, or, unless an outline has just been closed, at a
      character of no number. */
  predicate EndsAt(last: char, tail: string, k: nat) {
    k <= |tail| && Blank(tail[..k]) && (
      || k == |tail|
      || (IsLetter(tail[k]) && tail[k] !in {'M', 'm', 'L', 'l', 'H', 'h', 'V', 'v', 'C', 'c', 'Z', 'z'})
      || (last !in {'Z', 'z'} && !IsLetter(tail[k]) && !('0' <= tail[k] <= '9')
          && tail[k] !in {'.', '-', '+', ' ', ',', '\t', '\n', '\r'}))
  }

  ghost predicate EndsDrawing(last: char, tail: string) {
    exists k: nat :: EndsAt(last, tail, k)
  }

  lemma ReadsNumerals(numerals: seq<Numeral>, rest: string)
    requires numerals != [] && NumeralsFit(numerals, rest)
    ensures ReadNumber(NumeralsText(numerals, rest)) == Scan(Some(Meant(numerals[0])), NumeralsText(numerals[1..], rest))
  {
    hide ReadNumber, NumeralText, WellFormed, CutsNumber, Meant;
    NumberMeans(numerals[0], NumeralsText(numerals[1..], rest));
  }

  lemma ReadsPair(numerals: seq<Numeral>, rest: string)
    requires |numerals| >= 2 && NumeralsFit(numerals, rest)
    ensures ReadPair(NumeralsText(numerals, rest))
      == Scan(Some(Point2(Meant(numerals[0]), Meant(numerals[1]))), NumeralsText(numerals[2..], rest))
    ensures NumeralsFit(numerals[2..], rest)
  {
    hide ReadNumber, WellFormed, CutsNumber, NumeralsText, Meant;
    ReadsNumerals(numerals, rest);
    ReadsNumerals(numerals[1..], rest);
    assert numerals[1..][1..] == numerals[2..];
  }

  lemma ReadsCurve(relative: bool, numerals: seq<Numeral>, rest: string)
    requires |numerals| == 6 && NumeralsFit(numerals, rest)
    ensures ReadCurve(relative, NumeralsText(numerals, rest))
      == Scan(Some(C(relative, Meant(numerals[0]), Meant(numerals[1]), Meant(numerals[2]), Meant(numerals[3]),
                     Meant(numerals[4]), Meant(numerals[5]))), rest)
  {
    hide ReadPair, NumeralsFit, NumeralsText, Meant;
    ReadsPair(numerals, rest);
    ReadsTwoPairs(numerals[2..], rest);
  }

  lemma ReadsTwoPairs(numerals: seq<Numeral>, rest: string)
    requires |numerals| == 4 && NumeralsFit(numerals, rest)
    ensures var first := ReadPair(NumeralsText(numerals, rest));
      && first.value == Some(Point2(Meant(numerals[0]), Meant(numerals[1])))
      && ReadPair(first.rest) == Scan(Some(Point2(Meant(numerals[2]), Meant(numerals[3]))), rest)
  {
    assert NumeralsText([], rest) == rest;
    hide ReadPair, NumeralsFit, NumeralsText, Meant;
    ReadsPair(numerals, rest);
    ReadsPair(numerals[2..], rest);
    assert numerals[2..][2..] == [];
  }

  lemma LettersMean(letter: char)
    ensures Upper(letter) == 'M' <==> letter in {'M', 'm'}
    ensures Upper(letter) == 'L' <==> letter in {'L', 'l'}
    ensures Upper(letter) == 'H' <==> letter in {'H', 'h'}
    ensures Upper(letter) == 'V' <==> letter in {'V', 'v'}
    ensures Upper(letter) == 'C' <==> letter in {'C', 'c'}
    ensures Upper(letter) == 'Z' <==> letter in {'Z', 'z'}
    ensures letter in {'m', 'l', 'h', 'v', 'c', 'z'} ==> IsLower(letter)
    ensures letter in {'M', 'L', 'H', 'V', 'C', 'Z'} ==> !IsLower(letter)
  {
  }

  lemma ReadsSegment(letter: char, numerals: seq<Numeral>, rest: string)
    requires NumeralsFit(numerals, rest) && SegmentOf(letter, Values(numerals)).Some?
    ensures ReadSegment(letter, NumeralsText(numerals, rest)) == Scan(SegmentOf(letter, Values(numerals)), rest)
  {
    LettersMean(letter);
    assert NumeralsText([], rest) == rest;
    if |numerals| == 1 {
      ReadsNumerals(numerals, rest);
      assert numerals[1..] == [];
    } else if |numerals| == 2 {
      ReadsPair(numerals, rest);
      assert numerals[2..] == [];
    } else if |numerals| == 6 {
      ReadsCurve(IsLower(letter), numerals, rest);
    }
    hide ReadNumber, ReadPair, ReadCurve, Upper, IsLower, NumeralsFit, NumeralsText;
  }

  lemma SkippedNumber(s: string)
    ensures ReadNumber(Skip(s)) == ReadNumber(s) && ReadPair(Skip(s)) == ReadPair(s)
  {
    SkipTwice(s);
    hide Skip, NumberLength, Value;
  }

  /** Separators in front of a command's numbers make no difference. */
  lemma SkippedSegment(letter: char, s: string)
    requires Upper(letter) != 'Z' && ReadSegment(letter, s).value.Some?
    ensures ReadSegment(letter, Skip(s)) == ReadSegment(letter, s)
  {
    SkippedNumber(s);
    hide ReadNumber, ReadPair, Skip, Upper, IsLower;
  }

  lemma NumeralFirst(numerals: seq<Numeral>, rest: string)
    requires numerals != [] && NumeralsFit(numerals, rest)
    ensures var t := Skip(NumeralsText(numerals, rest)); t != [] && !IsLetter(t[0])
  {
    hide Run, Magnitude, Blank, AllDigits, NumeralRun, NumberLength, Skip, DigitsOf, IsNumeral, IsLetter;
    var n := numerals[0];
    var behind := NumeralsText(numerals[1..], rest);
    var u := n.sign + Run(n);
    RunMeans(n);
    SignedText(n.sign, Run(n), behind);
    SkipBlank(n.before, u + behind);
    assert NumeralsText(numerals, rest) == n.before + (u + behind);
    assert (u + behind)[0] == u[0];
    if n.sign == "" { assert u == Run(n); } else { assert u[0] == n.sign[0]; }
    NoLetter(u[0]);
  }

  lemma NoLetter(c: char)
    ensures IsNumeral(c) || c == '-' || c == '+' ==> !IsLetter(c)
  {
  }

  /** One command, parsed in front of the rest. */
  lemma ReadsCommand(before: char, c: Command, rest: string)
    requires CommandFits(before, c, rest)
    ensures var letter := Under(before, c);
      Parse(before, c.gap + (if c.letter.Some? then [c.letter.value] else "") + NumeralsText(c.numerals, rest))
      == (var p := Parse(letter, rest); Parsed([SegmentOf(letter, Values(c.numerals)).value] + p.segments, p.hangs))
  {
    if c.letter.Some? { ReadsNamed(before, c, rest); } else { ReadsImplied(before, c, rest); }
    hide Parse, SegmentOf, Values, NumeralsText;
  }

  lemma ReadsNamed(before: char, c: Command, rest: string)
    requires CommandFits(before, c, rest) && c.letter.Some?
    ensures var letter := c.letter.value;
      Parse(before, c.gap + [letter] + NumeralsText(c.numerals, rest))
      == (var p := Parse(letter, rest); Parsed([SegmentOf(letter, Values(c.numerals)).value] + p.segments, p.hangs))
  {
    hide ReadSegment, NumeralsFit, SegmentOf, Skip, NumeralsText, Upper, Blank, IsLetter, Values;
    var letter := c.letter.value;
    var numbers := NumeralsText(c.numerals, rest);
    ReadsSegment(letter, c.numerals, rest);
    CommandLetter(letter, Values(c.numerals));
    var t := [letter] + numbers;
    assert c.gap + [letter] + numbers == c.gap + t;
    SkipBlank(c.gap, t);
    LetterStays(t);
    assert t[1..] == numbers;
  }

  lemma CommandLetter(letter: char, v: seq<Dec>)
    requires SegmentOf(letter, v).Some?
    ensures IsLetter(letter)
    ensures v != [] ==> Upper(letter) != 'Z'
  {
  }

  lemma UnderCloses(before: char, c: Command)
    requires Upper(Under(before, c)) != 'Z' && c.letter == None
    ensures Upper(before) != 'Z'
  {
  }

  lemma ReadsImplied(before: char, c: Command, rest: string)
    requires CommandFits(before, c, rest) && c.letter == None
    ensures var letter := Under(before, c);
      Parse(before, c.gap + "" + NumeralsText(c.numerals, rest))
      == (var p := Parse(letter, rest); Parsed([SegmentOf(letter, Values(c.numerals)).value] + p.segments, p.hangs))
  {
    hide ReadSegment, NumeralsFit, SegmentOf, Skip, NumeralsText, Upper, Blank, IsLetter, Values;
    var letter := Under(before, c);
    var numbers := NumeralsText(c.numerals, rest);
    ReadsSegment(letter, c.numerals, rest);
    assert |Values(c.numerals)| == |c.numerals| by { ValuesLength(c.numerals); }
    CommandLetter(letter, Values(c.numerals));
    UnderCloses(before, c);
    assert c.gap + "" + numbers == numbers;
    NumeralFirst(c.numerals, rest);
    SkippedSegment(letter, numbers);
  }

  lemma ValuesLength(numerals: seq<Numeral>)
    ensures |Values(numerals)| == |numerals|
  {
  }

  lemma ParseEnds(last: char, tail: string)
    requires EndsDrawing(last, tail)
    ensures Parse(last, tail) == Parsed([], false)
  {
    var k: nat :| EndsAt(last, tail, k);
    var t := tail[k..];
    assert tail == tail[..k] + t;
    SkipBlank(tail[..k], t);
    if k < |tail| {
      assert t[0] == tail[k];
      EndStays(last, t);
      hide EndsAt, Skip, ReadSegment, Blank;
    }
  }

  /** What ends a drawing is no separator, and nothing is read from it. */
  lemma EndStays(last: char, t: string)
    requires EndsAt(last, t, 0) && t != []
    ensures Skip(t) == t && ReadSegment(NextCommand(last, t), Arguments(t)).value == None
    ensures Upper(last) != 'Z' || IsLetter(t[0])
  {
    LettersMean(last);
    LettersMean(NextCommand(last, t));
    assert Skip(t) == t;
    hide ReadNumber, ReadPair, ReadCurve, Upper, IsLower, Skip, Blank;
    if !IsLetter(t[0]) { NothingRead(NextCommand(last, t), t); }
  }

  lemma NothingRead(letter: char, t: string)
    requires t != [] && !IsNumeral(t[0]) && t[0] !in {'-', '+'} && Skip(t) == t && Upper(letter) != 'Z'
    ensures ReadSegment(letter, t).value == None
  {
    assert NumberLength(t) == 0;
    hide NumberLength, Skip, Upper;
  }

  /** How many numbers a letter takes. */
  function Takes(letter: char): nat {
    if letter in {'M', 'm', 'L', 'l'} then 2
    else if letter in {'H', 'h', 'V', 'v'} then 1
    else if letter in {'C', 'c'} then 6
    else 0
  }

  lemma ShortPair(numerals: seq<Numeral>, rest: string)
    requires |numerals| < 2 && NumeralsFit(numerals, rest) && ReadNumber(rest).value == None
    ensures ReadPair(NumeralsText(numerals, rest)).value == None
  {
    assert NumeralsText([], rest) == rest;
    hide ReadNumber, NumeralText, NumeralsFit, NumeralsText;
    if |numerals| == 1 {
      ReadsNumerals(numerals, rest);
      assert numerals[1..] == [];
    } else {
      assert numerals == [];
    }
  }

  lemma ShortCurve(relative: bool, numerals: seq<Numeral>, rest: string)
    requires |numerals| < 6 && NumeralsFit(numerals, rest) && ReadNumber(rest).value == None
    ensures ReadCurve(relative, NumeralsText(numerals, rest)).value == None
  {
    hide ReadNumber, ReadPair, NumeralsFit, NumeralsText, Meant;
    if |numerals| < 2 {
      ShortPair(numerals, rest);
    } else {
      ReadsPair(numerals, rest);
      if |numerals| < 4 {
        ShortPair(numerals[2..], rest);
      } else {
        ReadsPair(numerals[2..], rest);
        ShortPair(numerals[2..][2..], rest);
      }
    }
  }

  /** A command with too few numbers draws nothing, and ends the drawing. */
  lemma TooFewNumbers(before: char, c: Command, rest: string)
    requires Blank(c.gap) && c.letter.Some? && |c.numerals| < Takes(c.letter.value)
    requires NumeralsFit(c.numerals, rest) && ReadNumber(rest).value == None
    ensures Parse(before, TextOf([c], rest)) == Parsed([], false)
  {
    var letter := c.letter.value;
    var numbers := NumeralsText(c.numerals, rest);
    assert NumeralsText([], rest) == rest;
    LettersMean(letter);
    SkipBlank(c.gap, [letter] + numbers);
    LetterStays([letter] + numbers);
    hide ReadNumber, ReadPair, ReadCurve, NumeralsFit, NumeralsText, Skip, Blank, Upper, IsLower;
    if Takes(letter) == 2 { ShortPair(c.numerals, rest); }
    if Takes(letter) == 6 { ShortCurve(IsLower(letter), c.numerals, rest); }
    assert Takes(letter) == 1 ==> c.numerals == [];
    assert [c][1..] == [];
    assert TextOf([], rest) == rest;
    assert c.gap + [letter] + numbers == c.gap + ([letter] + numbers);
    assert ([letter] + numbers)[1..] == numbers;
  }

  /** Any text of commands, written with whatever separators, number forms and
      omitted letters, is read as the segments its letters and numbers name, and
      then as what follows. */
  lemma {:induction false} TextMeans(before: char, commands: seq<Command>, tail: string)
    requires CommandsFit(before, commands, tail)
    ensures var p := Parse(LastLetter(before, commands), tail);
      Parse(before, TextOf(commands, tail)) == Parsed(SegmentsOf(before, commands, tail) + p.segments, p.hangs)
    decreases |commands|
  {
    hide Parse, NumeralsFit, Blank, SegmentOf;
    var p := Parse(LastLetter(before, commands), tail);
    if commands == [] {
      assert [] + p.segments == p.segments;
    } else {
      var letter := Under(before, commands[0]);
      TextMeans(letter, commands[1..], tail);
      ReadsCommand(before, commands[0], TextOf(commands[1..], tail));
      var s := SegmentOf(letter, Values(commands[0].numerals)).value;
      assert [s] + (SegmentsOf(letter, commands[1..], tail) + p.segments) == [s] + SegmentsOf(letter, commands[1..], tail) + p.segments;
    }
  }

  /** Such a text draws what its segments mean, and its drawing stops with its end
      or at the first thing that is no command. */
  lemma TextDraws(commands: seq<Command>, tail: string)
    requires CommandsFit(' ', commands, tail) && EndsDrawing(LastLetter(' ', commands), tail)
    ensures Walked(Start(TextOf(commands, tail))) == Finished(Interpreted(Home, SegmentsOf(' ', commands, tail)))
  {
    hide Parse, CommandsFit, EndsDrawing, Walked, SegmentsOf;
    var segments := SegmentsOf(' ', commands, tail);
    TextMeans(' ', commands, tail);
    ParseEnds(LastLetter(' ', commands), tail);
    WalkedMeans(Start(TextOf(commands, tail)));
    assert segments + [] == segments;
    assert [] + Interpreted(Home, segments) == Interpreted(Home, segments);
  }

  // ---- Segments by value ----

  function Origin(relative: bool, at: Dec): real {
    if relative then Real(at) else 0.0
  }

  lemma FromValue(origin: Dec, relative: bool, d: Dec)
    ensures Real(From(origin, relative, d)) == Origin(relative, origin) + Real(d)
  {
    AddValue(origin, d);
    hide Real, Add;
  }

  /** Where a segment leads, by value: an absolute one to its own numbers, a
      relative one that far from the pen; across and down keep the other
      coordinate; closing leads back. Only a move begins an outline. */
  lemma SegmentLeads(pen: Pen, s: Segment)
    ensures var p := Moved(pen, s);
      && (s.M? || s.L? || s.H? ==> Real(p.x) == Origin(s.relative, pen.x) + Real(s.x))
      && (s.M? || s.L? || s.V? ==> Real(p.y) == Origin(s.relative, pen.y) + Real(s.y))
      && (s.C? ==> Real(p.x) == Origin(s.relative, pen.x) + Real(s.x3) && Real(p.y) == Origin(s.relative, pen.y) + Real(s.y3))
      && (s.H? ==> p.y == pen.y) && (s.V? ==> p.x == pen.x)
      && (if s.M? then p.startX == p.x && p.startY == p.y else p.startX == pen.startX && p.startY == pen.startY)
      && (s.Z? ==> p.x == pen.startX && p.y == pen.startY)
  {
    hide Real, From;
    match s
    case M(rel, x, y) => FromValue(pen.x, rel, x); FromValue(pen.y, rel, y);
    case L(rel, x, y) => FromValue(pen.x, rel, x); FromValue(pen.y, rel, y);
    case H(rel, x) => FromValue(pen.x, rel, x);
    case V(rel, y) => FromValue(pen.y, rel, y);
    case C(rel, _, _, _, _, x, y) => FromValue(pen.x, rel, x); FromValue(pen.y, rel, y);
    case Z =>
  }

  /** What a segment draws: a move or a line or a curve to where it leads, its
      control points measured from the same place, or the closing stroke. */
  lemma SegmentDraws(pen: Pen, s: Segment)
    ensures var p, op := Moved(pen, s), Drawn(pen, s);
      && (s.M? ==> op == MoveTo(p.x, p.y))
      && (s.L? || s.H? || s.V? ==> op == LineTo(p.x, p.y))
      && (s.Z? ==> op == ClosePath)
      && (s.C? ==>
            && op.CurveTo? && op.x3 == p.x && op.y3 == p.y
            && Real(op.x1) == Origin(s.relative, pen.x) + Real(s.x1) && Real(op.y1) == Origin(s.relative, pen.y) + Real(s.y1)
            && Real(op.x2) == Origin(s.relative, pen.x) + Real(s.x2) && Real(op.y2) == Origin(s.relative, pen.y) + Real(s.y2))
  {
    hide Real, From;
    if s.C? {
      FromValue(pen.x, s.relative, s.x1);
      FromValue(pen.y, s.relative, s.y1);
      FromValue(pen.x, s.relative, s.x2);
      FromValue(pen.y, s.relative, s.y2);
    }
  }

  /** A number of digits only. */
  function Plain(before: string, digits: string): Numeral {
    Numeral(before, "", digits, "", "")
  }

  lemma PlainMeans(before: string, digits: string)
    requires Blank(before) && AllDigits(digits) && digits != ""
    ensures var n := Plain(before, digits);
      WellFormed(n) && NumeralText(n) == before + digits && Meant(n) == Dec(DigitsOf(digits), 0)
  {
    hide DigitsOf, Blank;
    assert digits + "" == digits;
  }

  lemma TwoPlain(b0: string, d0: string, b1: string, d1: string, rest: string)
    requires Blank(b0) && AllDigits(d0) && d0 != "" && Blank(b1) && b1 != "" && AllDigits(d1) && d1 != "" && CutsNumber(rest)
    ensures var ns := [Plain(b0, d0), Plain(b1, d1)];
      && NumeralsFit(ns, rest) && NumeralsText(ns, rest) == b0 + d0 + (b1 + d1 + rest)
      && Values(ns) == [Dec(DigitsOf(d0), 0), Dec(DigitsOf(d1), 0)]
  {
    hide DigitsOf, Blank, AllDigits, WellFormed, NumeralText, Meant, Plain, CutsNumber;
    BlankCuts(b1, d1 + rest);
    PlainMeans(b0, d0);
    PlainMeans(b1, d1);
    var n0, n1 := Plain(b0, d0), Plain(b1, d1);
    assert b1 + (d1 + rest) == b1 + d1 + rest;
    OneFits(n1, rest);
    assert [n0] + [n1] == [n0, n1];
    MoreFit(n0, [n1], rest);
  }

  lemma OneFits(n: Numeral, rest: string)
    requires WellFormed(n) && CutsNumber(rest)
    ensures NumeralsFit([n], rest) && NumeralsText([n], rest) == NumeralText(n) + rest && Values([n]) == [Meant(n)]
  {
    hide WellFormed, CutsNumber, NumeralText, Meant;
    assert [n][1..] == [] && NumeralsText([], rest) == rest;
  }

  lemma MoreFit(n: Numeral, more: seq<Numeral>, rest: string)
    requires WellFormed(n) && NumeralsFit(more, rest) && CutsNumber(NumeralsText(more, rest))
    ensures var ns := [n] + more;
      NumeralsFit(ns, rest) && NumeralsText(ns, rest) == NumeralText(n) + NumeralsText(more, rest) && Values(ns) == [Meant(n)] + Values(more)
  {
    hide WellFormed, CutsNumber, NumeralText, Meant;
    assert ([n] + more)[1..] == more;
  }

  lemma BlankCuts(b: string, t: string)
    requires Blank(b) && b != ""
    ensures CutsNumber(b + t)
  {
    assert (b + t)[0] == b[0];
  }

  function RepeatedPair(x: string, y: string, x2: string, y2: string): string {
    "M" + (x + (" " + y + (" " + x2 + (" " + y2))))
  }

  predicate Whole(s: string) {
    AllDigits(s) && s != ""
  }

  /** A move with a second pair behind it draws a line there, though no letter
      says so. */
  lemma RepeatedPairDraws(x: string, y: string, x2: string, y2: string)
    requires Whole(x) && Whole(y) && Whole(x2) && Whole(y2)
    ensures Walked(Start(RepeatedPair(x, y, x2, y2)))
      == Finished([MoveTo(Dec(DigitsOf(x), 0), Dec(DigitsOf(y), 0)), LineTo(Dec(DigitsOf(x2), 0), Dec(DigitsOf(y2), 0))])
  {
    hide DigitsOf, RepeatedPair, Parse, Walked, Whole;
    RepeatedPairReads(x, y, x2, y2);
    WalkedMeans(Start(RepeatedPair(x, y, x2, y2)));
    TwoDrawn(Dec(DigitsOf(x), 0), Dec(DigitsOf(y), 0), Dec(DigitsOf(x2), 0), Dec(DigitsOf(y2), 0));
  }

  lemma TwoDrawn(x: Dec, y: Dec, x2: Dec, y2: Dec)
    ensures [] + Interpreted(Home, [M(false, x, y), L(false, x2, y2)]) == [MoveTo(x, y), LineTo(x2, y2)]
  {
    var first, second := M(false, x, y), L(false, x2, y2);
    var pen := Moved(Home, first);
    assert Interpreted(Moved(pen, second), []) == [];
    assert [second][1..] == [];
    assert Interpreted(pen, [second]) == [LineTo(x2, y2)];
    assert [first, second][1..] == [second];
  }

  lemma TwoDigits(c: char, d: char)
    requires '0' <= c <= '9' && '0' <= d <= '9'
    ensures DigitsOf([d]) == d as int - '0' as int
    ensures DigitsOf([c, d]) == (c as int - '0' as int) * 10 + (d as int - '0' as int)
  {
    LastDigit([], c);
    LastDigit([], d);
    LastDigit([c], d);
    assert [] + [c] == [c] && [] + [d] == [d] && [c] + [d] == [c, d];
  }

  /** The source's own example. */
  lemma SourceExample()
    ensures Walked(Start("M12 3 21 12"))
      == Finished([MoveTo(Dec(12, 0), Dec(3, 0)), LineTo(Dec(21, 0), Dec(12, 0))])
  {
    hide Walked, DigitsOf;
    var x, y, z := "12", "3", "21";
    TwoDigits('1', '2');
    TwoDigits('0', '3');
    TwoDigits('2', '1');
    assert x == ['1', '2'] && y == ['3'] && z == ['2', '1'];
    assert DigitsOf(x) == 12 && DigitsOf(y) == 3 && DigitsOf(z) == 21;
    RepeatedPairDraws(x, y, z, x);
    assert RepeatedPair(x, y, z, x) == "M12 3 21 12";
  }

  lemma RepeatedPairReads(x: string, y: string, x2: string, y2: string)
    requires Whole(x) && Whole(y) && Whole(x2) && Whole(y2)
    ensures ParsePath(RepeatedPair(x, y, x2, y2))
      == Parsed([M(false, Dec(DigitsOf(x), 0), Dec(DigitsOf(y), 0)), L(false, Dec(DigitsOf(x2), 0), Dec(DigitsOf(y2), 0))], false)
  {
    hide Parse, NumeralsText, NumeralsFit, RepeatedPair, DigitsOf, Values;
    var line := " " + x2 + (" " + y2);
    assert Blank("") && Blank(" ") && CutsNumber("");
    assert " " + x2 + (" " + y2) == " " + (x2 + (" " + y2));
    BlankCuts(" ", x2 + (" " + y2));
    TwoPlain("", x, " ", y, line);
    TwoPlain(" ", x2, " ", y2, "");
    ReadsCommand(' ', Command("", Some('M'), [Plain("", x), Plain(" ", y)]), line);
    ReadsCommand('M', Command("", None, [Plain(" ", x2), Plain(" ", y2)]), "");
    EmptyParses('L');
    RepeatedPairText(x, y, x2, y2);
  }

  lemma RepeatedPairText(x: string, y: string, x2: string, y2: string)
    ensures var line := " " + x2 + (" " + y2);
      && "" + ['M'] + ("" + x + (" " + y + line)) == RepeatedPair(x, y, x2, y2)
      && "" + "" + (" " + x2 + (" " + y2 + "")) == line
  {
  }

  lemma EmptyParses(letter: char)
    ensures Parse(letter, "") == Parsed([], false)
  {
  }
}
