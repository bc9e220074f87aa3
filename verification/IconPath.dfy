/** The glyph interpreter: a scanner over the bytes of an SVG path and the loop
    that turns it into drawing operations - section 8.3 of SVG 1.1, less its arcs
    and smooth curves. Numbers are exact decimals. */
module IconPath {
  import opened Basics

  // ---- Exact decimals ----

  /** `digits / 10^scale` */
  datatype Dec = Dec(digits: int, scale: nat)

  const Zero := Dec(0, 0)

  function Pow10(n: nat): (r: nat)
    ensures r >= 1
  {
    if n == 0 then 1 else 10 * Pow10(n - 1)
  }

  function Add(a: Dec, b: Dec): Dec {
    if a.scale >= b.scale then Dec(a.digits + b.digits * Pow10(a.scale - b.scale), a.scale)
    else Dec(a.digits * Pow10(b.scale - a.scale) + b.digits, b.scale)
  }

  // ---- Drawing ----

  datatype Op =
    | MoveTo(x: Dec, y: Dec)
    | LineTo(x: Dec, y: Dec)
    | CurveTo(x1: Dec, y1: Dec, x2: Dec, y2: Dec, x3: Dec, y3: Dec)
    | ClosePath

  /** Where the pen is, and where the present outline began. */
  datatype Pen = Pen(x: Dec, y: Dec, startX: Dec, startY: Dec)

  const Home := Pen(Zero, Zero, Zero, Zero)

  datatype Point2 = Point2(x: Dec, y: Dec)

  datatype Segment =
    | M(relative: bool, x: Dec, y: Dec)
    | L(relative: bool, x: Dec, y: Dec)
    | H(relative: bool, x: Dec)
    | V(relative: bool, y: Dec)
    | C(relative: bool, x1: Dec, y1: Dec, x2: Dec, y2: Dec, x3: Dec, y3: Dec)
    | Z

  function From(origin: Dec, relative: bool, d: Dec): Dec {
    if relative then Add(origin, d) else d
  }

  function Moved(pen: Pen, s: Segment): Pen {
    match s
    case M(rel, x, y) => Pen(From(pen.x, rel, x), From(pen.y, rel, y), From(pen.x, rel, x), From(pen.y, rel, y))
    case L(rel, x, y) => pen.(x := From(pen.x, rel, x), y := From(pen.y, rel, y))
    case H(rel, x) => pen.(x := From(pen.x, rel, x))
    case V(rel, y) => pen.(y := From(pen.y, rel, y))
    case C(rel, _, _, _, _, x, y) => pen.(x := From(pen.x, rel, x), y := From(pen.y, rel, y))
    case Z => pen.(x := pen.startX, y := pen.startY)
  }

  function Drawn(pen: Pen, s: Segment): Op {
    match s
    case M(rel, x, y) => MoveTo(From(pen.x, rel, x), From(pen.y, rel, y))
    case L(rel, x, y) => LineTo(From(pen.x, rel, x), From(pen.y, rel, y))
    case H(rel, x) => LineTo(From(pen.x, rel, x), pen.y)
    case V(rel, y) => LineTo(pen.x, From(pen.y, rel, y))
    case C(rel, x1, y1, x2, y2, x3, y3) =>
      CurveTo(From(pen.x, rel, x1), From(pen.y, rel, y1), From(pen.x, rel, x2), From(pen.y, rel, y2),
              From(pen.x, rel, x3), From(pen.y, rel, y3))
    case Z => ClosePath
  }

  /** The meaning of a list of segments. */
  function Interpreted(pen: Pen, segments: seq<Segment>): seq<Op>
    decreases |segments|
  {
    if segments == [] then []
    else [Drawn(pen, segments[0])] + Interpreted(Moved(pen, segments[0]), segments[1..])
  }

  function PenAfter(pen: Pen, segments: seq<Segment>): Pen
    decreases |segments|
  {
    if segments == [] then pen else PenAfter(Moved(pen, segments[0]), segments[1..])
  }

  /** Where an operation leaves the pen; closing leads back to where the last
      move began the outline. */
  function EndOf(ops: seq<Op>): Point2 {
    if ops == [] then Point2(Zero, Zero)
    else match ops[|ops| - 1]
      case MoveTo(x, y) => Point2(x, y)
      case LineTo(x, y) => Point2(x, y)
      case CurveTo(_, _, _, _, x, y) => Point2(x, y)
      case ClosePath => Began(ops)
  }

  /** Where the last move led, or the origin. */
  function Began(ops: seq<Op>): Point2 {
    if ops == [] then Point2(Zero, Zero)
    else match ops[|ops| - 1]
      case MoveTo(x, y) => Point2(x, y)
      case _ => Began(ops[..|ops| - 1])
  }

  lemma {:induction false} PenAfterPush(pen: Pen, segments: seq<Segment>, s: Segment)
    ensures PenAfter(pen, segments + [s]) == Moved(PenAfter(pen, segments), s)
    ensures Interpreted(pen, segments + [s]) == Interpreted(pen, segments) + [Drawn(PenAfter(pen, segments), s)]
    decreases |segments|
  {
    if segments == [] {
      assert segments + [s] == [s] && [s][1..] == [];
    } else {
      assert (segments + [s])[1..] == segments[1..] + [s];
      PenAfterPush(Moved(pen, segments[0]), segments[1..], s);
    }
  }

  /** The pen always is where what has been drawn leaves it, so that a relative
      command is relative to the end of the one before, and to the beginning of
      the outline after it was closed. */
  lemma {:induction false} PenFollows(segments: seq<Segment>)
    ensures var pen := PenAfter(Home, segments); var ops := Interpreted(Home, segments);
      EndOf(ops) == Point2(pen.x, pen.y) && Began(ops) == Point2(pen.startX, pen.startY)
    decreases |segments|
  {
    if segments != [] {
      var front := segments[..|segments| - 1];
      var s := segments[|segments| - 1];
      assert front + [s] == segments;
      PenFollows(front);
      PenAfterPush(Home, front, s);
      var ops := Interpreted(Home, front);
      assert (ops + [Drawn(PenAfter(Home, front), s)])[..|ops|] == ops;
    }
  }

  // ---- Scanning ----

  predicate IsSeparator(c: char) {
    c in {' ', ',', '\t', '\n', '\r'}
  }

  predicate IsLetter(c: char) {
    'a' <= c <= 'z' || 'A' <= c <= 'Z'
  }

  predicate IsLower(c: char) {
    'a' <= c <= 'z'
  }

  function Upper(c: char): char {
    if IsLower(c) then c - 'a' + 'A' else c
  }

  predicate IsDigit(c: char) {
    '0' <= c <= '9'
  }

  predicate IsNumeral(c: char) {
    IsDigit(c) || c == '.'
  }

  function Skip(s: string): (r: string)
    ensures |r| <= |s| && (r != [] ==> !IsSeparator(r[0]))
  {
    if s != [] && IsSeparator(s[0]) then Skip(s[1..]) else s
  }

  /** The length of the run of digits and points at the front. */
  function NumeralRun(s: string): (n: nat)
    ensures n <= |s|
    ensures forall i :: 0 <= i < n ==> IsNumeral(s[i])
    ensures n < |s| ==> !IsNumeral(s[n])
  {
    if s != [] && IsNumeral(s[0]) then 1 + NumeralRun(s[1..]) else 0
  }

  function SignLength(s: string): nat {
    if s != [] && s[0] in {'-', '+'} then 1 else 0
  }

  function DigitsOf(s: string): nat {
    if s == [] then 0
    else DigitsOf(s[..|s| - 1]) * 10 + if IsDigit(s[|s| - 1]) then (s[|s| - 1] - '0') as nat else 0
  }

  /** Where the first point is, or the length. */
  function Point(s: string): (n: nat)
    ensures n <= |s|
    ensures forall i :: 0 <= i < n ==> s[i] != '.'
    ensures n < |s| ==> s[n] == '.'
  {
    if s == [] || s[0] == '.' then 0 else 1 + Point(s[1..])
  }

  /** What Rust's `f64::from_str` makes of an unsigned run of digits and points. */
  function Magnitude(s: string): Option<Dec> {
    var p := Point(s);
    var fraction := if p < |s| then s[p + 1..] else "";
    if '.' in fraction || p + |fraction| == 0 then None
    else Some(Dec(DigitsOf(s[..p] + fraction), |fraction|))
  }

  function Value(s: string): Option<Dec> {
    var m := Magnitude(s[SignLength(s)..]);
    if m.Some? && s[0] == '-' then Some(Dec(-m.value.digits, m.value.scale)) else m
  }

  function NumberLength(s: string): (n: nat)
    ensures n <= |s|
  {
    SignLength(s) + NumeralRun(s[SignLength(s)..])
  }

  datatype Scan<T> = Scan(value: Option<T>, rest: string)

  function ReadNumber(s: string): (r: Scan<Dec>)
    ensures |r.rest| <= |s| && (r.value.Some? ==> |r.rest| < |s|)
  {
    var t := Skip(s);
    var n := NumberLength(t);
    if n == 0 then Scan(None, t) else Scan(Value(t[..n]), t[n..])
  }

  function ReadPair(s: string): (r: Scan<Point2>)
    ensures |r.rest| <= |s| && (r.value.Some? ==> |r.rest| < |s|)
  {
    var a := ReadNumber(s);
    if a.value == None then Scan(None, a.rest)
    else
      var b := ReadNumber(a.rest);
      if b.value == None then Scan(None, b.rest) else Scan(Some(Point2(a.value.value, b.value.value)), b.rest)
  }

  // ---- The walk ----

  datatype Walker = Walker(rest: string, command: char, pen: Pen, ops: seq<Op>)

  function Start(path: string): Walker {
    Walker(path, ' ', Home, [])
  }

  /** The arguments of a command. */
  function ReadSegment(command: char, s: string): (r: Scan<Segment>)
    ensures |r.rest| <= |s| && (r.value.Some? && r.value.value != Z ==> |r.rest| < |s|)
    ensures r.value == Some(Z) ==> r.rest == s
    ensures r.value == Some(Z) <==> Upper(command) == 'Z'
  {
    var relative := IsLower(command);
    match Upper(command)
    case 'M' =>
      var a := ReadPair(s);
      Scan(if a.value == None then None else Some(M(relative, a.value.value.x, a.value.value.y)), a.rest)
    case 'L' =>
      var a := ReadPair(s);
      Scan(if a.value == None then None else Some(L(relative, a.value.value.x, a.value.value.y)), a.rest)
    case 'H' =>
      var a := ReadNumber(s);
      Scan(if a.value == None then None else Some(H(relative, a.value.value)), a.rest)
    case 'V' =>
      var a := ReadNumber(s);
      Scan(if a.value == None then None else Some(V(relative, a.value.value)), a.rest)
    case 'C' => ReadCurve(relative, s)
    case 'Z' => Scan(Some(Z), s)
    case _ => Scan(None, s)
  }

  function ReadCurve(relative: bool, s: string): (r: Scan<Segment>)
    ensures |r.rest| <= |s| && (r.value.Some? ==> |r.rest| < |s| && r.value.value.C?)
  {
    var a := ReadPair(s);
    var b := ReadPair(a.rest);
    var c := ReadPair(b.rest);
    if a.value == None || b.value == None || c.value == None then Scan(None, c.rest)
    else Scan(Some(C(relative, a.value.value.x, a.value.value.y, b.value.value.x, b.value.value.y,
                     c.value.value.x, c.value.value.y)), c.rest)
  }

  /** A pair after a move with no letter of its own is a line. */
  function Implied(command: char): char {
    if command == 'M' then 'L' else if command == 'm' then 'l' else command
  }

  /** The command that is about to be carried out, and the text of its arguments. */
  function NextCommand(command: char, s: string): char
    requires s != []
  {
    if IsLetter(s[0]) then s[0] else Implied(command)
  }

  function Arguments(s: string): (r: string)
    requires s != []
    ensures |r| <= |s|
  {
    if IsLetter(s[0]) then s[1..] else s
  }

  /** One turn of the loop, or `None` when the loop ends. */
  function Turn(w: Walker): Option<Walker> {
    var s := Skip(w.rest);
    if s == [] then None
    else
      var command := NextCommand(w.command, s);
      var read := ReadSegment(command, Arguments(s));
      if read.value == None then None
      else Some(Walker(read.rest, command, Moved(w.pen, read.value.value), w.ops + [Drawn(w.pen, read.value.value)]))
  }

  function Turns(w: Walker, n: nat): Option<Walker>
    decreases n
  {
    if n == 0 then Some(w)
    else
      var v := Turn(w);
      if v == None then None else Turns(v.value, n - 1)
  }

  /** An outline has just been closed and something other than a command follows. */
  predicate Spinning(w: Walker) {
    Upper(w.command) == 'Z' && Skip(w.rest) != [] && !IsLetter(Skip(w.rest)[0])
  }

  lemma SkipTwice(s: string)
    ensures Skip(Skip(s)) == Skip(s)
  {
  }

  /** Such a turn consumes nothing and closes the outline again, for ever. */
  lemma SpinsOn(w: Walker)
    requires Spinning(w)
    ensures Turn(w) == Some(Walker(Skip(w.rest), w.command, Moved(w.pen, Z), w.ops + [ClosePath]))
    ensures Spinning(Turn(w).value)
  {
    SkipTwice(w.rest);
  }

  /** Any other turn consumes something. */
  lemma TurnsShorten(w: Walker)
    requires !Spinning(w)
    ensures Turn(w).Some? ==> |Turn(w).value.rest| < |w.rest|
  {
  }

  datatype Walk = Finished(ops: seq<Op>) | Hung(ops: seq<Op>)

  function Walked(w: Walker): Walk
    decreases |w.rest|
  {
    if Spinning(w) then Hung(w.ops)
    else
      TurnsShorten(w);
      var v := Turn(w);
      if v == None then Finished(w.ops) else Walked(v.value)
  }

  lemma {:induction false} SpinsForever(w: Walker, n: nat)
    requires Spinning(w)
    ensures Turns(w, n).Some? && |Turns(w, n).value.ops| == |w.ops| + n
    decreases n
  {
    hide Turn, Spinning;
    if n > 0 {
      SpinsOn(w);
      SpinsForever(Turn(w).value, n - 1);
    }
  }

  /** The loop ends exactly when it never meets, after a closing command, a token
      that is not a command; `Walked` tells which, and what was drawn by then. */
  lemma {:induction false} EndsIff(w: Walker)
    ensures Walked(w).Finished? <==> Ends(w)
    ensures Walked(w).Hung? <==> Hangs(w)
    decreases |w.rest|
  {
    hide Turn, Spinning;
    assert Turns(w, 0) == Some(w);
    if Spinning(w) {
      forall n: nat ensures Turns(w, n).Some? { SpinsForever(w, n); }
    } else {
      TurnsShorten(w);
      if Turn(w) == None {
        assert Turns(w, 1) == None;
        forall n: nat ensures n > 0 ==> Turns(w, n) == None {}
      } else {
        EndsIff(Turn(w).value);
        LaterTurns(w);
      }
    }
  }

  lemma TurnsUnfold(w: Walker, n: nat)
    requires Turn(w).Some?
    ensures Turns(w, n + 1) == Turns(Turn(w).value, n)
  {
    hide Turn;
  }

  ghost predicate Ends(w: Walker) {
    exists n: nat :: Turns(w, n) == None
  }

  ghost predicate Hangs(w: Walker) {
    exists n: nat :: Turns(w, n).Some? && Spinning(Turns(w, n).value)
  }

  lemma LaterTurns(w: Walker)
    requires Turn(w).Some? && !Spinning(w)
    ensures Ends(w) <==> Ends(Turn(w).value)
    ensures Hangs(w) <==> Hangs(Turn(w).value)
  {
    var v := Turn(w).value;
    forall n: nat ensures Turns(w, n + 1) == Turns(v, n) { TurnsUnfold(w, n); }
    assert Turns(w, 0) == Some(w);
    hide Turn, Turns, Spinning;
    if Ends(w) {
      var n: nat :| Turns(w, n) == None;
      assert Turns(w, (n - 1) + 1) == Turns(v, n - 1);
    }
    if Ends(v) {
      var n: nat :| Turns(v, n) == None;
      assert Turns(w, n + 1) == None;
    }
    if Hangs(w) {
      var n: nat :| Turns(w, n).Some? && Spinning(Turns(w, n).value);
      assert Turns(w, (n - 1) + 1) == Turns(v, n - 1);
    }
    if Hangs(v) {
      var n: nat :| Turns(v, n).Some? && Spinning(Turns(v, n).value);
      assert Turns(w, n + 1) == Turns(v, n);
    }
  }

  /** No closing letter of the text is followed, past separators, by a token
      that is not a command. */
  predicate ClosesWell(path: string) {
    forall i :: 0 <= i < |path| && Upper(path[i]) == 'Z' ==>
      var s := Skip(path[i + 1..]); s == [] || IsLetter(s[0])
  }

  /** The walk stands at a place in the text, right behind the letter if it has
      just closed an outline. */
  predicate StandsIn(w: Walker, path: string, k: nat) {
    k <= |path| && w.rest == path[k..] && (Upper(w.command) == 'Z' ==> k > 0 && path[k - 1] == w.command)
  }

  predicate Tail(r: string, s: string) {
    |r| <= |s| && r == s[|s| - |r|..]
  }

  lemma TailOfTail(a: string, b: string, c: string)
    requires Tail(a, b) && Tail(b, c)
    ensures Tail(a, c)
  {
  }

  lemma {:induction false} SkipTail(s: string)
    ensures Tail(Skip(s), s)
    decreases |s|
  {
    if s != [] && IsSeparator(s[0]) {
      SkipTail(s[1..]);
      TailOfTail(Skip(s), s[1..], s);
    }
  }

  lemma NumberTail(s: string)
    ensures Tail(ReadNumber(s).rest, s)
  {
    var t := Skip(s);
    SkipTail(s);
    assert Tail(t[NumberLength(t)..], t);
    TailOfTail(ReadNumber(s).rest, t, s);
  }

  lemma PairTail(s: string)
    ensures Tail(ReadPair(s).rest, s)
  {
    var a := ReadNumber(s);
    NumberTail(s);
    NumberTail(a.rest);
    hide ReadNumber, Tail;
    TailOfTail(ReadNumber(a.rest).rest, a.rest, s);
  }

  lemma CurveTail(relative: bool, s: string)
    ensures Tail(ReadCurve(relative, s).rest, s)
  {
    hide ReadPair, Tail;
    var a := ReadPair(s);
    var b := ReadPair(a.rest);
    var c := ReadPair(b.rest);
    PairTail(s);
    PairTail(a.rest);
    PairTail(b.rest);
    TailOfTail(b.rest, a.rest, s);
    TailOfTail(c.rest, b.rest, s);
  }

  lemma SegmentTail(command: char, s: string)
    ensures Tail(ReadSegment(command, s).rest, s)
  {
    PairTail(s);
    NumberTail(s);
    CurveTail(IsLower(command), s);
    hide ReadPair, ReadNumber, ReadCurve;
    assert Tail(s, s);
  }

  lemma TurnTail(w: Walker)
    requires Turn(w).Some?
    ensures Tail(Turn(w).value.rest, w.rest)
  {
    var s := Skip(w.rest);
    var a := Arguments(s);
    var rest := Turn(w).value.rest;
    SegmentTail(NextCommand(w.command, s), a);
    assert Tail(a, s);
    SkipTail(w.rest);
    hide Tail, Skip, ReadSegment;
    TailOfTail(rest, a, s);
    TailOfTail(rest, s, w.rest);
  }

  lemma TailHead(s: string, path: string)
    requires Tail(s, path) && s != []
    ensures path[|path| - |s|] == s[0]
  {
  }

  lemma ClosingStands(w: Walker, path: string)
    requires Tail(w.rest, path) && !Spinning(w) && Turn(w).Some? && Upper(Turn(w).value.command) == 'Z'
    ensures var v := Turn(w).value; |v.rest| < |path| && path[|path| - |v.rest| - 1] == v.command
  {
    ClosingTurn(w);
    var s := Skip(w.rest);
    SkipTail(w.rest);
    hide Turn, Skip, Spinning, Upper, IsLetter;
    TailOfTail(s, w.rest, path);
    TailHead(s, path);
  }

  lemma TurnStandsIn(w: Walker, path: string, k: nat) returns (j: nat)
    requires StandsIn(w, path, k) && !Spinning(w) && Turn(w).Some?
    ensures StandsIn(Turn(w).value, path, j)
  {
    hide Turn, Spinning, Upper;
    var v := Turn(w).value;
    TurnTail(w);
    assert Tail(w.rest, path);
    TailOfTail(v.rest, w.rest, path);
    j := |path| - |v.rest|;
    if Upper(v.command) == 'Z' { ClosingStands(w, path); }
  }

  /** A closing command has just been named, and takes no arguments. */
  lemma ClosingTurn(w: Walker)
    requires !Spinning(w) && Turn(w).Some? && Upper(Turn(w).value.command) == 'Z'
    ensures var s := Skip(w.rest); IsLetter(s[0]) && Turn(w).value.command == s[0] && Turn(w).value.rest == s[1..]
  {
  }

  /** A text whose closing letters are all followed by commands is always walked
      to an end. */
  lemma {:induction false} ClosesWellEnds(w: Walker, path: string, k: nat)
    requires ClosesWell(path) && StandsIn(w, path, k)
    ensures Walked(w).Finished?
    decreases |w.rest|
  {
    assert !Spinning(w);
    if Turn(w).Some? {
      TurnsShorten(w);
      var j := TurnStandsIn(w, path, k);
      ClosesWellEnds(Turn(w).value, path, j);
    }
  }

  lemma TerminatesOn(path: string)
    requires ClosesWell(path)
    ensures Walked(Start(path)).Finished? && Ends(Start(path))
  {
    ClosesWellEnds(Start(path), path, 0);
    EndsIff(Start(path));
  }

  // ---- The scanner and the loop themselves ----

  class Tokens {
    const bytes: string
    var at: nat

    constructor (path: string)
      ensures bytes == path && at == 0
    {
      bytes, at := path, 0;
    }

    ghost predicate Valid()
      reads this
    {
      at <= |bytes|
    }

    function Rest(): string
      requires Valid()
      reads this
    {
      bytes[at..]
    }

    method SkipSeparators()
      requires Valid()
      modifies this`at
      ensures Valid() && Rest() == Skip(old(Rest()))
    {
      while at < |bytes| && IsSeparator(bytes[at])
        invariant Valid() && Skip(Rest()) == Skip(old(Rest()))
      {
        assert Rest()[1..] == bytes[at + 1..];
        at := at + 1;
      }
    }

    method PeekCommand() returns (c: Option<char>)
      requires Valid()
      modifies this`at
      ensures Valid() && Rest() == Skip(old(Rest()))
      ensures c == if Rest() == [] then None else Some(Rest()[0])
    {
      SkipSeparators();
      c := if at < |bytes| then Some(bytes[at]) else None;
    }

    method TakeCommand() returns (c: char)
      requires Valid() && Rest() != []
      modifies this`at
      ensures Valid() && c == old(Rest())[0] && Rest() == old(Rest())[1..]
    {
      c := bytes[at];
      at := at + 1;
    }

    method SkipNumerals()
      requires Valid()
      modifies this`at
      ensures Valid() && at == old(at) + NumeralRun(old(Rest()))
    {
      while at < |bytes| && IsNumeral(bytes[at])
        invariant Valid() && at + NumeralRun(Rest()) == old(at) + NumeralRun(old(Rest()))
      {
        assert Rest()[1..] == bytes[at + 1..];
        at := at + 1;
      }
    }

    method Number() returns (d: Option<Dec>)
      requires Valid()
      modifies this`at
      ensures Valid() && Scan(d, Rest()) == ReadNumber(old(Rest()))
    {
      hide NumeralRun, Skip, Value;
      SkipSeparators();
      ghost var text := Rest();
      var start := at;
      if at < |bytes| && bytes[at] in {'-', '+'} {
        at := at + 1;
      }
      assert Rest() == text[SignLength(text)..];
      SkipNumerals();
      assert at == start + NumberLength(text);
      if start == at { return None; }
      CutOut(start, at);
      d := Value(bytes[start..at]);
    }

    lemma CutOut(i: nat, j: nat)
      requires i <= j <= |bytes|
      ensures bytes[i..][..j - i] == bytes[i..j] && bytes[i..][j - i..] == bytes[j..]
    {
    }

    method Pair() returns (p: Option<Point2>)
      requires Valid()
      modifies this`at
      ensures Valid() && Scan(p, Rest()) == ReadPair(old(Rest()))
    {
      hide ReadNumber;
      p := None;
      var x := Number();
      if x == None { return; }
      var y := Number();
      if y == None { return; }
      p := Some(Point2(x.value, y.value));
    }

    /** The three pairs of a curve; all are read even when one fails. */
    method Curve(relative: bool) returns (s: Option<Segment>)
      requires Valid()
      modifies this`at
      ensures Valid() && Scan(s, Rest()) == ReadCurve(relative, old(Rest()))
    {
      hide ReadPair;
      var a := Pair();
      var b := Pair();
      var c := Pair();
      if a == None || b == None || c == None { return None; }
      s := Some(C(relative, a.value.x, a.value.y, b.value.x, b.value.y, c.value.x, c.value.y));
    }

    method Arguments(command: char) returns (s: Option<Segment>)
      requires Valid()
      modifies this`at
      ensures Valid() && Scan(s, Rest()) == ReadSegment(command, old(Rest()))
    {
      hide ReadPair, ReadNumber, ReadCurve;
      var relative := IsLower(command);
      s := None;
      match Upper(command)
      case 'M' =>
        var a := Pair();
        if a.Some? { s := Some(M(relative, a.value.x, a.value.y)); }
      case 'L' =>
        var a := Pair();
        if a.Some? { s := Some(L(relative, a.value.x, a.value.y)); }
      case 'H' =>
        var a := Number();
        if a.Some? { s := Some(H(relative, a.value)); }
      case 'V' =>
        var a := Number();
        if a.Some? { s := Some(V(relative, a.value)); }
      case 'C' =>
        s := Curve(relative);
      case 'Z' =>
        s := Some(Z);
      case _ =>
    }
  }

  /** The loop. Where the original would close the outline for ever, `hung` is
      set and `ops` is what had been drawn. */
  method Trace(path: string) returns (ops: seq<Op>, hung: bool)
    ensures Walked(Start(path)) == if hung then Hung(ops) else Finished(ops)
  {
    var tokens := new Tokens(path);
    var pen := Home;
    var command := ' ';
    ops, hung := [], false;
    ghost var start := Start(path);
    while true
      invariant tokens.Valid() && Walked(Walker(tokens.Rest(), command, pen, ops)) == Walked(start)
      decreases |tokens.Rest()|
    {
      ghost var w := Walker(tokens.Rest(), command, pen, ops);
      var token := tokens.PeekCommand();
      if Upper(command) == 'Z' && token.Some? && !IsLetter(token.value) {
        hung := true;
        break;
      }
      if token == None { break; }
      if IsLetter(token.value) {
        command := tokens.TakeCommand();
      } else if command == 'M' {
        command := 'L';
      } else if command == 'm' {
        command := 'l';
      }
      var s := tokens.Arguments(command);
      if s == None { break; }
      ops := ops + [Drawn(pen, s.value)];
      pen := Moved(pen, s.value);
      assert Turn(w) == Some(Walker(tokens.Rest(), command, pen, ops)) by {
        hide ReadSegment, Skip, Moved, Drawn;
      }
      TurnsShorten(w);
    }
  }

  // ---- Which texts hang ----

  lemma LetterStays(t: string)
    requires t != [] && IsLetter(t[0])
    ensures Skip(t) == t
  {
    assert t[0] != ' ' && t[0] != ',' && t[0] != '\t' && t[0] != '\n' && t[0] != '\r';
  }

  lemma {:induction false} SkipAppend(s: string, t: string)
    requires t != [] && IsLetter(t[0])
    ensures Skip(s + t) == Skip(s) + t
    decreases |s|
  {
    if s == [] {
      LetterStays(t);
      assert s + t == t && Skip(s) == [] && [] + t == t;
    } else {
      assert (s + t)[1..] == s[1..] + t;
      if IsSeparator(s[0]) { SkipAppend(s[1..], t); }
    }
  }

  lemma {:induction false} NumeralRunAppend(s: string, t: string)
    requires t != [] && IsLetter(t[0])
    ensures NumeralRun(s + t) == NumeralRun(s)
    decreases |s|
  {
    if s == [] {
      assert s + t == t;
    } else {
      assert (s + t)[1..] == s[1..] + t;
      if IsNumeral(s[0]) { NumeralRunAppend(s[1..], t); }
    }
  }

  lemma NumberLengthAppend(u: string, t: string)
    requires t != [] && IsLetter(t[0])
    ensures NumberLength(u + t) == NumberLength(u)
  {
    var k := SignLength(u);
    assert SignLength(u + t) == k;
    assert (u + t)[k..] == u[k..] + t;
    NumeralRunAppend(u[k..], t);
    hide NumeralRun;
  }

  /** Numbers end before a letter, so that what follows it does not matter. */
  lemma NumberAppend(s: string, t: string)
    requires t != [] && IsLetter(t[0])
    ensures ReadNumber(s + t) == ReadNumber(s).(rest := ReadNumber(s).rest + t)
  {
    SkipAppend(s, t);
    var u := Skip(s);
    NumberLengthAppend(u, t);
    hide Skip, Value, NumberLength;
    var n := NumberLength(u);
    assert (u + t)[..n] == u[..n] && (u + t)[n..] == u[n..] + t;
  }

  lemma PairAppend(s: string, t: string)
    requires t != [] && IsLetter(t[0])
    ensures ReadPair(s + t) == ReadPair(s).(rest := ReadPair(s).rest + t)
  {
    NumberAppend(s, t);
    NumberAppend(ReadNumber(s).rest, t);
    hide ReadNumber;
  }

  lemma CurveAppend(relative: bool, s: string, t: string)
    requires t != [] && IsLetter(t[0])
    ensures ReadCurve(relative, s + t) == ReadCurve(relative, s).(rest := ReadCurve(relative, s).rest + t)
  {
    PairAppend(s, t);
    PairAppend(ReadPair(s).rest, t);
    PairAppend(ReadPair(ReadPair(s).rest).rest, t);
    hide ReadPair;
  }

  lemma PairSegmentAppend(command: char, s: string, t: string)
    requires t != [] && IsLetter(t[0]) && Upper(command) in {'M', 'L'}
    ensures ReadSegment(command, s + t) == ReadSegment(command, s).(rest := ReadSegment(command, s).rest + t)
  {
    PairAppend(s, t);
    hide ReadPair, ReadNumber, ReadCurve, Upper, IsLower;
  }

  lemma NumberSegmentAppend(command: char, s: string, t: string)
    requires t != [] && IsLetter(t[0]) && Upper(command) in {'H', 'V'}
    ensures ReadSegment(command, s + t) == ReadSegment(command, s).(rest := ReadSegment(command, s).rest + t)
  {
    NumberAppend(s, t);
    hide ReadPair, ReadNumber, ReadCurve, Upper, IsLower;
  }

  lemma CurveSegmentAppend(command: char, s: string, t: string)
    requires t != [] && IsLetter(t[0]) && Upper(command) == 'C'
    ensures ReadSegment(command, s + t) == ReadSegment(command, s).(rest := ReadSegment(command, s).rest + t)
  {
    CurveAppend(IsLower(command), s, t);
    hide ReadPair, ReadNumber, ReadCurve, Upper, IsLower;
  }

  lemma SegmentAppend(command: char, s: string, t: string)
    requires t != [] && IsLetter(t[0])
    ensures ReadSegment(command, s + t) == ReadSegment(command, s).(rest := ReadSegment(command, s).rest + t)
  {
    if Upper(command) in {'M', 'L'} {
      PairSegmentAppend(command, s, t);
    } else if Upper(command) in {'H', 'V'} {
      NumberSegmentAppend(command, s, t);
    } else if Upper(command) == 'C' {
      CurveSegmentAppend(command, s, t);
    } else {
      hide Upper, IsLower, ReadPair, ReadNumber, ReadCurve;
    }
  }

  /** A turn that finds something to do in `s` does the same with more behind it. */
  lemma TurnAppend(w: Walker, t: string)
    requires t != [] && IsLetter(t[0]) && Skip(w.rest) != []
    ensures Turn(w.(rest := w.rest + t)) == (
      match Turn(w)
      case None => None
      case Some(v) => Some(v.(rest := v.rest + t)))
    ensures Spinning(w.(rest := w.rest + t)) <==> Spinning(w)
  {
    SkipAppend(w.rest, t);
    var s := Skip(w.rest);
    var command := NextCommand(w.command, s);
    assert (s + t)[0] == s[0];
    assert Arguments(s + t) == Arguments(s) + t by { if IsLetter(s[0]) { assert (s + t)[1..] == s[1..] + t; } }
    SegmentAppend(command, Arguments(s), t);
    hide ReadSegment, Skip, Moved, Drawn, Upper;
  }

  /** The walker once it has consumed all of its text, or nothing if it stops or
      hangs before. */
  function Through(w: Walker): Option<Walker>
    decreases |w.rest|
  {
    if Skip(w.rest) == [] then Some(w)
    else if Spinning(w) then None
    else
      TurnsShorten(w);
      var v := Turn(w);
      if v == None then None else Through(v.value)
  }

  /** What is consumed whole can be walked first. */
  lemma {:induction false} WalkOn(w: Walker, t: string)
    requires t != [] && IsLetter(t[0]) && Through(w).Some?
    ensures exists v: Walker :: Skip(v.rest) == [] && Walked(w.(rest := w.rest + t)) == Walked(v.(rest := v.rest + t))
    decreases |w.rest|
  {
    hide Turn, Spinning, Skip;
    if Skip(w.rest) != [] {
      TurnsShorten(w);
      TurnAppend(w, t);
      WalkOn(Turn(w).value, t);
      WalkedStep(w.(rest := w.rest + t));
    }
  }

  lemma WalkedStep(w: Walker)
    requires !Spinning(w) && Turn(w).Some?
    ensures Walked(w) == Walked(Turn(w).value)
  {
    TurnsShorten(w);
    hide Turn, Spinning;
  }

  /** A text that closes an outline and goes on with something that is no command. */
  predicate ClosesBadly(t: string) {
    t != [] && Upper(t[0]) == 'Z' && Skip(t[1..]) != [] && !IsLetter(Skip(t[1..])[0])
  }

  lemma ClosingHangs(w: Walker, t: string)
    requires Skip(w.rest) == [] && ClosesBadly(t)
    ensures Walked(w.(rest := w.rest + t)).Hung?
  {
    var u := w.(rest := w.rest + t);
    assert IsLetter(t[0]);
    SkipAppend(w.rest, t);
    assert [] + t == t;
    assert Skip(u.rest) == t;
    assert !Spinning(u);
    var v := Turn(u).value;
    assert v.command == t[0] && v.rest == t[1..];
    WalkedStep(u);
    assert Spinning(v);
  }

  /** Where a text is split before a closing letter that is followed badly, with all
      before it consumed. */
  ghost predicate HangsAt(w: Walker, s: string, t: string) {
    w.rest == s + t && ClosesBadly(t) && Through(w.(rest := s)).Some?
  }

  lemma {:induction false} HangsSomewhere(w: Walker) returns (s: string, t: string)
    requires !Spinning(w) && Walked(w).Hung?
    ensures HangsAt(w, s, t)
    decreases |w.rest|
  {
    TurnsShorten(w);
    var v := Turn(w).value;
    if Spinning(v) {
      s, t := ClosedHere(w);
    } else {
      hide Spinning;
      var before, after := HangsSomewhere(v);
      s, t := HangsBefore(w, before, after);
    }
  }

  /** The turn has just closed an outline. */
  lemma ClosedHere(w: Walker) returns (s: string, t: string)
    requires !Spinning(w) && Turn(w).Some? && Spinning(Turn(w).value)
    ensures HangsAt(w, s, t)
  {
    ClosingTurn(w);
    SkipTail(w.rest);
    t := Skip(w.rest);
    s := w.rest[..|w.rest| - |t|];
    assert w.rest == s + t;
    SkipAppend(s, t);
    assert |Skip(s) + t| == |t|;
    assert Skip(s) == [];
  }

  /** A later place where it hangs is one for the walker before the turn, too. */
  lemma HangsBefore(w: Walker, before: string, after: string) returns (s: string, t: string)
    requires !Spinning(w) && Turn(w).Some? && HangsAt(Turn(w).value, before, after)
    ensures HangsAt(w, s, t)
  {
    var v := Turn(w).value;
    t := after;
    TurnTail(w);
    var used := w.rest[..|w.rest| - |v.rest|];
    assert w.rest == used + v.rest;
    s := used + before;
    assert w.rest == s + t;
    TurnWithin(w, s, t, before);
    ThroughStep(w.(rest := s));
    hide Turn, Spinning, Skip, ClosesBadly, Through;
  }

  lemma ThroughStep(w: Walker)
    requires Skip(w.rest) != [] && !Spinning(w) && Turn(w).Some?
    ensures Through(w) == Through(Turn(w).value)
  {
    TurnsShorten(w);
    hide Turn, Spinning, Skip;
  }

  /** A turn that leaves the closing letter alone does the same without it. */
  lemma TurnWithin(w: Walker, s: string, t: string, before: string)
    requires w.rest == s + t && ClosesBadly(t) && !Spinning(w) && Turn(w).Some? && Turn(w).value.rest == before + t
    ensures var x := w.(rest := s);
      Skip(s) != [] && !Spinning(x) && Turn(x) == Some(Turn(w).value.(rest := before))
  {
    var x := w.(rest := s);
    assert w == x.(rest := s + t);
    assert IsLetter(t[0]);
    SkipAppend(s, t);
    if Skip(s) == [] { assert [] + t == t; TakesLetter(w, t); }
    TurnAppend(x, t);
    hide Turn, Spinning, Skip, ClosesBadly;
    SameBefore(Turn(x).value.rest, before, t);
  }

  lemma SameBefore(a: string, b: string, t: string)
    requires a + t == b + t
    ensures a == b
  {
    assert |a| == |b|;
    assert a == (a + t)[..|a|] && b == (b + t)[..|b|];
  }

  lemma TakesLetter(w: Walker, t: string)
    requires Skip(w.rest) == t && t != [] && Upper(t[0]) == 'Z' && Turn(w).Some?
    ensures |Turn(w).value.rest| < |t|
  {
  }

  /** A path hangs the walk if and only if it can be split before a closing letter
      that is followed, past separators, by something that is no command, with all
      in front of that letter consumed by the walk. */
  lemma HangsIff(path: string)
    ensures Walked(Start(path)).Hung? <==> exists s, t :: HangsAt(Start(path), s, t)
  {
    if Walked(Start(path)).Hung? {
      var s, t := HangsSomewhere(Start(path));
    }
    if s, t :| HangsAt(Start(path), s, t) {
      var w := Start(path).(rest := s);
      assert IsLetter(t[0]);
      WalkOn(w, t);
      var v: Walker :| Skip(v.rest) == [] && Walked(w.(rest := w.rest + t)) == Walked(v.(rest := v.rest + t));
      ClosingHangs(v, t);
      assert Start(path) == w.(rest := w.rest + t);
    }
  }

  // ---- Rewriting a path ----

  datatype Parsed = Parsed(segments: seq<Segment>, hangs: bool)

  /** The segments a text spells, implied commands and all, up to where its walk
      ends or hangs. */
  function Parse(command: char, s: string): Parsed
    decreases |s|
  {
    var t := Skip(s);
    if t == [] then Parsed([], false)
    else if Upper(command) == 'Z' && !IsLetter(t[0]) then Parsed([], true)
    else
      var next := NextCommand(command, t);
      var read := ReadSegment(next, Arguments(t));
      if read.value == None then Parsed([], false)
      else
        var rest := Parse(next, read.rest);
        Parsed([read.value.value] + rest.segments, rest.hangs)
  }

  function ParsePath(path: string): Parsed {
    Parse(' ', path)
  }

  /** The walk draws what its segments mean. */
  lemma {:induction false} WalkedMeans(w: Walker)
    ensures Walked(w) == (var p := Parse(w.command, w.rest);
      var ops := w.ops + Interpreted(w.pen, p.segments);
      if p.hangs then Hung(ops) else Finished(ops))
    decreases |w.rest|
  {
    hide ReadSegment, Skip, Moved, Drawn;
    var p := Parse(w.command, w.rest);
    var t := Skip(w.rest);
    if t != [] && !Spinning(w) && Turn(w).Some? {
      var v := Turn(w).value;
      TurnsShorten(w);
      WalkedMeans(v);
      var rest := Parse(v.command, v.rest);
      assert p.segments[1..] == rest.segments;
      assert v.ops + Interpreted(v.pen, rest.segments) == w.ops + Interpreted(w.pen, p.segments);
    } else {
      assert w.ops + [] == w.ops;
    }
  }

  function Digit(n: nat): char
    requires n < 10
  {
    '0' + n as char
  }

  /** The decimal digits of a number, with zeros in front up to `width`. */
  function Digits(n: nat, width: nat): (s: string)
    ensures |s| >= width && forall i :: 0 <= i < |s| ==> IsDigit(s[i])
    decreases n, width
  {
    if n == 0 && width == 0 then ""
    else Digits(n / 10, if width == 0 then 0 else width - 1) + [Digit(n % 10)]
  }

  lemma {:induction false} DigitsOfDigits(n: nat, width: nat)
    ensures DigitsOf(Digits(n, width)) == n
    decreases n, width
  {
    if n != 0 || width != 0 {
      var earlier := Digits(n / 10, if width == 0 then 0 else width - 1);
      DigitsOfDigits(n / 10, if width == 0 then 0 else width - 1);
      assert Digits(n, width)[..|earlier|] == earlier;
    }
  }

  function Abs(x: int): nat {
    if x < 0 then -x else x
  }

  /** A decimal written out, with a point before its last `scale` digits. */
  function Unsigned(d: Dec): string {
    var s := Digits(Abs(d.digits), d.scale + 1);
    s[..|s| - d.scale] + "." + s[|s| - d.scale..]
  }

  function Text(d: Dec): string {
    if d.digits < 0 then "-" + Unsigned(d) else Unsigned(d)
  }

  lemma {:induction false} PointAfter(a: string, b: string)
    requires forall i :: 0 <= i < |a| ==> IsDigit(a[i])
    ensures Point(a + "." + b) == |a|
    decreases |a|
  {
    var s := a + "." + b;
    if a == [] {
      assert s[0] == '.';
    } else {
      PointAfter(a[1..], b);
      assert s[1..] == a[1..] + "." + b;
    }
  }

  lemma MagnitudeOf(a: string, b: string)
    requires a != [] && forall i :: 0 <= i < |a| ==> IsDigit(a[i])
    requires forall i :: 0 <= i < |b| ==> IsDigit(b[i])
    ensures Magnitude(a + "." + b) == Some(Dec(DigitsOf(a + b), |b|))
  {
    var s := a + "." + b;
    PointAfter(a, b);
    assert s[..|a|] == a && s[|a| + 1..] == b;
  }

  lemma Halves(s: string, k: nat)
    requires k <= |s| && forall i :: 0 <= i < |s| ==> IsDigit(s[i])
    ensures s[..k] + s[k..] == s
    ensures forall i :: 0 <= i < k ==> IsDigit(s[..k][i])
    ensures forall i :: 0 <= i < |s| - k ==> IsDigit(s[k..][i])
  {
  }

  lemma PointedNumerals(a: string, b: string)
    requires forall i :: 0 <= i < |a| ==> IsDigit(a[i])
    requires forall i :: 0 <= i < |b| ==> IsDigit(b[i])
    ensures var u := a + "." + b; forall i :: 0 <= i < |u| ==> IsNumeral(u[i])
  {
    var u := a + "." + b;
    forall i | 0 <= i < |u| ensures IsNumeral(u[i]) {
      if i < |a| { assert u[i] == a[i]; }
      if i > |a| { assert u[i] == b[i - |a| - 1]; }
    }
  }

  lemma PointedValue(s: string, k: nat)
    requires 0 < k <= |s| && forall i :: 0 <= i < |s| ==> IsDigit(s[i])
    ensures var u := s[..k] + "." + s[k..];
      && Magnitude(u) == Some(Dec(DigitsOf(s), |s| - k))
      && u != [] && forall i :: 0 <= i < |u| ==> IsNumeral(u[i])
  {
    Halves(s, k);
    MagnitudeOf(s[..k], s[k..]);
    PointedNumerals(s[..k], s[k..]);
    hide *;
  }

  lemma UnsignedValue(d: Dec)
    ensures Magnitude(Unsigned(d)) == Some(Dec(Abs(d.digits), d.scale))
    ensures Unsigned(d) != [] && forall i :: 0 <= i < |Unsigned(d)| ==> IsNumeral(Unsigned(d)[i])
  {
    hide Magnitude, Digits, DigitsOf, IsNumeral, IsDigit;
    var s := Digits(Abs(d.digits), d.scale + 1);
    DigitsOfDigits(Abs(d.digits), d.scale + 1);
    PointedValue(s, |s| - d.scale);
  }

  lemma TextValue(d: Dec)
    ensures Value(Text(d)) == Some(d)
    ensures SignLength(Text(d)) == (if d.digits < 0 then 1 else 0) && Text(d)[SignLength(Text(d))..] == Unsigned(d)
    ensures Text(d) != [] && (Text(d)[0] == '-' || IsNumeral(Text(d)[0]))
  {
    UnsignedValue(d);
    hide Unsigned, Magnitude;
    if d.digits < 0 {
      assert ("-" + Unsigned(d))[1..] == Unsigned(d);
    }
  }

  lemma {:induction false} NumeralRunOf(a: string, tail: string)
    requires forall i :: 0 <= i < |a| ==> IsNumeral(a[i])
    requires tail != [] ==> !IsNumeral(tail[0])
    ensures NumeralRun(a + tail) == |a|
    decreases |a|
  {
    if a == [] {
      assert a + tail == tail;
    } else {
      NumeralRunOf(a[1..], tail);
      assert (a + tail)[1..] == a[1..] + tail;
    }
  }

  lemma TextLength(d: Dec, tail: string)
    requires tail != [] ==> tail[0] == ' '
    ensures NumberLength(Text(d) + tail) == |Text(d)|
  {
    TextValue(d);
    UnsignedValue(d);
    hide Unsigned, Text, NumeralRun;
    var t := Text(d) + tail;
    assert t[0] == Text(d)[0];
    assert t[SignLength(t)..] == Text(d)[SignLength(t)..] + tail;
    NumeralRunOf(Unsigned(d), tail);
  }

  /** A number that has been written is read back, up to the blank behind it. */
  lemma NumberRoundTrip(d: Dec, tail: string)
    requires tail != [] ==> tail[0] == ' '
    ensures ReadNumber(" " + (Text(d) + tail)) == Scan(Some(d), tail)
  {
    TextValue(d);
    TextLength(d, tail);
    hide Unsigned, Text, Value, NumberLength;
    var t := Text(d) + tail;
    assert (" " + t)[1..] == t;
    assert t[0] == Text(d)[0] && !IsSeparator(t[0]);
    assert Skip(" " + t) == t;
    assert t[..|Text(d)|] == Text(d) && t[|Text(d)|..] == tail;
  }

  function Spell(ds: seq<Dec>): (s: string)
    ensures s != [] && s[0] == ' '
    decreases |ds|
  {
    if ds == [] then " " else " " + (Text(ds[0]) + Spell(ds[1..]))
  }

  function Letter(s: Segment): char {
    match s
    case M(rel, _, _) => if rel then 'm' else 'M'
    case L(rel, _, _) => if rel then 'l' else 'L'
    case H(rel, _) => if rel then 'h' else 'H'
    case V(rel, _) => if rel then 'v' else 'V'
    case C(rel, _, _, _, _, _, _) => if rel then 'c' else 'C'
    case Z => 'Z'
  }

  function Numbers(s: Segment): seq<Dec> {
    match s
    case M(_, x, y) => [x, y]
    case L(_, x, y) => [x, y]
    case H(_, x) => [x]
    case V(_, y) => [y]
    case C(_, x1, y1, x2, y2, x3, y3) => [x1, y1, x2, y2, x3, y3]
    case Z => []
  }

  /** A path text that names every command. */
  function Render(segments: seq<Segment>): (s: string)
    ensures s != [] ==> IsLetter(s[0])
    decreases |segments|
  {
    if segments == [] then ""
    else [Letter(segments[0])] + (Spell(Numbers(segments[0])) + Render(segments[1..]))
  }

  lemma SpellNumber(d: Dec, more: seq<Dec>, tail: string)
    ensures ReadNumber(Spell([d] + more) + tail) == Scan(Some(d), Spell(more) + tail)
  {
    assert ([d] + more)[1..] == more;
    NumberRoundTrip(d, Spell(more) + tail);
    assert Spell([d] + more) + tail == " " + (Text(d) + (Spell(more) + tail)) by { hide Text; }
  }

  lemma SpellPair(x: Dec, y: Dec, more: seq<Dec>, tail: string)
    ensures ReadPair(Spell([x, y] + more) + tail) == Scan(Some(Point2(x, y)), Spell(more) + tail)
  {
    hide Spell, ReadNumber;
    assert [x, y] + more == [x] + ([y] + more);
    SpellNumber(x, [y] + more, tail);
    SpellNumber(y, more, tail);
  }

  lemma SpellCurve(relative: bool, ds: seq<Dec>, tail: string)
    requires |ds| == 6
    ensures ReadCurve(relative, Spell(ds) + tail)
      == Scan(Some(C(relative, ds[0], ds[1], ds[2], ds[3], ds[4], ds[5])), Spell([]) + tail)
  {
    hide Spell, ReadPair;
    assert ds == [ds[0], ds[1]] + ds[2..] && ds[2..] == [ds[2], ds[3]] + ds[4..] && ds[4..] == [ds[4], ds[5]] + [];
    SpellPair(ds[0], ds[1], ds[2..], tail);
    SpellPair(ds[2], ds[3], ds[4..], tail);
    SpellPair(ds[4], ds[5], [], tail);
  }

  lemma LetterOf(s: Segment)
    ensures !s.Z? ==> IsLower(Letter(s)) == s.relative
    ensures Upper(Letter(s)) == if s.M? then 'M' else if s.L? then 'L' else if s.H? then 'H' else if s.V? then 'V' else if s.C? then 'C' else 'Z'
  {
  }

  lemma SpellStraight(s: Segment, tail: string)
    requires !s.C? && !s.Z?
    ensures ReadSegment(Letter(s), Spell(Numbers(s)) + tail) == Scan(Some(s), " " + tail)
  {
    LetterOf(s);
    assert Spell([]) == " ";
    hide Spell, ReadPair, ReadNumber, ReadCurve, Letter, Upper, IsLower;
    if s.M? || s.L? {
      assert Numbers(s) == [s.x, s.y] + [];
      SpellPair(s.x, s.y, [], tail);
    } else {
      var d := if s.H? then s.x else s.y;
      assert Numbers(s) == [d] + [];
      SpellNumber(d, [], tail);
    }
  }

  lemma SpellSegment(s: Segment, tail: string)
    ensures ReadSegment(Letter(s), Spell(Numbers(s)) + tail) == Scan(Some(s), " " + tail)
  {
    if s.C? || s.Z? {
      LetterOf(s);
      assert Spell([]) == " ";
      hide Spell, ReadCurve, Letter, Upper, IsLower;
      if s.C? { SpellCurve(s.relative, Numbers(s), tail); }
    } else {
      SpellStraight(s, tail);
    }
  }

  /** What is rendered is read back, whatever command came before. */
  lemma {:induction false} ParseRender(command: char, s: string, segments: seq<Segment>)
    requires Skip(s) == Render(segments)
    ensures Parse(command, s) == Parsed(segments, false)
    decreases |segments|
  {
    hide Spell, ReadSegment, Numbers;
    if segments != [] {
      var t := Render(segments);
      var tail := Render(segments[1..]);
      var text := Spell(Numbers(segments[0])) + tail;
      assert t[1..] == text && t[0] == Letter(segments[0]);
      SpellSegment(segments[0], tail);
      assert (" " + tail)[1..] == tail;
      assert tail != [] ==> !IsSeparator(tail[0]);
      assert Skip(" " + tail) == Skip(tail) == tail;
      ParseRender(Letter(segments[0]), " " + tail, segments[1..]);
      assert [segments[0]] + segments[1..] == segments;
    }
  }

  lemma RenderWalks(segments: seq<Segment>)
    ensures Walked(Start(Render(segments))) == Finished(Interpreted(Home, segments))
  {
    var r := Render(segments);
    assert Skip(r) == r;
    ParseRender(' ', r, segments);
    WalkedMeans(Start(r));
    assert [] + Interpreted(Home, segments) == Interpreted(Home, segments);
  }

  /** The path with its implied commands spelled out draws the same, and its walk
      always ends. */
  lemma SpelledOut(path: string)
    ensures Walked(Start(Render(ParsePath(path).segments))) == Finished(Walked(Start(path)).ops)
  {
    RenderWalks(ParsePath(path).segments);
    WalkedMeans(Start(path));
    assert [] + Interpreted(Home, ParsePath(path).segments) == Interpreted(Home, ParsePath(path).segments);
  }

  function Absolute(pen: Pen, s: Segment): Segment {
    match s
    case M(rel, x, y) => M(false, From(pen.x, rel, x), From(pen.y, rel, y))
    case L(rel, x, y) => L(false, From(pen.x, rel, x), From(pen.y, rel, y))
    case H(rel, x) => H(false, From(pen.x, rel, x))
    case V(rel, y) => V(false, From(pen.y, rel, y))
    case C(rel, x1, y1, x2, y2, x3, y3) =>
      C(false, From(pen.x, rel, x1), From(pen.y, rel, y1), From(pen.x, rel, x2), From(pen.y, rel, y2),
        From(pen.x, rel, x3), From(pen.y, rel, y3))
    case Z => Z
  }

  /** The same outline with every command absolute. */
  function ToAbsolute(pen: Pen, segments: seq<Segment>): (r: seq<Segment>)
    ensures forall s | s in r :: !IsLower(Letter(s))
    decreases |segments|
  {
    if segments == [] then []
    else [Absolute(pen, segments[0])] + ToAbsolute(Moved(pen, segments[0]), segments[1..])
  }

  lemma {:induction false} AbsoluteMeans(pen: Pen, segments: seq<Segment>)
    ensures Interpreted(pen, ToAbsolute(pen, segments)) == Interpreted(pen, segments)
    decreases |segments|
  {
    if segments != [] {
      var r := ToAbsolute(pen, segments);
      AbsoluteMeans(Moved(pen, segments[0]), segments[1..]);
      assert r[1..] == ToAbsolute(Moved(pen, segments[0]), segments[1..]);
      assert Moved(pen, r[0]) == Moved(pen, segments[0]) && Drawn(pen, r[0]) == Drawn(pen, segments[0]);
    }
  }

  /** The path rewritten to absolute commands draws the same, number by number. */
  lemma RewrittenAbsolute(path: string)
    ensures Walked(Start(Render(ToAbsolute(Home, ParsePath(path).segments)))) == Finished(Walked(Start(path)).ops)
  {
    AbsoluteMeans(Home, ParsePath(path).segments);
    RenderWalks(ToAbsolute(Home, ParsePath(path).segments));
    SpelledOut(path);
    RenderWalks(ParsePath(path).segments);
  }
}
