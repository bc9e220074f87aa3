/** The command-line parser: a path of leading words, options that may take the
    next word, and positionals. `--json` alone may stand anywhere - almost. */
module Args {
  import opened Basics

  datatype Command = Command(path: seq<string>, positional: seq<string>, options: map<string, string>, json: bool)

  datatype Result = Ok(command: Command) | Err(message: string)

  const LoneDashes := "'--' on its own is not an option"

  predicate Dashed(w: string) {
    |w| >= 2 && w[0] == '-' && w[1] == '-'
  }

  /** Where the first equals sign is, or the length. */
  function EqualsAt(s: string): (n: nat)
    ensures n <= |s|
    ensures forall i :: 0 <= i < n ==> s[i] != '='
    ensures n < |s| ==> s[n] == '='
  {
    if s == [] || s[0] == '=' then 0 else 1 + EqualsAt(s[1..])
  }

  /** An option that would take the next word for its value. */
  predicate WantsValue(w: string) {
    Dashed(w) && w[2..] != "" && w[2..] != "json" && EqualsAt(w[2..]) == |w[2..]|
  }

  // ---- What the words mean ----

  datatype Token = Json | Setting(key: string, value: string) | Word(text: string) | Bad

  /** The words of a command line as tokens; an option takes the next word unless
      that looks like an option. */
  function Lex(args: seq<string>): seq<Token>
    decreases |args|
  {
    if args == [] then []
    else if WantsValue(args[0]) && |args| > 1 && !Dashed(args[1]) then
      [Setting(args[0][2..], args[1])] + Lex(args[2..])
    else [Alone(args[0])] + Lex(args[1..])
  }

  /** A word that takes no other with it. */
  function Alone(w: string): Token {
    if !Dashed(w) then Word(w)
    else
      var name := w[2..];
      var n := EqualsAt(name);
      if name == "" then Bad
      else if name == "json" then Json
      else if n < |name| then Setting(name[..n], name[n + 1..])
      else Setting(name, "")
  }

  datatype State = State(command: Command, seenOption: bool)

  const Empty := State(Command([], [], map[], false), false)

  function Take(s: State, t: Token): State {
    var c := s.command;
    match t
    case Json => s.(command := c.(json := true, options := c.options["json" := ""]))
    case Setting(k, v) => State(c.(options := c.options[k := v]), true)
    case Word(w) =>
      if s.seenOption || c.positional != [] then s.(command := c.(positional := c.positional + [w]))
      else s.(command := c.(path := c.path + [w]))
    case Bad => s
  }

  function TakeAll(tokens: seq<Token>): State {
    if tokens == [] then Empty else Take(TakeAll(tokens[..|tokens| - 1]), tokens[|tokens| - 1])
  }

  function Parsed(args: seq<string>): Result {
    if Bad in Lex(args) then Err(LoneDashes) else Ok(TakeAll(Lex(args)).command)
  }

  lemma TakeOne(tokens: seq<Token>, t: Token)
    ensures TakeAll(tokens + [t]) == Take(TakeAll(tokens), t)
  {
    assert (tokens + [t])[..|tokens|] == tokens;
  }

  lemma LexPair(args: seq<string>, i: nat)
    requires i + 1 < |args| && WantsValue(args[i]) && !Dashed(args[i + 1])
    ensures Lex(args[i..]) == [Setting(args[i][2..], args[i + 1])] + Lex(args[i + 2..])
  {
    assert args[i..][2..] == args[i + 2..];
  }

  lemma LexAlone(args: seq<string>, i: nat)
    requires i < |args| && !(WantsValue(args[i]) && i + 1 < |args| && !Dashed(args[i + 1]))
    ensures Lex(args[i..]) == [Alone(args[i])] + Lex(args[i + 1..])
  {
    assert args[i..][1..] == args[i + 1..];
  }

  lemma Shift(done: seq<Token>, t: Token, rest: seq<Token>)
    ensures done + ([t] + rest) == done + [t] + rest
  {
  }

  method Parse(args: seq<string>) returns (r: Result)
    ensures r == Parsed(args)
  {
    hide Lex, Take;
    var command := Command([], [], map[], false);
    var seenOption := false;
    var i: nat := 0;
    ghost var done: seq<Token> := [];
    assert args[0..] == args;
    while i < |args|
      invariant i <= |args| && Lex(args) == done + Lex(args[i..]) && Bad !in done
      invariant State(command, seenOption) == TakeAll(done)
    {
      var arg := args[i];
      ghost var t := if WantsValue(arg) && i + 1 < |args| && !Dashed(args[i + 1]) then Setting(arg[2..], args[i + 1]) else Alone(arg);
      ghost var rest := if WantsValue(arg) && i + 1 < |args| && !Dashed(args[i + 1]) then Lex(args[i + 2..]) else Lex(args[i + 1..]);
      if WantsValue(arg) && i + 1 < |args| && !Dashed(args[i + 1]) { LexPair(args, i); } else { LexAlone(args, i); }
      Shift(done, t, rest);
      TakeOne(done, t);
      if Dashed(arg) {
        var name := arg[2..];
        if name == "" {
          assert (done + [t])[|done|] == Bad && Lex(args)[|done|] == Bad;
          return Err(LoneDashes);
        }
        if name == "json" {
          TakeMeans(TakeAll(done), t);
          command := command.(json := true, options := command.options["json" := ""]);
          i := i + 1;
          done := done + [t];
          continue;
        }
        seenOption := true;
        TakeMeans(TakeAll(done), t);
        var n := EqualsAt(name);
        if n < |name| {
          command := command.(options := command.options[name[..n] := name[n + 1..]]);
          i := i + 1;
          done := done + [t];
          continue;
        }
        var value := "";
        if i + 1 < |args| && !Dashed(args[i + 1]) {
          i := i + 1;
          value := args[i];
        }
        command := command.(options := command.options[name := value]);
        i := i + 1;
        done := done + [t];
        continue;
      }
      TakeMeans(TakeAll(done), t);
      if seenOption || command.positional != [] {
        command := command.(positional := command.positional + [arg]);
      } else {
        command := command.(path := command.path + [arg]);
      }
      i := i + 1;
      done := done + [t];
    }
    assert args[i..] == [];
    assert Lex([]) == [] by { LexNothing(); }
    assert done + [] == done;
    r := Ok(command);
  }

  lemma LexNothing()
    ensures Lex([]) == []
  {
  }

  lemma TakeMeans(s: State, t: Token)
    ensures t.Json? ==> Take(s, t) == State(s.command.(json := true, options := s.command.options["json" := ""]), s.seenOption)
    ensures t.Setting? ==> Take(s, t) == State(s.command.(options := s.command.options[t.key := t.value]), true)
    ensures t.Word? ==> Take(s, t) == (if s.seenOption || s.command.positional != []
      then State(s.command.(positional := s.command.positional + [t.text]), s.seenOption)
      else State(s.command.(path := s.command.path + [t.text]), s.seenOption))
  {
  }

  // ---- Where the command line may be cut ----

  /** The cut falls between an option and the word it takes. */
  predicate Between(a: seq<string>, b: seq<string>) {
    a != [] && b != [] && WantsValue(a[|a| - 1]) && !Dashed(b[0])
  }

  /** Anywhere else the two halves mean what they mean apart. */
  lemma {:induction false} LexCut(a: seq<string>, b: seq<string>)
    requires !Between(a, b)
    ensures Lex(a + b) == Lex(a) + Lex(b)
    decreases |a|
  {
    var all := a + b;
    if a == [] {
      assert all == b;
    } else if WantsValue(a[0]) && |a| > 1 && !Dashed(a[1]) {
      assert all[0] == a[0] && all[1] == a[1] && all[2..] == a[2..] + b;
      LexCut(a[2..], b);
      assert Lex(all) == [Setting(a[0][2..], a[1])] + (Lex(a[2..]) + Lex(b));
    } else {
      assert all[0] == a[0] && all[1..] == a[1..] + b;
      if |a| == 1 && b != [] { assert all[1] == b[0]; }
      LexCut(a[1..], b);
      assert Lex(all) == [Alone(a[0])] + (Lex(a[1..]) + Lex(b));
    }
  }

  lemma LexCutTwice(a: seq<string>, mid: seq<string>, b: seq<string>)
    requires !Between(a, mid) && !Between(mid, b) && mid != []
    ensures Lex(a + mid + b) == Lex(a) + Lex(mid) + Lex(b)
  {
    hide Lex, WantsValue, Dashed;
    LexCut(a, mid);
    assert (a + mid)[|a + mid| - 1] == mid[|mid| - 1];
    LexCut(a + mid, b);
  }

  lemma LexOne(w: string)
    ensures Lex([w]) == [Alone(w)]
  {
    var none: seq<string> := [];
    assert [w][1..] == none;
  }

  // ---- Inserting --json ----

  /** Nothing but the flag and its own entry differ. */
  ghost predicate SameButJson(c: Command, d: Command) {
    && c.path == d.path && c.positional == d.positional
    && c.json && "json" in c.options
    && c.options - {"json"} == d.options - {"json"}
  }

  lemma TakeSame(s: State, r: State, t: Token)
    requires SameButJson(s.command, r.command) && s.seenOption == r.seenOption
    ensures SameButJson(Take(s, t).command, Take(r, t).command) && Take(s, t).seenOption == Take(r, t).seenOption
  {
    if t.Json? || t.Setting? {
      var k := if t.Json? then "json" else t.key;
      var v := if t.Json? then "" else t.value;
      var a, b := s.command.options, r.command.options;
      forall x ensures x in a - {"json"} <==> x in b - {"json"} {}
      assert forall x :: x in a && x != "json" ==> x in a - {"json"} && (a - {"json"})[x] == a[x];
      assert forall x :: x in b && x != "json" ==> x in b - {"json"} && (b - {"json"})[x] == b[x];
      assert a[k := v] - {"json"} == b[k := v] - {"json"};
    }
  }

  lemma {:induction false} JsonToken(x: seq<Token>, y: seq<Token>)
    ensures var s := TakeAll(x + [Json] + y); var r := TakeAll(x + y);
      SameButJson(s.command, r.command) && s.seenOption == r.seenOption
    decreases |y|
  {
    if y == [] {
      assert x + [Json] + y == x + [Json] && x + y == x;
      TakeOne(x, Json);
      var o := TakeAll(x).command.options;
      assert o["json" := ""] - {"json"} == o - {"json"};
    } else {
      var front := y[..|y| - 1];
      var t := y[|y| - 1];
      JsonToken(x, front);
      hide SameButJson, Take;
      TakeSame(TakeAll(x + [Json] + front), TakeAll(x + front), t);
      TakeOne(x + [Json] + front, t);
      TakeOne(x + front, t);
      assert x + [Json] + y == x + [Json] + front + [t] && x + y == x + front + [t];
    }
  }

  /** The words among the tokens. */
  function Texts(tokens: seq<Token>): seq<string> {
    if tokens == [] then []
    else
      var t := tokens[|tokens| - 1];
      Texts(tokens[..|tokens| - 1]) + if t.Word? then [t.text] else []
  }

  lemma TakeAfterOption(s: State, t: Token)
    requires s.seenOption
    ensures var r := Take(s, t);
      r.seenOption && r.command.path == s.command.path
      && r.command.positional == s.command.positional + if t.Word? then [t.text] else []
  {
  }

  lemma TextsPush(tokens: seq<Token>, t: Token)
    ensures Texts(tokens + [t]) == Texts(tokens) + if t.Word? then [t.text] else []
  {
    assert (tokens + [t])[..|tokens|] == tokens;
  }

  /** `s` is `before` with an option taken, and then these words. */
  ghost predicate PastOption(before: State, s: State, words: seq<string>) {
    s.seenOption && s.command.path == before.command.path && s.command.positional == before.command.positional + words
  }

  lemma OptionTaken(s: State, o: Token)
    requires o.Setting?
    ensures PastOption(s, Take(s, o), [])
  {
  }

  lemma WordTaken(before: State, s: State, words: seq<string>, t: Token)
    requires PastOption(before, s, words)
    ensures PastOption(before, Take(s, t), words + if t.Word? then [t.text] else [])
  {
    TakeAfterOption(s, t);
    hide Take;
    var p := before.command.positional;
    if t.Word? { assert p + words + [t.text] == p + (words + [t.text]); } else { assert words + [] == words && s.command.positional + [] == s.command.positional; }
  }

  /** After an option every word is a positional. */
  lemma {:induction false} WordsAfterOption(x: seq<Token>, o: Token, y: seq<Token>)
    requires o.Setting?
    ensures PastOption(TakeAll(x), TakeAll(x + [o] + y), Texts(y))
    decreases |y|
  {
    hide TakeAll, Take, PastOption;
    if y == [] {
      assert x + [o] + y == x + [o];
      TakeOne(x, o);
      OptionTaken(TakeAll(x), o);
    } else {
      hide Texts;
      var front, t := y[..|y| - 1], y[|y| - 1];
      assert front + [t] == y;
      WordsAfterOption(x, o, front);
      TakeOne(x + [o] + front, t);
      WordTaken(TakeAll(x), TakeAll(x + [o] + front), Texts(front), t);
      TextsPush(front, t);
      assert x + [o] + y == x + [o] + front + [t];
    }
  }

  lemma {:induction false} TextsLength(x: seq<Token>, y: seq<Token>)
    ensures |Texts(x + y)| == |Texts(x)| + |Texts(y)|
    decreases |y|
  {
    if y == [] {
      assert x + y == x;
    } else {
      TextsLength(x, y[..|y| - 1]);
      assert (x + y)[..|x + y| - 1] == x + y[..|y| - 1];
    }
  }

  lemma JsonIsAlone()
    ensures Lex(["--json"]) == [Json] && Dashed("--json") && !WantsValue("--json") && Alone("--json") == Json
  {
    var w := "--json";
    assert w[2..] == "json";
    var none: seq<string> := [];
    assert [w][1..] == none;
  }

  lemma JsonElsewhere(a: seq<string>, b: seq<string>)
    requires !Between(a, b)
    ensures Lex(a + b) == Lex(a) + Lex(b)
    ensures Lex(a + ["--json"] + b) == Lex(a) + [Json] + Lex(b)
  {
    JsonIsAlone();
    hide Lex, WantsValue;
    LexCut(a, b);
    LexCutTwice(a, ["--json"], b);
  }

  /** The option whose value was cut off stands alone, and the value is a word. */
  lemma JsonBetween(a: seq<string>, b: seq<string>)
    requires Between(a, b)
    ensures var front := Lex(a[..|a| - 1]); var rest := Lex(b[1..]); var key := a[|a| - 1][2..];
      && Lex(a + b) == front + [Setting(key, b[0])] + rest
      && Lex(a + ["--json"] + b) == front + [Setting(key, "")] + ([Json, Word(b[0])] + rest)
  {
    var n := |a| - 1;
    var o := a[n];
    JsonIsAlone();
    var after := b[1..];
    assert a + b == a[..n] + ([o, b[0]] + after);
    LexCut(a[..n], [o, b[0]] + after);
    assert ([o, b[0]] + after)[2..] == after;
    assert Lex([o, b[0]] + after) == [Setting(o[2..], b[0])] + Lex(after);
    var tail := ["--json"] + b;
    assert a + ["--json"] + b == a[..n] + ([o] + tail);
    LexCut(a[..n], [o] + tail);
    LexAfterLoneOption(o, b);
  }

  lemma LexWordFirst(b: seq<string>)
    requires b != [] && !Dashed(b[0])
    ensures Lex(b) == [Word(b[0])] + Lex(b[1..])
  {
  }

  lemma LexJsonFirst(b: seq<string>)
    ensures Lex(["--json"] + b) == [Json] + Lex(b)
  {
    JsonIsAlone();
    hide Lex, WantsValue, Dashed;
    LexCut(["--json"], b);
  }

  lemma LexLoneFirst(o: string, rest: seq<string>)
    requires WantsValue(o) && (rest != [] ==> Dashed(rest[0]))
    ensures Lex([o] + rest) == [Setting(o[2..], "")] + Lex(rest)
  {
    LexOne(o);
    assert Alone(o) == Setting(o[2..], "");
    hide Lex, WantsValue, Dashed, Alone;
    LexCut([o], rest);
  }

  lemma LexAfterLoneOption(o: string, b: seq<string>)
    requires WantsValue(o) && b != [] && !Dashed(b[0])
    ensures Lex([o] + (["--json"] + b)) == [Setting(o[2..], "")] + ([Json, Word(b[0])] + Lex(b[1..]))
  {
    JsonIsAlone();
    hide Lex, WantsValue, Dashed;
    LexWordFirst(b);
    LexJsonFirst(b);
    LexLoneFirst(o, ["--json"] + b);
    var rest := Lex(b[1..]);
    assert [Json] + ([Word(b[0])] + rest) == [Json, Word(b[0])] + rest;
  }

  /** Putting `--json` anywhere but between an option and its value changes the
      flag and its entry and nothing else, errors included; put there, it turns
      the value into one more positional. */
  lemma JsonAnywhereBut(a: seq<string>, b: seq<string>)
    ensures Parsed(a + ["--json"] + b).Err? <==> Parsed(a + b).Err?
    ensures Parsed(a + b).Ok? ==>
      (SameButJson(Parsed(a + ["--json"] + b).command, Parsed(a + b).command) <==> !Between(a, b))
  {
    hide Lex, TakeAll, SameButJson;
    if Between(a, b) {
      JsonBetween(a, b);
      var front, rest, key := Lex(a[..|a| - 1]), Lex(b[1..]), a[|a| - 1][2..];
      MorePositionals(front, key, b[0], rest);
    } else {
      JsonElsewhere(a, b);
      JsonToken(Lex(a), Lex(b));
    }
  }

  lemma MorePositionals(x: seq<Token>, key: string, value: string, y: seq<Token>)
    ensures !SameButJson(TakeAll(x + [Setting(key, "")] + ([Json, Word(value)] + y)).command,
                         TakeAll(x + [Setting(key, value)] + y).command)
  {
    WordsAfterOption(x, Setting(key, value), y);
    WordsAfterOption(x, Setting(key, ""), [Json, Word(value)] + y);
    TextsLength([Json, Word(value)], y);
    assert [Json, Word(value)][..1] == [Json] && [Json][..0] == [];
    assert Texts([Json]) == [];
    assert Texts([Json, Word(value)]) == [value];
  }

  // ---- Two ways to write an option ----

  /** `--name=value` and `--name value` are the same thing, wherever they stand. */
  lemma EqualsFormIsTheSame(a: seq<string>, key: string, value: string, b: seq<string>)
    requires WantsValue("--" + key) && !Dashed(value)
    ensures Parsed(a + ["--" + key + "=" + value] + b) == Parsed(a + ["--" + key, value] + b)
  {
    var one, two := ["--" + key + "=" + value], ["--" + key, value];
    assert ("--" + key)[2..] == key;
    KeyHasNoEquals(key);
    SpelledAlone(Pair(key, value));
    LexOne(one[0]);
    assert two[2..] == [];
    assert Lex(two) == [Setting(key, value)] + [];
    Replaced(a, one, two, b);
  }

  lemma {:induction false} KeyHasNoEquals(key: string)
    requires EqualsAt(key) == |key|
    ensures '=' !in key
  {
  }

  /** An option with no word to take is the same as one with an empty value. */
  lemma BareFormIsTheSame(a: seq<string>, key: string, b: seq<string>)
    requires WantsValue("--" + key) && (b != [] ==> Dashed(b[0]))
    ensures Parsed(a + ["--" + key + "=" + ""] + b) == Parsed(a + ["--" + key] + b)
  {
    var one, two := ["--" + key + "=" + ""], ["--" + key];
    assert ("--" + key)[2..] == key;
    KeyHasNoEquals(key);
    SpelledAlone(Pair(key, ""));
    LexOne(one[0]);
    LexOne(two[0]);
    Replaced(a, one, two, b);
  }

  lemma Replaced(a: seq<string>, one: seq<string>, two: seq<string>, b: seq<string>)
    requires Lex(one) == Lex(two) && !Between(a, one) && !Between(a, two) && one != [] && two != []
    requires !Between(one, b) && !Between(two, b)
    ensures Parsed(a + one + b) == Parsed(a + two + b)
  {
    LexCutTwice(a, one, b);
    LexCutTwice(a, two, b);
    hide Lex, Between, TakeAll;
  }

  // ---- Writing a command out ----

  datatype Pair = Pair(key: string, value: string)

  function Spelled(p: Pair): string {
    "--" + p.key + "=" + p.value
  }

  function SpelledAll(pairs: seq<Pair>): seq<string> {
    if pairs == [] then [] else SpelledAll(pairs[..|pairs| - 1]) + [Spelled(pairs[|pairs| - 1])]
  }

  /** Path first, then the options in the order listed, then the positionals. */
  function Rendered(path: seq<string>, pairs: seq<Pair>, positional: seq<string>): seq<string> {
    path + SpelledAll(pairs) + positional
  }

  function AsMap(pairs: seq<Pair>): map<string, string> {
    if pairs == [] then map[] else AsMap(pairs[..|pairs| - 1])[pairs[|pairs| - 1].key := pairs[|pairs| - 1].value]
  }

  predicate Plain(words: seq<string>) {
    forall i :: 0 <= i < |words| ==> !Dashed(words[i])
  }

  predicate Writable(pairs: seq<Pair>) {
    forall i :: 0 <= i < |pairs| ==> '=' !in pairs[i].key
  }

  function WordTokens(words: seq<string>): seq<Token> {
    if words == [] then [] else WordTokens(words[..|words| - 1]) + [Word(words[|words| - 1])]
  }

  function OptionTokens(pairs: seq<Pair>): seq<Token> {
    if pairs == [] then []
    else OptionTokens(pairs[..|pairs| - 1]) + [Setting(pairs[|pairs| - 1].key, pairs[|pairs| - 1].value)]
  }

  lemma {:induction false} EqualsIn(key: string, value: string)
    requires '=' !in key
    ensures EqualsAt(key + "=" + value) == |key|
    decreases |key|
  {
    var s := key + "=" + value;
    if key == "" {
      assert s[0] == '=';
    } else {
      EqualsIn(key[1..], value);
      assert s[1..] == key[1..] + "=" + value && s[0] == key[0];
    }
  }

  lemma SpelledAlone(p: Pair)
    requires '=' !in p.key
    ensures Dashed(Spelled(p)) && !WantsValue(Spelled(p)) && Alone(Spelled(p)) == Setting(p.key, p.value)
  {
    var name := p.key + "=" + p.value;
    var w := Spelled(p);
    assert w == "--" + name && w[2..] == name;
    EqualsIn(p.key, p.value);
    assert name[|p.key|] == '=';
    assert '=' in name && '=' !in "json";
    assert name[..|p.key|] == p.key && name[|p.key| + 1..] == p.value;
  }

  lemma {:induction false} LexPairs(pairs: seq<Pair>)
    requires Writable(pairs)
    ensures Lex(SpelledAll(pairs)) == OptionTokens(pairs) && Bad !in OptionTokens(pairs)
    ensures SpelledAll(pairs) != [] ==> Dashed(SpelledAll(pairs)[0]) && !WantsValue(SpelledAll(pairs)[|SpelledAll(pairs)| - 1])
    decreases |pairs|
  {
    if pairs != [] {
      var front := pairs[..|pairs| - 1];
      var p := pairs[|pairs| - 1];
      LexPairs(front);
      SpelledAlone(p);
      hide Spelled, Alone, WantsValue, Dashed;
      LexOne(Spelled(p));
      LexCut(SpelledAll(front), [Spelled(p)]);
    }
  }

  lemma {:induction false} LexWords(words: seq<string>)
    requires Plain(words)
    ensures Lex(words) == WordTokens(words) && Bad !in WordTokens(words)
    decreases |words|
  {
    if words != [] {
      var front := words[..|words| - 1];
      var w := words[|words| - 1];
      LexWords(front);
      assert words == front + [w];
      LexOne(w);
      LexCut(front, [w]);
    }
  }

  lemma {:induction false} TakePath(words: seq<string>)
    ensures TakeAll(WordTokens(words)) == State(Command(words, [], map[], false), false)
    decreases |words|
  {
    if words != [] {
      TakePath(words[..|words| - 1]);
      TakeOne(WordTokens(words[..|words| - 1]), Word(words[|words| - 1]));
      assert words == words[..|words| - 1] + [words[|words| - 1]];
    }
  }

  lemma {:induction false} TakeOptions(path: seq<string>, pairs: seq<Pair>)
    ensures TakeAll(WordTokens(path) + OptionTokens(pairs)) == State(Command(path, [], AsMap(pairs), false), pairs != [])
    decreases |pairs|
  {
    var x := WordTokens(path);
    if pairs == [] {
      TakePath(path);
      assert x + [] == x;
    } else {
      var front := pairs[..|pairs| - 1];
      var p := pairs[|pairs| - 1];
      TakeOptions(path, front);
      TakeOne(x + OptionTokens(front), Setting(p.key, p.value));
      assert x + OptionTokens(pairs) == x + OptionTokens(front) + [Setting(p.key, p.value)];
    }
  }

  /** The state after the path, the options and some further words. */
  function Finished(path: seq<string>, pairs: seq<Pair>, words: seq<string>): State {
    if pairs != [] then State(Command(path, words, AsMap(pairs), false), true)
    else State(Command(path + words, [], map[], false), false)
  }

  lemma FinishedPush(path: seq<string>, pairs: seq<Pair>, words: seq<string>, w: string)
    ensures Take(Finished(path, pairs, words), Word(w)) == Finished(path, pairs, words + [w])
  {
    hide AsMap;
    assert path + (words + [w]) == path + words + [w];
  }

  lemma WordTokensPush(words: seq<string>, w: string)
    ensures WordTokens(words + [w]) == WordTokens(words) + [Word(w)]
  {
    assert (words + [w])[..|words|] == words;
  }

  lemma {:induction false} TakePositionals(path: seq<string>, pairs: seq<Pair>, words: seq<string>)
    ensures TakeAll(WordTokens(path) + OptionTokens(pairs) + WordTokens(words)) == Finished(path, pairs, words)
    decreases |words|
  {
    var x := WordTokens(path) + OptionTokens(pairs);
    if words == [] {
      TakeOptions(path, pairs);
      assert x + [] == x && path + [] == path;
    } else {
      var front := words[..|words| - 1];
      var w := words[|words| - 1];
      assert front + [w] == words;
      TakePositionals(path, pairs, front);
      hide TakeAll, WordTokens, OptionTokens, Finished;
      TakeOne(x + WordTokens(front), Word(w));
      WordTokensPush(front, w);
      FinishedPush(path, pairs, front, w);
      assert x + (WordTokens(front) + [Word(w)]) == x + WordTokens(front) + [Word(w)];
    }
  }

  /** A command written as path, options and positionals parses back to itself
      exactly when it has no positionals or at least one option to end its path. */
  lemma RenderedParses(path: seq<string>, pairs: seq<Pair>, positional: seq<string>)
    requires Plain(path) && Plain(positional) && Writable(pairs)
    ensures Parsed(Rendered(path, pairs, positional)) == Ok(Command(path, positional, AsMap(pairs), false))
      <==> positional == [] || pairs != []
  {
    LexWords(path);
    LexPairs(pairs);
    LexWords(positional);
    TakePositionals(path, pairs, positional);
    RenderedLexes(path, pairs, positional);
    hide TakeAll, Lex;
    assert positional != [] ==> path + positional != path;
    assert path + [] == path;
    assert AsMap([]) == map[];
  }

  lemma RenderedLexes(path: seq<string>, pairs: seq<Pair>, positional: seq<string>)
    requires Plain(path) && Plain(positional) && Writable(pairs)
    ensures Lex(Rendered(path, pairs, positional)) == Lex(path) + Lex(SpelledAll(pairs)) + Lex(positional)
  {
    var spelled := SpelledAll(pairs);
    LexPairs(pairs);
    LexCut(path, spelled) by {
      if path != [] { assert !Dashed(path[|path| - 1]); }
    }
    var front := path + spelled;
    assert front != [] ==> front[|front| - 1] == if spelled != [] then spelled[|spelled| - 1] else path[|path| - 1];
    LexCut(front, positional);
  }

  ghost predicate DistinctKeys(pairs: seq<Pair>) {
    forall i, j :: 0 <= i < j < |pairs| ==> pairs[i].key != pairs[j].key
  }

  lemma {:induction false} AsMapHas(pairs: seq<Pair>, k: string, v: string)
    requires DistinctKeys(pairs)
    ensures k in AsMap(pairs) && AsMap(pairs)[k] == v <==> Pair(k, v) in pairs
    decreases |pairs|
  {
    if pairs != [] {
      var front := pairs[..|pairs| - 1];
      var p := pairs[|pairs| - 1];
      AsMapHas(front, k, v);
      assert pairs == front + [p];
      assert forall i :: 0 <= i < |front| ==> front[i] == pairs[i] && pairs[i].key != p.key;
    }
  }

  lemma SameMap(pairs: seq<Pair>, others: seq<Pair>)
    requires DistinctKeys(pairs) && DistinctKeys(others) && forall p :: p in pairs <==> p in others
    ensures AsMap(pairs) == AsMap(others)
  {
    var m, n := AsMap(pairs), AsMap(others);
    forall k ensures (k in m <==> k in n) && (k in m && k in n ==> m[k] == n[k]) {
      if k in m { AsMapHas(pairs, k, m[k]); AsMapHas(others, k, m[k]); }
      if k in n { AsMapHas(pairs, k, n[k]); AsMapHas(others, k, n[k]); }
    }
  }

  /** The order in which the options of a command are written does not matter. */
  lemma OptionsInAnyOrder(path: seq<string>, pairs: seq<Pair>, others: seq<Pair>, words: seq<string>)
    requires Plain(path) && Plain(words) && Writable(pairs)
    requires DistinctKeys(pairs) && DistinctKeys(others) && forall p :: p in pairs <==> p in others
    ensures Parsed(Rendered(path, pairs, words)) == Parsed(Rendered(path, others, words))
  {
    assert forall i :: 0 <= i < |others| ==> others[i] in pairs;
    forall i | 0 <= i < |others| ensures '=' !in others[i].key {
      assert others[i] in pairs;
      var j :| 0 <= j < |pairs| && pairs[j] == others[i];
    }
    if others != [] { assert others[0] in pairs; }
    if pairs != [] {
      assert pairs[0] in others;
      SameMap(pairs, others);
      RenderedParses(path, pairs, words);
      RenderedParses(path, others, words);
      hide Parsed, Rendered, AsMap;
    }
  }

  // ---- What a command line comes to ----

  lemma {:induction false} BadIff(args: seq<string>)
    ensures Bad in Lex(args) <==> "--" in args
    decreases |args|
  {
    if args != [] {
      var w := args[0];
      assert Dashed(w) && w[2..] == "" <==> w == "--";
      assert args == [w] + args[1..];
      if WantsValue(w) && |args| > 1 && !Dashed(args[1]) {
        BadIff(args[2..]);
        assert args[1..] == [args[1]] + args[2..];
        assert args[1] != "--" && w != "--";
      } else {
        BadIff(args[1..]);
        AloneIs(w);
        hide Lex, Alone, WantsValue, Dashed;
        assert Bad in [Alone(w)] <==> w == "--";
      }
    }
  }

  lemma AloneIs(w: string)
    ensures Alone(w) == Bad <==> w == "--"
    ensures w == "--json" ==> Alone(w) == Json
  {
    if Dashed(w) { assert w == "--" + w[2..]; }
  }

  /** The one error there is: `--` on its own, anywhere on the line. */
  lemma ErrorIff(args: seq<string>)
    ensures Parsed(args).Err? <==> "--" in args
    ensures Parsed(args).Err? ==> Parsed(args).message == "'--' on its own is not an option"
  {
    BadIff(args);
  }

  /** Where the first option is, or the length. */
  function FirstSetting(tokens: seq<Token>): (n: nat)
    ensures n <= |tokens|
    ensures forall i :: 0 <= i < n ==> !tokens[i].Setting?
    ensures n < |tokens| ==> tokens[n].Setting?
    decreases |tokens|
  {
    if tokens == [] || tokens[0].Setting? then 0 else 1 + FirstSetting(tokens[1..])
  }

  predicate Gives(t: Token, key: string) {
    (t.Setting? && t.key == key) || (t.Json? && key == "json")
  }

  function Given(t: Token): string {
    if t.Setting? then t.value else ""
  }

  /** Token `i` is the last to give this option. */
  predicate LastGives(tokens: seq<Token>, i: nat, key: string) {
    && i < |tokens| && Gives(tokens[i], key)
    && forall j :: i < j < |tokens| ==> !Gives(tokens[j], key)
  }

  /** Every option holds what was given last, and no other is there. */
  ghost predicate OptionsAre(options: map<string, string>, tokens: seq<Token>) {
    && (forall key :: key in options <==> exists i: nat :: LastGives(tokens, i, key))
    && (forall key, i: nat :: LastGives(tokens, i, key) ==> key in options && options[key] == Given(tokens[i]))
  }

  lemma LastGivesPush(tokens: seq<Token>, t: Token, key: string, i: nat)
    ensures LastGives(tokens + [t], i, key) <==> if Gives(t, key) then i == |tokens| else LastGives(tokens, i, key)
  {
    var all := tokens + [t];
    assert all[|tokens|] == t;
    assert forall j :: 0 <= j < |tokens| ==> all[j] == tokens[j];
  }

  lemma OptionsPush(options: map<string, string>, tokens: seq<Token>, t: Token)
    requires OptionsAre(options, tokens)
    ensures OptionsAre(if t.Setting? then options[t.key := t.value] else if t.Json? then options["json" := ""] else options, tokens + [t])
  {
    hide LastGives;
    var after := if t.Setting? then options[t.key := t.value] else if t.Json? then options["json" := ""] else options;
    var all := tokens + [t];
    forall key, i: nat ensures LastGives(all, i, key) <==> if Gives(t, key) then i == |tokens| else LastGives(tokens, i, key) {
      LastGivesPush(tokens, t, key, i);
    }
    forall key ensures key in after <==> exists i: nat :: LastGives(all, i, key) {
      if Gives(t, key) { assert LastGives(all, |tokens|, key); }
    }
    forall key, i: nat | LastGives(all, i, key) ensures i < |all| && key in after && after[key] == Given(all[i]) {
      LastGivesAt(all, i, key);
      if !Gives(t, key) { LastGivesAt(tokens, i, key); assert all[i] == tokens[i]; }
    }
  }

  lemma LastGivesAt(tokens: seq<Token>, i: nat, key: string)
    requires LastGives(tokens, i, key)
    ensures i < |tokens|
  {
  }

  lemma {:induction false} FirstSettingPush(tokens: seq<Token>, t: Token)
    ensures FirstSetting(tokens + [t]) == if FirstSetting(tokens) < |tokens| || t.Setting? then FirstSetting(tokens) else |tokens| + 1
    decreases |tokens|
  {
    if tokens == [] {
      assert tokens + [t] == [t] && [t][1..] == [];
    } else {
      assert (tokens + [t])[1..] == tokens[1..] + [t];
      FirstSettingPush(tokens[1..], t);
    }
  }

  /** What the words of a line come to, in whatever order they stand: the path is
      the words before the first option, the positionals are those after it, each
      option has the value it was given last, and the flag is there if it was
      named, with an empty entry of its own among the options. */
  lemma {:induction false} LineMeans(tokens: seq<Token>)
    ensures var s := TakeAll(tokens); var n := FirstSetting(tokens);
      && s.command.path == Texts(tokens[..n]) && s.command.positional == Texts(tokens[n..])
      && (s.command.json <==> Json in tokens) && (s.seenOption <==> n < |tokens|)
      && OptionsAre(s.command.options, tokens)
    decreases |tokens|
  {
    if tokens == [] {
      assert forall key, i: nat :: !LastGives([], i, key);
    } else {
      var front, t := tokens[..|tokens| - 1], tokens[|tokens| - 1];
      assert front + [t] == tokens;
      LineMeans(front);
      hide LastGives, OptionsAre;
      OptionsPush(TakeAll(front).command.options, front, t);
      FirstSettingPush(front, t);
      LinePush(front, t);
    }
  }

  lemma LinePush(front: seq<Token>, t: Token)
    requires var s := TakeAll(front); var n := FirstSetting(front);
      && s.command.path == Texts(front[..n]) && s.command.positional == Texts(front[n..])
      && (s.command.json <==> Json in front) && (s.seenOption <==> n < |front|)
    ensures var s := TakeAll(front + [t]); var n := FirstSetting(front + [t]);
      && s.command.path == Texts((front + [t])[..n]) && s.command.positional == Texts((front + [t])[n..])
      && (s.command.json <==> Json in front + [t]) && (s.seenOption <==> n < |front + [t]|)
  {
    FirstSettingPush(front, t);
    hide FirstSetting;
    var n := FirstSetting(front);
    TakeOne(front, t);
    if n < |front| || t.Setting? {
      assert (front + [t])[..n] == front[..n] && (front + [t])[n..] == front[n..] + [t];
      TextsPush(front[n..], t);
      if n == |front| { assert front[n..] == []; }
    } else {
      assert front[..n] == front && front[n..] == [];
      assert (front + [t])[..n + 1] == front + [t] && (front + [t])[n + 1..] == [];
      TextsPush(front, t);
    }
    assert Texts([]) == [];
  }
}
