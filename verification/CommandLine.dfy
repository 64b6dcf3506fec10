/**
 The console's command-line splitter (parseCommandLine in hub-qt/rpcconsole.cpp): a six-state automaton, and the quoting
 grammar it implements.
 */
module CommandLine {
  import opened Sequences

  datatype State = EatingSpaces | Argument | SingleQuoted | DoubleQuoted | EscapeOuter | EscapeDoubleQuoted

  datatype Parser = Parser(state: State, curarg: string, args: seq<string>)

  datatype Outcome = Outcome(ok: bool, args: seq<string>)

  predicate IsBlank(c: char) { c == ' ' || c == '\n' || c == '\t' }

  // ---------------------------------------------------------------- the automaton

  function Feed(p: Parser, ch: char): Parser {
    match p.state
    case Argument => FeedOuter(p, ch)
    case EatingSpaces => FeedOuter(p, ch)
    case SingleQuoted => if ch == '\'' then p.(state := Argument) else p.(curarg := p.curarg + [ch])
    case DoubleQuoted =>
      if ch == '"' then p.(state := Argument)
      else if ch == '\\' then p.(state := EscapeDoubleQuoted)
      else p.(curarg := p.curarg + [ch])
    case EscapeOuter => p.(curarg := p.curarg + [ch], state := Argument)
    case EscapeDoubleQuoted =>
      p.(curarg := p.curarg + (if ch != '"' && ch != '\\' then "\\" else "") + [ch], state := DoubleQuoted)
  }

  function FeedOuter(p: Parser, ch: char): Parser {
    if ch == '"' then p.(state := DoubleQuoted)
    else if ch == '\'' then p.(state := SingleQuoted)
    else if ch == '\\' then p.(state := EscapeOuter)
    else if IsBlank(ch) then
      if p.state.Argument? then Parser(EatingSpaces, "", p.args + [p.curarg]) else p.(state := EatingSpaces)
    else p.(curarg := p.curarg + [ch], state := Argument)
  }

  function FeedAll(p: Parser, s: string): Parser
    decreases s
  {
    if s == "" then p else FeedAll(Feed(p, s[0]), s[1..])
  }

  function Finish(p: Parser): Outcome {
    match p.state
    case EatingSpaces => Outcome(true, p.args)
    case Argument => Outcome(true, p.args + [p.curarg])
    case _ => Outcome(false, p.args)
  }

  const START := Parser(EatingSpaces, "", [])

  function Split(s: string): Outcome { Finish(FeedAll(START, s)) }

  /** The character loop; arguments are appended to those already in the list. */
  method ParseCommandLine(before: seq<string>, command: string) returns (ok: bool, args: seq<string>)
    ensures ok == Split(command).ok && args == before + Split(command).args
  {
    args := before;
    var state, curarg := EatingSpaces, "";
    var start := Parser(EatingSpaces, "", before);
    for i := 0 to |command|
      invariant FeedAll(Parser(state, curarg, args), command[i..]) == FeedAll(start, command)
    {
      var ch := command[i];
      assert command[i..][0] == ch && command[i..][1..] == command[i + 1..];
      match state {
        case SingleQuoted =>
          if ch == '\'' { state := Argument; } else { curarg := curarg + [ch]; }
        case DoubleQuoted =>
          if ch == '"' { state := Argument; }
          else if ch == '\\' { state := EscapeDoubleQuoted; }
          else { curarg := curarg + [ch]; }
        case EscapeOuter =>
          curarg, state := curarg + [ch], Argument;
        case EscapeDoubleQuoted =>
          if ch != '"' && ch != '\\' { curarg := curarg + "\\"; } else { assert curarg + "" == curarg; }
          curarg, state := curarg + [ch], DoubleQuoted;
        case _ =>
          if ch == '"' { state := DoubleQuoted; }
          else if ch == '\'' { state := SingleQuoted; }
          else if ch == '\\' { state := EscapeOuter; }
          else if IsBlank(ch) {
            if state.Argument? {
              args, curarg := args + [curarg], "";
            }
            state := EatingSpaces;
          } else {
            curarg, state := curarg + [ch], Argument;
          }
      }
    }
    assert command[|command|..] == "";
    PrefixFrame(before, START, command);
    assert before + [] == before;
    match state {
      case EatingSpaces => ok := true;
      case Argument =>
        args := args + [curarg];
        ok := true;
      case _ => ok := false;
    }
  }

  // ---------------------------------------------------------------- sequencing

  lemma {:induction false} FeedConcat(p: Parser, a: string, b: string)
    ensures FeedAll(p, a + b) == FeedAll(FeedAll(p, a), b)
    decreases a
  {
    if a == "" {
      assert a + b == b;
    } else {
      assert (a + b)[1..] == a[1..] + b;
      FeedConcat(Feed(p, a[0]), a[1..], b);
    }
  }

  function Behind(before: seq<string>, p: Parser): Parser { p.(args := before + p.args) }

  /** Arguments already collected do not influence what follows. */
  lemma {:induction false} PrefixFrame(before: seq<string>, p: Parser, s: string)
    ensures FeedAll(Behind(before, p), s) == Behind(before, FeedAll(p, s))
    ensures Finish(Behind(before, p)) == Outcome(Finish(p).ok, before + Finish(p).args)
    decreases s
  {
    assert before + (p.args + [p.curarg]) == before + p.args + [p.curarg];
    if s != "" {
      assert Feed(Behind(before, p), s[0]) == Behind(before, Feed(p, s[0]));
      PrefixFrame(before, Feed(p, s[0]), s[1..]);
    }
    PrefixFinish(before, p);
  }

  lemma {:induction false} PrefixFinish(before: seq<string>, p: Parser)
    ensures Finish(Behind(before, p)) == Outcome(Finish(p).ok, before + Finish(p).args)
  {
    assert before + (p.args + [p.curarg]) == before + p.args + [p.curarg];
  }

  /** While spaces are eaten there is no current argument. */
  lemma {:induction false} NoArgumentBetween(p: Parser, s: string)
    requires p.state.EatingSpaces? ==> p.curarg == ""
    ensures FeedAll(p, s).state.EatingSpaces? ==> FeedAll(p, s).curarg == ""
    decreases s
  {
    if s != "" { NoArgumentBetween(Feed(p, s[0]), s[1..]); }
  }

  /** If `s` parses, then `s`, a blank and `t` give the arguments of `s` followed by those of `t`, with the success
      of `t`. */
  lemma {:induction false} SplitConcat(s: string, blank: char, t: string)
    requires Split(s).ok && IsBlank(blank)
    ensures Split(s + [blank] + t) == Outcome(Split(t).ok, Split(s).args + Split(t).args)
  {
    var p := FeedAll(START, s);
    NoArgumentBetween(START, s);
    FeedConcat(START, s + [blank], t);
    FeedConcat(START, s, [blank]);
    assert [blank][1..] == "";
    var between := Behind(Split(s).args, START);
    assert FeedAll(p, [blank]) == Feed(p, blank);
    assert Split(s).args + [] == Split(s).args;
    assert Feed(p, blank) == between;
    PrefixFrame(Split(s).args, START, t);
    PrefixFinish(Split(s).args, FeedAll(START, t));
  }

  // ---------------------------------------------------------------- the quoting grammar

  /** A unit inside double quotes: a plain character, an escaped quote or backslash, or a backslash that is kept. */
  datatype Unit = Literal(c: char) | Escaped(c: char) | Kept(c: char)

  datatype Piece = Bare(c: char) | Escape(c: char) | Single(text: string) | Double(units: seq<Unit>)

  datatype Token = Blank(c: char) | Part(piece: Piece)

  predicate ValidUnit(u: Unit) {
    match u
    case Literal(c) => c != '"' && c != '\\'
    case Escaped(c) => c == '"' || c == '\\'
    case Kept(c) => c != '"' && c != '\\'
  }

  predicate ValidToken(t: Token) {
    match t
    case Blank(c) => IsBlank(c)
    case Part(Bare(c)) => c != '"' && c != '\'' && c != '\\' && !IsBlank(c)
    case Part(Escape(_)) => true
    case Part(Single(text)) => '\'' !in text
    case Part(Double(units)) => forall i :: 0 <= i < |units| ==> ValidUnit(units[i])
  }

  ghost predicate ValidTokens(ts: seq<Token>) { forall i :: 0 <= i < |ts| ==> ValidToken(ts[i]) }

  function UnitText(u: Unit): string { if u.Literal? then [u.c] else ['\\', u.c] }

  function UnitMeaning(u: Unit): string { if u.Kept? then ['\\', u.c] else [u.c] }

  function UnitsText(us: seq<Unit>): string { if us == [] then "" else UnitText(us[0]) + UnitsText(us[1..]) }

  function UnitsMeaning(us: seq<Unit>): string { if us == [] then "" else UnitMeaning(us[0]) + UnitsMeaning(us[1..]) }

  function PieceText(p: Piece): string {
    match p
    case Bare(c) => [c]
    case Escape(c) => ['\\', c]
    case Single(text) => "'" + text + "'"
    case Double(units) => "\"" + UnitsText(units) + "\""
  }

  function PieceMeaning(p: Piece): string {
    match p
    case Bare(c) => [c]
    case Escape(c) => [c]
    case Single(text) => text
    case Double(units) => UnitsMeaning(units)
  }

  function TokenText(t: Token): string { if t.Blank? then [t.c] else PieceText(t.piece) }

  function Text(ts: seq<Token>): string { if ts == [] then "" else TokenText(ts[0]) + Text(ts[1..]) }

  datatype Word = NoWord | Word(text: string)

  /** The words of a line: maximal runs of pieces, each meaning the concatenation of its pieces. `cur` is the word
      begun so far. */
  function Words(cur: Word, ts: seq<Token>): seq<string>
    decreases ts
  {
    if ts == [] then (if cur.Word? then [cur.text] else [])
    else if ts[0].Blank? then (if cur.Word? then [cur.text] else []) + Words(NoWord, ts[1..])
    else Words(Word((if cur.Word? then cur.text else "") + PieceMeaning(ts[0].piece)), ts[1..])
  }

  // ---------------------------------------------------------------- the automaton reads what the grammar writes

  lemma {:induction false} FeedOne(p: Parser, a: char)
    ensures FeedAll(p, [a]) == Feed(p, a)
  {
    assert [a][1..] == "";
  }

  lemma {:induction false} FeedTwo(p: Parser, a: char, b: char)
    ensures FeedAll(p, [a, b]) == Feed(Feed(p, a), b)
  {
    assert [a, b] == [a] + [b];
    FeedConcat(p, [a], [b]);
    FeedOne(p, a);
    FeedOne(Feed(p, a), b);
  }

  lemma {:induction false} FeedUnit(p: Parser, u: Unit)
    requires p.state.DoubleQuoted? && ValidUnit(u)
    ensures FeedAll(p, UnitText(u)) == p.(curarg := p.curarg + UnitMeaning(u))
  {
    if u.Literal? {
      FeedOne(p, u.c);
    } else {
      FeedTwo(p, '\\', u.c);
      assert p.curarg + "" + [u.c] == p.curarg + [u.c];
      assert p.curarg + "\\" + [u.c] == p.curarg + ['\\', u.c];
    }
  }

  lemma {:induction false} FeedUnits(p: Parser, us: seq<Unit>)
    requires p.state.DoubleQuoted? && forall i :: 0 <= i < |us| ==> ValidUnit(us[i])
    ensures FeedAll(p, UnitsText(us)) == p.(curarg := p.curarg + UnitsMeaning(us))
    decreases us
  {
    if us == [] {
      assert p.curarg + "" == p.curarg;
    } else {
      var q := p.(curarg := p.curarg + UnitMeaning(us[0]));
      var a, b := UnitText(us[0]), UnitsText(us[1..]);
      assert FeedAll(p, a + b) == FeedAll(q, b) by {
        FeedConcat(p, a, b);
        FeedUnit(p, us[0]);
      }
      FeedUnits(q, us[1..]);
      JoinAssociates(p.curarg, UnitMeaning(us[0]), UnitsMeaning(us[1..]));
      assert UnitsText(us) == a + b;
    }
  }

  lemma {:induction false} FeedSingle(p: Parser, text: string)
    requires p.state.SingleQuoted? && '\'' !in text
    ensures FeedAll(p, text) == p.(curarg := p.curarg + text)
    decreases text
  {
    if text == "" {
      assert p.curarg + "" == p.curarg;
    } else {
      var q := p.(curarg := p.curarg + [text[0]]);
      FeedSingle(q, text[1..]);
      assert p.curarg + [text[0]] + text[1..] == p.curarg + text;
    }
  }

  predicate Outer(p: Parser) { p.state.Argument? || (p.state.EatingSpaces? && p.curarg == "") }

  /** Reading a piece extends the current argument by its meaning. */
  lemma {:induction false} FeedPiece(p: Parser, piece: Piece)
    requires Outer(p) && ValidToken(Part(piece))
    ensures FeedAll(p, PieceText(piece)) == Parser(Argument, p.curarg + PieceMeaning(piece), p.args)
  {
    match piece {
      case Bare(c) => FeedOne(p, c);
      case Escape(c) => FeedTwo(p, '\\', c);
      case Single(text) =>
        assert "'" + text + "'" == ['\''] + (text + ['\'']);
        FeedConcat(p, ['\''], text + ['\'']);
        FeedOne(p, '\'');
        var q := p.(state := SingleQuoted);
        FeedConcat(q, text, ['\'']);
        FeedSingle(q, text);
        FeedOne(q.(curarg := p.curarg + text), '\'');
      case Double(units) =>
        FeedDouble(p, units);
    }
  }

  lemma {:induction false} FeedDouble(p: Parser, units: seq<Unit>)
    requires Outer(p) && forall i :: 0 <= i < |units| ==> ValidUnit(units[i])
    ensures FeedAll(p, PieceText(Double(units))) == Parser(Argument, p.curarg + UnitsMeaning(units), p.args)
  {
    JoinAssociates(['"'], UnitsText(units), ['"']);
    FeedConcat(p, ['"'], UnitsText(units) + ['"']);
    FeedOne(p, '"');
    var q := p.(state := DoubleQuoted);
    FeedConcat(q, UnitsText(units), ['"']);
    FeedUnits(q, units);
    FeedOne(q.(curarg := p.curarg + UnitsMeaning(units)), '"');
  }

  function AsParser(cur: Word, args: seq<string>): Parser {
    if cur.Word? then Parser(Argument, cur.text, args) else Parser(EatingSpaces, "", args)
  }

  /** The word a token continues or ends, and the arguments it completes. */
  function WordAfter(cur: Word, t: Token): Word {
    if t.Blank? then NoWord else Word((if cur.Word? then cur.text else "") + PieceMeaning(t.piece))
  }

  function DoneBy(cur: Word, t: Token): seq<string> { if t.Blank? && cur.Word? then [cur.text] else [] }

  lemma {:induction false} FeedWordToken(cur: Word, args: seq<string>, t: Token)
    requires ValidToken(t)
    ensures FeedAll(AsParser(cur, args), TokenText(t)) == AsParser(WordAfter(cur, t), args + DoneBy(cur, t))
  {
    var p := AsParser(cur, args);
    assert args + [] == args;
    if t.Blank? { FeedOne(p, t.c); } else { FeedPiece(p, t.piece); }
  }

  lemma {:induction false} WordsStep(cur: Word, ts: seq<Token>)
    requires ts != []
    ensures Words(cur, ts) == DoneBy(cur, ts[0]) + Words(WordAfter(cur, ts[0]), ts[1..])
  {
  }

  lemma {:induction false} FeedTokenThen(cur: Word, args: seq<string>, t: Token, b: string)
    requires ValidToken(t)
    ensures FeedAll(AsParser(cur, args), TokenText(t) + b) ==
            FeedAll(AsParser(WordAfter(cur, t), args + DoneBy(cur, t)), b)
  {
    FeedConcat(AsParser(cur, args), TokenText(t), b);
    FeedWordToken(cur, args, t);
  }

  /** Where the automaton is after a whole line of tokens. */
  lemma {:induction false} FeedTokens(cur: Word, args: seq<string>, ts: seq<Token>)
    returns (word: Word, done: seq<string>)
    requires ValidTokens(ts)
    ensures FeedAll(AsParser(cur, args), Text(ts)) == AsParser(word, done)
    ensures done + Words(word, []) == args + Words(cur, ts)
    decreases ts
  {
    if ts == [] {
      word, done := cur, args;
    } else {
      FeedTokenThen(cur, args, ts[0], Text(ts[1..]));
      WordsStep(cur, ts);
      word, done := FeedTokens(WordAfter(cur, ts[0]), args + DoneBy(cur, ts[0]), ts[1..]);
      JoinAssociates(args, DoneBy(cur, ts[0]), Words(WordAfter(cur, ts[0]), ts[1..]));
    }
  }

  /** Soundness: a line written by the grammar splits into its words. */
  lemma {:induction false} GrammarIsUnderstood(ts: seq<Token>)
    requires ValidTokens(ts)
    ensures Split(Text(ts)) == Outcome(true, Words(NoWord, ts))
  {
    var word, done := FeedTokens(NoWord, [], ts);
    assert [] + Words(NoWord, ts) == Words(NoWord, ts);
    assert done + [] == done;
  }

  // ---------------------------------------------------------------- the grammar covers what the automaton accepts

  lemma {:induction false} UnitsTextCons(u: Unit, us: seq<Unit>)
    ensures UnitsText([u] + us) == UnitText(u) + UnitsText(us)
  {
    assert ([u] + us)[1..] == us;
  }

  /** Inside double quotes a backslash is followed by a character, if the line is accepted. */
  lemma {:induction false} BackslashIsFollowed(p: Parser, s: string)
    requires p.state.DoubleQuoted? && s != "" && s[0] == '\\' && Finish(FeedAll(p, s)).ok
    ensures |s| >= 2 && FeedAll(p, s) == FeedAll(Feed(Feed(p, s[0]), s[1]), s[2..])
  {
    var q := Feed(p, s[0]);
    assert FeedAll(p, s) == FeedAll(q, s[1..]);
    assert |s| >= 2;
    assert s[1..][1..] == s[2..];
  }

  lemma {:induction false} ReadUnits(p: Parser, s: string) returns (us: seq<Unit>, rest: string)
    requires p.state.DoubleQuoted? && Finish(FeedAll(p, s)).ok
    ensures (forall i :: 0 <= i < |us| ==> ValidUnit(us[i])) && s == UnitsText(us) + "\"" + rest
    decreases s
  {
    if s[0] == '"' {
      us, rest := [], s[1..];
    } else if s[0] == '\\' {
      BackslashIsFollowed(p, s);
      var more;
      more, rest := ReadUnits(Feed(Feed(p, s[0]), s[1]), s[2..]);
      var u := if s[1] == '"' || s[1] == '\\' then Escaped(s[1]) else Kept(s[1]);
      us := [u] + more;
      UnitsTextCons(u, more);
      assert s == UnitText(u) + s[2..];
    } else {
      var more;
      more, rest := ReadUnits(Feed(p, s[0]), s[1..]);
      us := [Literal(s[0])] + more;
      UnitsTextCons(Literal(s[0]), more);
      assert s == UnitText(Literal(s[0])) + s[1..];
    }
  }

  lemma {:induction false} ReadSingle(p: Parser, s: string) returns (text: string, rest: string)
    requires p.state.SingleQuoted? && Finish(FeedAll(p, s)).ok
    ensures '\'' !in text && s == text + "'" + rest
    decreases s
  {
    if s[0] == '\'' {
      text, rest := "", s[1..];
    } else {
      var more;
      more, rest := ReadSingle(Feed(p, s[0]), s[1..]);
      text := [s[0]] + more;
      assert s == [s[0]] + s[1..];
    }
  }

  lemma {:induction false} ReadToken(p: Parser, s: string) returns (t: Token, rest: string)
    requires Outer(p) && s != "" && Finish(FeedAll(p, s)).ok
    ensures ValidToken(t) && s == TokenText(t) + rest
  {
    var c := s[0];
    assert s == [c] + s[1..];
    if IsBlank(c) {
      t, rest := Blank(c), s[1..];
    } else if c == '"' {
      var units, more := ReadUnits(Feed(p, c), s[1..]);
      t, rest := Part(Double(units)), more;
      assert s == "\"" + UnitsText(units) + "\"" + rest;
    } else if c == '\'' {
      var text, more := ReadSingle(Feed(p, c), s[1..]);
      t, rest := Part(Single(text)), more;
      assert s == "'" + text + "'" + rest;
    } else if c == '\\' {
      assert s[1..] != "";
      t, rest := Part(Escape(s[1])), s[2..];
      assert s == ['\\', s[1]] + rest;
    } else {
      t, rest := Part(Bare(c)), s[1..];
    }
  }

  lemma {:induction false} FeedToken(p: Parser, t: Token)
    requires Outer(p) && ValidToken(t)
    ensures Outer(FeedAll(p, TokenText(t)))
  {
    if t.Blank? { FeedOne(p, t.c); } else { FeedPiece(p, t.piece); }
  }

  lemma {:induction false} TokenTextNonempty(t: Token)
    ensures TokenText(t) != ""
  {
  }

  lemma {:induction false} ReadTokens(p: Parser, s: string) returns (ts: seq<Token>)
    requires Outer(p) && Finish(FeedAll(p, s)).ok
    ensures ValidTokens(ts) && Text(ts) == s
    decreases |s|
  {
    if s == "" {
      ts := [];
    } else {
      var t, rest := ReadToken(p, s);
      FeedConcat(p, TokenText(t), rest);
      FeedToken(p, t);
      TokenTextNonempty(t);
      assert |s| == |TokenText(t)| + |rest|;
      var more := ReadTokens(FeedAll(p, TokenText(t)), rest);
      ts := [t] + more;
      assert ts[1..] == more;
    }
  }

  /** The splitter accepts exactly the lines of the quoting grammar, and returns their words. */
  lemma {:induction false} AcceptsExactlyTheGrammar(s: string, args: seq<string>)
    ensures Split(s) == Outcome(true, args) <==>
            exists ts :: ValidTokens(ts) && Text(ts) == s && Words(NoWord, ts) == args
  {
    if Split(s) == Outcome(true, args) {
      var ts := ReadTokens(START, s);
      GrammarIsUnderstood(ts);
    }
    if ts :| ValidTokens(ts) && Text(ts) == s && Words(NoWord, ts) == args {
      GrammarIsUnderstood(ts);
    }
  }

  // ---------------------------------------------------------------- quoting

  function EscapeChar(c: char): Unit { if c == '"' || c == '\\' then Escaped(c) else Literal(c) }

  function Escapes(arg: string): seq<Unit> { seq(|arg|, i requires 0 <= i < |arg| => EscapeChar(arg[i])) }

  /** An argument in double quotes, with quotes and backslashes escaped. */
  function Quote(arg: string): string { "\"" + UnitsText(Escapes(arg)) + "\"" }

  lemma {:induction false} EscapesMean(arg: string)
    ensures UnitsMeaning(Escapes(arg)) == arg
    decreases arg
  {
    if arg != "" {
      EscapesMean(arg[1..]);
      assert Escapes(arg)[1..] == Escapes(arg[1..]);
      assert [arg[0]] + arg[1..] == arg;
    }
  }

  predicate Blanks(s: string) { forall i :: 0 <= i < |s| ==> IsBlank(s[i]) }

  /** Quoted arguments, each followed by its separator. */
  function QuotedLine(args: seq<string>, seps: seq<string>): string
    requires |args| == |seps|
    decreases args
  {
    if args == [] then "" else Quote(args[0]) + seps[0] + QuotedLine(args[1..], seps[1..])
  }

  lemma {:induction false} FeedBlanks(p: Parser, blanks: string)
    requires Blanks(blanks) && Outer(p)
    ensures FeedAll(p, blanks) ==
            if blanks == "" then p else Parser(EatingSpaces, "", p.args + if p.state.Argument? then [p.curarg] else [])
    decreases blanks
  {
    if blanks != "" {
      var q := Feed(p, blanks[0]);
      assert p.args + [] == p.args;
      FeedBlanks(q, blanks[1..]);
    }
  }

  lemma {:induction false} FeedQuoted(before: seq<string>, arg: string, sep: string, rest: string)
    requires Blanks(sep)
    ensures FeedAll(Parser(EatingSpaces, "", before), Quote(arg) + (sep + rest)) ==
            FeedAll(if sep == "" then Parser(Argument, arg, before) else Parser(EatingSpaces, "", before + [arg]), rest)
  {
    var p, q := Parser(EatingSpaces, "", before), Parser(Argument, arg, before);
    EscapesMean(arg);
    FeedPiece(p, Double(Escapes(arg)));
    assert FeedAll(p, Quote(arg)) == q by { assert "" + arg == arg; }
    FeedConcat(p, Quote(arg), sep + rest);
    FeedConcat(q, sep, rest);
    FeedBlanks(q, sep);
  }

  lemma {:induction false} FeedQuotedLine(before: seq<string>, args: seq<string>, seps: seq<string>)
    requires |args| == |seps| && forall i :: 0 <= i < |seps| ==> Blanks(seps[i]) && (i < |seps| - 1 ==> seps[i] != "")
    ensures Finish(FeedAll(Parser(EatingSpaces, "", before), QuotedLine(args, seps))) == Outcome(true, before + args)
    decreases args
  {
    if args == [] {
      assert before + [] == before;
    } else {
      var rest := QuotedLine(args[1..], seps[1..]);
      JoinAssociates(Quote(args[0]), seps[0], rest);
      FeedQuoted(before, args[0], seps[0], rest);
      if |args| == 1 {
        assert args == [args[0]] && rest == "";
        assert before + [args[0]] == before + args;
      } else {
        assert forall i :: 0 <= i < |seps[1..]| ==> seps[1..][i] == seps[i + 1];
        FeedQuotedLine(before + [args[0]], args[1..], seps[1..]);
        assert before + [args[0]] + args[1..] == before + args;
      }
    }
  }

  /** Splitting inverts quoting: any list of arguments, empty ones included, double-quoted and separated by any
      non-empty runs of blanks, with blanks before and after, splits back into that list. */
  lemma {:induction false} SplitInvertsQuoting(lead: string, args: seq<string>, seps: seq<string>)
    requires |args| == |seps| && Blanks(lead)
             && forall i :: 0 <= i < |seps| ==> Blanks(seps[i]) && (i < |seps| - 1 ==> seps[i] != "")
    ensures Split(lead + QuotedLine(args, seps)) == Outcome(true, args)
  {
    FeedConcat(START, lead, QuotedLine(args, seps));
    FeedBlanks(START, lead);
    assert START.args + [] == START.args;
    FeedQuotedLine([], args, seps);
    assert [] + args == args;
  }
}
