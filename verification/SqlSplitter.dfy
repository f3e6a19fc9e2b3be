/**
 * `splitSqlStatements` (packages/migrations/src/index.ts:82-188).
 *
 * The specification cuts a token list at its splitting semicolons; the method is the source's one
 * pass over the characters, proved to compute the same.
 */
module SqlSplitter {
  import opened Options
  import opened SqlTokens

  datatype SplitError = Unterminated | MalformedTrigger | UnterminatedTrigger

  type SplitResult = Result<seq<string>, SplitError>

  // ------------------------------------------------------------- what a statement is

  datatype Group = Group(hasCode: bool, leading: seq<Keyword>, trigger: bool, begun: bool, ended: bool, depth: nat)

  const EMPTY: Group := Group(false, [], false, false, false, 0)

  predicate StartsTrigger(leading: seq<Keyword>) {
    && |leading| > 1 && leading[0].Create?
    && (leading[1].Trigger? || (leading[1].Temporary? && |leading| > 2 && leading[2].Trigger?))
  }

  function ObserveBody(g: Group, word: Keyword): Group {
    if !g.trigger then g
    else if !g.begun && word.Begin? then g.(begun := true)
    else if g.begun && word.Case? then g.(depth := g.depth + 1)
    else if g.begun && word.End? then (if g.depth > 0 then g.(depth := g.depth - 1) else g.(ended := true))
    else g
  }

  function ObserveWord(g: Group, word: Keyword): Group {
    var leading := if |g.leading| < 3 then g.leading + [word] else g.leading;
    ObserveBody(g.(hasCode := true, leading := leading, trigger := g.trigger || StartsTrigger(leading)), word)
  }

  function Observe(a: Alphabet, g: Group, token: Token): Group {
    match token.kind
    case Word => ObserveWord(g, a.keyword(token.text))
    case Quoted => g.(hasCode := true)
    case Symbol => g.(hasCode := true)
    case _ => g
  }

  function GroupOf(a: Alphabet, tokens: seq<Token>): Group {
    if |tokens| == 0 then EMPTY else Observe(a, GroupOf(a, tokens[..|tokens| - 1]), tokens[|tokens| - 1])
  }

  /** Inside the compound body of a trigger, where a semicolon does not split. */
  predicate InTriggerBody(g: Group) {
    g.trigger && g.begun && !g.ended
  }

  datatype Cut = Segments(segments: seq<seq<Token>>) | Malformed

  function Prepend(segments: seq<seq<Token>>, cut: Cut): Cut {
    if cut.Malformed? then cut else Segments(segments + cut.segments)
  }

  /** The segments between splitting semicolons, each with its semicolon; the last one has none. */
  function CutTokens(a: Alphabet, tokens: seq<Token>, current: seq<Token>): Cut
    decreases |tokens|
  {
    if |tokens| == 0 then Segments([current])
    else
      var g := GroupOf(a, current);
      if !tokens[0].kind.Semicolon? || InTriggerBody(g) then CutTokens(a, tokens[1..], current + [tokens[0]])
      else if g.trigger && !g.begun then Malformed
      else Prepend([current + [tokens[0]]], CutTokens(a, tokens[1..], []))
  }

  function TrimLeft(a: Alphabet, s: string): string {
    if |s| > 0 && a.space(s[0]) then TrimLeft(a, s[1..]) else s
  }

  function TrimRight(a: Alphabet, s: string): string {
    if |s| > 0 && a.space(s[|s| - 1]) then TrimRight(a, s[..|s| - 1]) else s
  }

  function Trim(a: Alphabet, s: string): string {
    TrimRight(a, TrimLeft(a, s))
  }

  function Statements(a: Alphabet, segments: seq<seq<Token>>): seq<string> {
    if |segments| == 0 then []
    else
      var init := Statements(a, segments[..|segments| - 1]);
      var last := segments[|segments| - 1];
      if GroupOf(a, last).hasCode then init + [Trim(a, Text(last))] else init
  }

  /** The statements of a cut, unless the script breaks off somewhere. */
  function Judge(a: Alphabet, cut: Cut, terminated: bool): SplitResult {
    match cut
    case Malformed => Err(MalformedTrigger)
    case Segments(segments) =>
      if !terminated then Err(Unterminated)
      else if |segments| > 0 && GroupOf(a, segments[|segments| - 1]).trigger then Err(UnterminatedTrigger)
      else Ok(Statements(a, segments))
  }

  function Split(a: Alphabet, script: string): SplitResult {
    Judge(a, CutTokens(a, Lex(a, script).tokens, []), Lex(a, script).terminated)
  }

  // ---------------------------------------------------------------- the one-pass loop

  datatype Mode = Normal | InQuote(delimiter: char) | InLineComment | InBlockComment

  /** How far the loop has come: `segments` are cut off, `current` reaches to the position `at`. */
  predicate Progress(a: Alphabet, script: string, segments: seq<seq<Token>>, current: seq<Token>, start: int, at: int) {
    && 0 <= start <= at <= |script|
    && script[start..at] == Text(current)
    && CutTokens(a, Lex(a, script).tokens, []) == Prepend(segments, CutTokens(a, Lex(a, script[at..]).tokens, current))
    && Lex(a, script).terminated == Lex(a, script[at..]).terminated
  }

  /** The token in progress, whose first characters lie between `at` and `index`. */
  predicate InToken(a: Alphabet, script: string, mode: Mode, at: int, index: int)
    requires 0 <= at <= index <= |script|
  {
    match mode
    case Normal => at == index
    case InQuote(d) => at < index && First(a, script[at..]) == Measured(Quoted, index - at, QuoteLength(script[index..], d))
    case InLineComment => at < index && First(a, script[at..]) == Some(Extent(LineComment, index - at + LineLength(script[index..])))
    case InBlockComment => at < index && First(a, script[at..]) == Measured(BlockComment, index - at, BlockLength(script[index..]))
  }

  lemma LexStep(a: Alphabet, script: string, at: int, e: Extent)
    requires 0 <= at < |script| && First(a, script[at..]) == Some(e)
    ensures 1 <= e.length <= |script| - at
    ensures Lex(a, script[at..]).tokens == [Token(e.kind, script[at..at + e.length])] + Lex(a, script[at + e.length..]).tokens
    ensures Lex(a, script[at..]).terminated == Lex(a, script[at + e.length..]).terminated
  {
    var s := script[at..];
    FirstBound(a, s);
    assert s[..e.length] == script[at..at + e.length];
    assert s[e.length..] == script[at + e.length..];
  }

  lemma TextMore(script: string, current: seq<Token>, start: int, at: int, token: Token)
    requires 0 <= start <= at <= |script| && script[start..at] == Text(current) && at + |token.text| <= |script|
    requires script[at..at + |token.text|] == token.text
    ensures script[start..at + |token.text|] == Text(current + [token])
  {
    TextConcat(current, [token]);
    assert Text([token]) == token.text;
  }

  lemma ConsumeToken(a: Alphabet, script: string, segments: seq<seq<Token>>, current: seq<Token>, start: int, at: int, e: Extent)
    requires Progress(a, script, segments, current, start, at) && at < |script| && First(a, script[at..]) == Some(e)
    requires !e.kind.Semicolon? || InTriggerBody(GroupOf(a, current))
    ensures 1 <= e.length <= |script| - at
    ensures var token := Token(e.kind, script[at..at + e.length]);
      && Progress(a, script, segments, current + [token], start, at + e.length)
      && GroupOf(a, current + [token]) == Observe(a, GroupOf(a, current), token)
  {
    hide First, Lex, Observe, InTriggerBody;
    LexStep(a, script, at, e);
    var token := Token(e.kind, script[at..at + e.length]);
    TextMore(script, current, start, at, token);
    assert (current + [token])[..|current|] == current;
    assert Lex(a, script[at..]).tokens[1..] == Lex(a, script[at + e.length..]).tokens;
  }

  lemma ConsumeSplit(a: Alphabet, script: string, segments: seq<seq<Token>>, current: seq<Token>, start: int, at: int)
    requires Progress(a, script, segments, current, start, at) && at < |script| && First(a, script[at..]) == Some(Extent(Semicolon, 1))
    requires var g := GroupOf(a, current); !InTriggerBody(g) && !(g.trigger && !g.begun)
    ensures var segment := current + [Token(Semicolon, script[at..at + 1])];
      && Progress(a, script, segments + [segment], [], at + 1, at + 1)
      && GroupOf(a, segment).hasCode == GroupOf(a, current).hasCode
      && Text(segment) == script[start..at + 1]
      && Statements(a, segments + [segment]) ==
           Statements(a, segments) + if GroupOf(a, current).hasCode then [Trim(a, script[start..at + 1])] else []
  {
    hide First, Lex, Trim;
    LexStep(a, script, at, Extent(Semicolon, 1));
    var token := Token(Semicolon, script[at..at + 1]);
    var segment := current + [token];
    TextMore(script, current, start, at, token);
    assert segment[..|current|] == current;
    var rest := CutTokens(a, Lex(a, script[at + 1..]).tokens, []);
    assert Lex(a, script[at..]).tokens[1..] == Lex(a, script[at + 1..]).tokens;
    if rest.Segments? {
      assert segments + ([segment] + rest.segments) == (segments + [segment]) + rest.segments;
    }
    assert (segments + [segment])[..|segments|] == segments;
  }

  lemma SplitMalformed(a: Alphabet, script: string, segments: seq<seq<Token>>, current: seq<Token>, start: int, at: int)
    requires Progress(a, script, segments, current, start, at) && at < |script| && First(a, script[at..]) == Some(Extent(Semicolon, 1))
    requires GroupOf(a, current).trigger && !GroupOf(a, current).begun
    ensures Split(a, script) == Err(MalformedTrigger)
  {
    hide First, Lex;
    LexStep(a, script, at, Extent(Semicolon, 1));
  }

  lemma SplitEnd(a: Alphabet, script: string, segments: seq<seq<Token>>, current: seq<Token>, start: int)
    requires Progress(a, script, segments, current, start, |script|)
    ensures Split(a, script) ==
      if GroupOf(a, current).trigger then Err(UnterminatedTrigger)
      else Ok(Statements(a, segments) + if GroupOf(a, current).hasCode then [Trim(a, script[start..])] else [])
  {
    hide First, Trim;
    assert script[|script|..] == "";
    assert Lex(a, "").tokens == [] && Lex(a, script).terminated;
    assert CutTokens(a, Lex(a, script).tokens, []) == Segments(segments + [current]);
    assert Text(current) == script[start..];
    assert (segments + [current])[..|segments|] == segments;
    assert Statements(a, segments + [current]) == Statements(a, segments) + if GroupOf(a, current).hasCode then [Trim(a, Text(current))] else [];
  }

  lemma SplitUnterminated(a: Alphabet, script: string, segments: seq<seq<Token>>, current: seq<Token>, start: int, at: int)
    requires Progress(a, script, segments, current, start, at) && at < |script| && First(a, script[at..]).None?
    ensures Split(a, script) == Err(Unterminated)
  {
    hide First;
  }

  /** Where the next character leaves a token in progress. */
  lemma InsideToken(a: Alphabet, script: string, mode: Mode, at: int, index: int)
    requires 0 <= at <= index < |script| && InToken(a, script, mode, at, index) && !mode.Normal?
    ensures match mode
      case InLineComment =>
        if script[index] == '\n' then First(a, script[at..]) == Some(Extent(LineComment, index + 1 - at)) else InToken(a, script, mode, at, index + 1)
      case InBlockComment =>
        if script[index] == '*' && index + 1 < |script| && script[index + 1] == '/'
        then First(a, script[at..]) == Some(Extent(BlockComment, index + 2 - at)) else InToken(a, script, mode, at, index + 1)
      case InQuote(d) =>
        if script[index] == d && index + 1 < |script| && script[index + 1] == d then InToken(a, script, mode, at, index + 2)
        else if script[index] == d then First(a, script[at..]) == Some(Extent(Quoted, index + 1 - at))
        else InToken(a, script, mode, at, index + 1)
      case Normal => true
  {
    hide First;
    var rest := script[index..];
    assert rest[1..] == script[index + 1..];
    if |rest| > 1 {
      assert rest[2..] == script[index + 2..];
    }
  }

  /** How a token begins. */
  lemma OpenToken(a: Alphabet, script: string, index: int)
    requires 0 <= index < |script| && !WordStart(script[index])
    ensures var c := script[index]; var two := index + 1 < |script|;
      if c == '-' && two && script[index + 1] == '-' then InToken(a, script, InLineComment, index, index + 2)
      else if c == '/' && two && script[index + 1] == '*' then InToken(a, script, InBlockComment, index, index + 2)
      else if Opening(c) then InToken(a, script, InQuote(Closing(c)), index, index + 1)
      else First(a, script[index..]) == Some(Extent(if c == ';' then Semicolon else if a.space(c) then Blank else Symbol, 1))
  {
    var rest := script[index..];
    assert rest[1..] == script[index + 1..];
    if |rest| > 1 {
      assert rest[2..] == script[index + 2..];
    }
  }

  /** The word at `index`, up to `end`. */
  method ScanWord(a: Alphabet, script: string, index: nat) returns (end: nat)
    requires index < |script| && WordStart(script[index])
    ensures index < end <= |script|
    ensures First(a, script[index..]) == Some(Extent(Word, end - index))
  {
    end := index + 1;
    assert script[index..][1..] == script[index + 1..];
    while end < |script| && a.wordPart(script[end])
      invariant index < end <= |script|
      invariant First(a, script[index..]) == Some(Extent(Word, end - index + WordLength(a, script[end..])))
    {
      assert script[end..][1..] == script[end + 1..];
      end := end + 1;
    }
  }

  lemma StartProgress(a: Alphabet, script: string)
    ensures Progress(a, script, [], [], 0, 0) && InToken(a, script, Normal, 0, 0)
    ensures Statements(a, []) == [] && GroupOf(a, []) == EMPTY
  {
    hide Lex;
    assert script[0..] == script;
    var cut := CutTokens(a, Lex(a, script).tokens, []);
    if cut.Segments? {
      assert [] + cut.segments == cut.segments;
    }
  }

  lemma AtNormal(a: Alphabet, script: string, index: int)
    requires 0 <= index <= |script|
    ensures InToken(a, script, Normal, index, index)
  {
  }

  /** A token that is still in progress at the end of the script. */
  lemma AtEnd(a: Alphabet, script: string, mode: Mode, at: int)
    requires 0 <= at <= |script| && InToken(a, script, mode, at, |script|)
    ensures mode.InQuote? || mode.InBlockComment? ==> at < |script| && First(a, script[at..]).None?
    ensures mode.InLineComment? ==> at < |script| && First(a, script[at..]) == Some(Extent(LineComment, |script| - at))
  {
    hide First;
    assert script[|script|..] == "";
  }

  function KindOf(mode: Mode): Kind {
    match mode
    case InLineComment => LineComment
    case InBlockComment => BlockComment
    case _ => Quoted
  }

  /** The first branches of the loop: one or two characters inside a comment, quote or bracket. */
  method InsideStep(a: Alphabet, script: string, mode: Mode, ghost at: nat, index: nat) returns (closed: bool, next: nat)
    requires at <= index < |script| && InToken(a, script, mode, at, index) && !mode.Normal?
    ensures index < next <= |script|
    ensures closed ==> First(a, script[at..]) == Some(Extent(KindOf(mode), next - at))
    ensures !closed ==> InToken(a, script, mode, at, next)
  {
    hide InToken, First;
    InsideToken(a, script, mode, at, index);
    var character := script[index];
    var pair := index + 1 < |script|;
    match mode {
      case InLineComment => return character == '\n', index + 1;
      case InBlockComment =>
        if character == '*' && pair && script[index + 1] == '/' {
          return true, index + 2;
        }
        return false, index + 1;
      case InQuote(delimiter) =>
        if character == delimiter && pair && script[index + 1] == delimiter {
          return false, index + 2;
        }
        return character == delimiter, index + 1;
    }
  }

  /** What the loop notes about a word. */
  method NoteWord(word: Keyword, ghost hasCode: bool, leading: seq<Keyword>, trigger: bool, begun: bool, ended: bool, depth: nat)
    returns (leadingWords: seq<Keyword>, createTrigger: bool, triggerBodyStarted: bool, triggerBodyEnded: bool, triggerCaseDepth: nat)
    ensures Group(true, leadingWords, createTrigger, triggerBodyStarted, triggerBodyEnded, triggerCaseDepth)
      == ObserveWord(Group(hasCode, leading, trigger, begun, ended, depth), word)
  {
    leadingWords, triggerBodyStarted, triggerBodyEnded, triggerCaseDepth := leading, begun, ended, depth;
    if |leadingWords| < 3 {
      leadingWords := leadingWords + [word];
    }
    createTrigger := trigger || StartsTrigger(leadingWords);
    if createTrigger {
      if !triggerBodyStarted && word.Begin? {
        triggerBodyStarted := true;
      } else if triggerBodyStarted && word.Case? {
        triggerCaseDepth := triggerCaseDepth + 1;
      } else if triggerBodyStarted && word.End? {
        if triggerCaseDepth > 0 {
          triggerCaseDepth := triggerCaseDepth - 1;
        } else {
          triggerBodyEnded := true;
        }
      }
    }
  }

  // ------------------------------------------------------------------ the loop's state

  /** The ghost side of the loop: what has been cut off, the current segment, and where its last token ends. */
  datatype Trace = Trace(segments: seq<seq<Token>>, current: seq<Token>, at: nat)

  predicate LoopState(a: Alphabet, script: string, t: Trace, mode: Mode, start: nat, index: nat, statements: seq<string>, g: Group) {
    && start <= t.at <= index <= |script|
    && Progress(a, script, t.segments, t.current, start, t.at) && InToken(a, script, mode, t.at, index)
    && statements == Statements(a, t.segments)
    && g == (if mode.InQuote? then GroupOf(a, t.current).(hasCode := true) else GroupOf(a, t.current))
  }

  function MoreToken(t: Trace, script: string, kind: Kind, next: nat): Trace
    requires t.at <= next <= |script|
  {
    Trace(t.segments, t.current + [Token(kind, script[t.at..next])], next)
  }

  lemma StateStart(a: Alphabet, script: string)
    ensures LoopState(a, script, Trace([], [], 0), Normal, 0, 0, [], EMPTY)
  {
    hide Progress, InToken, GroupOf, Statements;
    StartProgress(a, script);
  }

  lemma StateBounds(a: Alphabet, script: string, t: Trace, mode: Mode, start: nat, index: nat, statements: seq<string>, g: Group)
    requires LoopState(a, script, t, mode, start, index, statements, g)
    ensures start <= t.at <= index <= |script| && InToken(a, script, mode, t.at, index) && (mode.Normal? ==> t.at == index) && (mode.InQuote? ==> g.hasCode)
  {
    hide Progress, GroupOf, Statements, First;
  }

  /** A token other than a semicolon or a word ends at `next`. */
  lemma StateToken(a: Alphabet, script: string, t: Trace, mode: Mode, start: nat, index: nat, statements: seq<string>, g: Group, kind: Kind, next: nat)
    requires LoopState(a, script, t, mode, start, index, statements, g) && t.at < next <= |script|
    requires First(a, script[t.at..]) == Some(Extent(kind, next - t.at))
    requires !kind.Semicolon? && !kind.Word? && (mode.InQuote? ==> kind.Quoted?)
    ensures LoopState(a, script, MoreToken(t, script, kind, next), Normal, start, next, statements, if kind.Quoted? || kind.Symbol? then g.(hasCode := true) else g)
  {
    hide Progress, InToken, GroupOf, Statements, First;
    ConsumeToken(a, script, t.segments, t.current, start, t.at, Extent(kind, next - t.at));
    AtNormal(a, script, next);
  }

  lemma StateWord(a: Alphabet, script: string, t: Trace, start: nat, statements: seq<string>, g: Group, next: nat)
    requires LoopState(a, script, t, Normal, start, t.at, statements, g) && t.at < next <= |script|
    requires First(a, script[t.at..]) == Some(Extent(Word, next - t.at))
    ensures LoopState(a, script, MoreToken(t, script, Word, next), Normal, start, next, statements, ObserveWord(g, a.keyword(script[t.at..next])))
  {
    hide Progress, InToken, GroupOf, Statements, First, ObserveWord;
    ConsumeToken(a, script, t.segments, t.current, start, t.at, Extent(Word, next - t.at));
    AtNormal(a, script, next);
  }

  lemma StateInside(a: Alphabet, script: string, t: Trace, mode: Mode, start: nat, index: nat, statements: seq<string>, g: Group, mode': Mode, next: nat)
    requires LoopState(a, script, t, mode, start, index, statements, g) && index < next <= |script| && InToken(a, script, mode', t.at, next)
    requires mode == mode' || (mode.Normal? && !mode'.Normal?)
    ensures LoopState(a, script, t, mode', start, next, statements, if mode'.InQuote? then g.(hasCode := true) else g)
  {
    hide Progress, InToken, GroupOf, Statements, First;
  }

  lemma StateBodySemicolon(a: Alphabet, script: string, t: Trace, start: nat, statements: seq<string>, g: Group)
    requires LoopState(a, script, t, Normal, start, t.at, statements, g) && t.at < |script|
    requires First(a, script[t.at..]) == Some(Extent(Semicolon, 1)) && InTriggerBody(g)
    ensures LoopState(a, script, MoreToken(t, script, Semicolon, t.at + 1), Normal, start, t.at + 1, statements, g)
  {
    hide Progress, InToken, GroupOf, Statements, First;
    ConsumeToken(a, script, t.segments, t.current, start, t.at, Extent(Semicolon, 1));
    AtNormal(a, script, t.at + 1);
  }

  lemma StateSplit(a: Alphabet, script: string, t: Trace, start: nat, statements: seq<string>, g: Group) returns (t': Trace)
    requires LoopState(a, script, t, Normal, start, t.at, statements, g) && t.at < |script|
    requires First(a, script[t.at..]) == Some(Extent(Semicolon, 1)) && !InTriggerBody(g) && !(g.trigger && !g.begun)
    ensures t'.at == t.at + 1
    ensures LoopState(a, script, t', Normal, t.at + 1, t.at + 1, statements + if g.hasCode then [Trim(a, script[start..t.at + 1])] else [], EMPTY)
  {
    hide Progress, InToken, Statements, First, Trim;
    ConsumeSplit(a, script, t.segments, t.current, start, t.at);
    AtNormal(a, script, t.at + 1);
    t' := Trace(t.segments + [t.current + [Token(Semicolon, script[t.at..t.at + 1])]], [], t.at + 1);
  }

  lemma StateMalformed(a: Alphabet, script: string, t: Trace, start: nat, statements: seq<string>, g: Group)
    requires LoopState(a, script, t, Normal, start, t.at, statements, g) && t.at < |script|
    requires First(a, script[t.at..]) == Some(Extent(Semicolon, 1)) && g.trigger && !g.begun
    ensures Split(a, script) == Err(MalformedTrigger)
  {
    hide Progress, InToken, GroupOf, Statements, First, Split;
    SplitMalformed(a, script, t.segments, t.current, start, t.at);
  }

  /** What the code after the loop returns. */
  function Ending(a: Alphabet, script: string, mode: Mode, start: nat, statements: seq<string>, g: Group): SplitResult
    requires start <= |script|
  {
    if mode.InQuote? || mode.InBlockComment? then Err(Unterminated)
    else if g.trigger then Err(UnterminatedTrigger)
    else Ok(statements + if g.hasCode then [Trim(a, script[start..])] else [])
  }

  lemma StateEnd(a: Alphabet, script: string, t: Trace, mode: Mode, start: nat, statements: seq<string>, g: Group)
    requires LoopState(a, script, t, mode, start, |script|, statements, g)
    ensures start <= |script| && Split(a, script) == Ending(a, script, mode, start, statements, g)
  {
    hide Progress, InToken, GroupOf, Statements, First, Split, Trim;
    AtEnd(a, script, mode, t.at);
    if mode.InQuote? || mode.InBlockComment? {
      SplitUnterminated(a, script, t.segments, t.current, start, t.at);
    } else if mode.InLineComment? {
      StateToken(a, script, t, mode, start, |script|, statements, g, LineComment, |script|);
      var t' := MoreToken(t, script, LineComment, |script|);
      SplitEnd(a, script, t'.segments, t'.current, start);
    } else {
      StateBounds(a, script, t, mode, start, |script|, statements, g);
      SplitEnd(a, script, t.segments, t.current, start);
    }
  }

  /** The one pass over the characters computes the specification. */
  method SplitSqlStatements(a: Alphabet, script: string) returns (result: SplitResult)
    ensures result == Split(a, script)
  {
    hide LoopState, InToken, Split, Trim, First, WordStart, ObserveWord;
    var statements: seq<string> := [];
    var mode := Normal;
    var start: nat := 0;
    var hasCode, createTrigger, triggerBodyStarted, triggerBodyEnded := false, false, false, false;
    var leadingWords: seq<Keyword> := [];
    var triggerCaseDepth: nat := 0;
    ghost var t := Trace([], [], 0);
    var index: nat := 0;
    StateStart(a, script);
    while index < |script|
      invariant index <= |script|
      invariant LoopState(a, script, t, mode, start, index, statements,
                          Group(hasCode, leadingWords, createTrigger, triggerBodyStarted, triggerBodyEnded, triggerCaseDepth))
    {
      ghost var g := Group(hasCode, leadingWords, createTrigger, triggerBodyStarted, triggerBodyEnded, triggerCaseDepth);
      StateBounds(a, script, t, mode, start, index, statements, g);
      var character := script[index];
      var pair := index + 1 < |script|;
      if !mode.Normal? {
        var closed, next := InsideStep(a, script, mode, t.at, index);
        if closed {
          StateToken(a, script, t, mode, start, index, statements, g, KindOf(mode), next);
          t := MoreToken(t, script, KindOf(mode), next);
          mode := Normal;
        } else {
          StateInside(a, script, t, mode, start, index, statements, g, mode, next);
        }
        index := next;
      } else if WordStart(character) {
        var end := ScanWord(a, script, index);
        StateWord(a, script, t, start, statements, g, end);
        t := MoreToken(t, script, Word, end);
        leadingWords, createTrigger, triggerBodyStarted, triggerBodyEnded, triggerCaseDepth :=
          NoteWord(a.keyword(script[index..end]), hasCode, leadingWords, createTrigger, triggerBodyStarted, triggerBodyEnded, triggerCaseDepth);
        hasCode := true;
        index := end;
      } else {
        OpenToken(a, script, index);
        if character == '-' && pair && script[index + 1] == '-' {
          StateInside(a, script, t, mode, start, index, statements, g, InLineComment, index + 2);
          mode, index := InLineComment, index + 2;
        } else if character == '/' && pair && script[index + 1] == '*' {
          StateInside(a, script, t, mode, start, index, statements, g, InBlockComment, index + 2);
          mode, index := InBlockComment, index + 2;
        } else if Opening(character) {
          StateInside(a, script, t, mode, start, index, statements, g, InQuote(Closing(character)), index + 1);
          mode, hasCode, index := InQuote(Closing(character)), true, index + 1;
        } else if character == ';' {
          if createTrigger && (!triggerBodyStarted || !triggerBodyEnded) {
            if !triggerBodyStarted {
              StateMalformed(a, script, t, start, statements, g);
              return Err(MalformedTrigger);
            }
            StateBodySemicolon(a, script, t, start, statements, g);
            t := MoreToken(t, script, Semicolon, index + 1);
          } else {
            t := StateSplit(a, script, t, start, statements, g);
            if hasCode {
              statements := statements + [Trim(a, script[start..index + 1])];
            } else {
              assert statements + [] == statements;
            }
            start, hasCode := index + 1, false;
            leadingWords, createTrigger, triggerBodyStarted, triggerBodyEnded, triggerCaseDepth := [], false, false, false, 0;
          }
          index := index + 1;
        } else {
          ghost var kind := if a.space(character) then Blank else Symbol;
          StateToken(a, script, t, mode, start, index, statements, g, kind, index + 1);
          t := MoreToken(t, script, kind, index + 1);
          if !a.space(character) {
            hasCode := true;
          }
          index := index + 1;
        }
      }
    }
    ghost var g := Group(hasCode, leadingWords, createTrigger, triggerBodyStarted, triggerBodyEnded, triggerCaseDepth);
    StateEnd(a, script, t, mode, start, statements, g);
    if mode.InQuote? || mode.InBlockComment? {
      return Err(Unterminated);
    }
    if createTrigger {
      return Err(UnterminatedTrigger);
    }
    if hasCode {
      return Ok(statements + [Trim(a, script[start..])]);
    }
    assert statements + [] == statements;
    return Ok(statements);
  }
}
