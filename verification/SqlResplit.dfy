/**
 * Splitting the statements that `splitSqlStatements` returned, joined by line feeds, returns the
 * same statements (packages/migrations/src/index.ts:82-188).
 */
module SqlResplit {
  import opened Options
  import opened SqlTokens
  import opened SqlSplitter
  import opened SqlSplitterLaws

  // ------------------------------------------------------------------ lexing pieces

  /** Lexing the text of these tokens gives them back. */
  predicate Lexable(a: Alphabet, tokens: seq<Token>) {
    Lex(a, Text(tokens)) == Lexed(tokens, true)
  }

  lemma LexableHead(a: Alphabet, tokens: seq<Token>)
    requires Lexable(a, tokens) && |tokens| > 0
    ensures 1 <= |tokens[0].text| <= |Text(tokens)|
    ensures First(a, Text(tokens)) == Some(Extent(tokens[0].kind, |tokens[0].text|))
    ensures Lexable(a, tokens[1..])
  {
    var s := Text(tokens);
    assert First(a, s).Some?;
    var e := First(a, s).value;
    FirstBound(a, s);
    assert tokens[0] == Token(e.kind, s[..e.length]);
    assert s[e.length..] == Text(tokens[1..]);
    assert Lex(a, s[e.length..]).tokens == tokens[1..];
  }

  lemma LexableCons(a: Alphabet, token: Token, rest: seq<Token>)
    requires |token.text| > 0 && First(a, token.text + Text(rest)) == Some(Extent(token.kind, |token.text|)) && Lexable(a, rest)
    ensures Lexable(a, [token] + rest)
  {
    var tokens := [token] + rest;
    assert tokens[1..] == rest;
    var s := token.text + Text(rest);
    assert s[..|token.text|] == token.text && s[|token.text|..] == Text(rest);
  }

  lemma {:induction false} LexablePrefix(a: Alphabet, p: seq<Token>, q: seq<Token>)
    requires Lexable(a, p + q)
    ensures Lexable(a, p)
    decreases |p|
  {
    if |p| > 0 {
      hide Lexable, First;
      LexableHead(a, p + q);
      assert (p + q)[1..] == p[1..] + q;
      LexablePrefix(a, p[1..], q);
      TextConcat(p, q);
      FirstOfPrefix(a, Text(p), Text(q));
      assert p == [p[0]] + p[1..];
      LexableCons(a, p[0], p[1..]);
    } else {
      assert p == [];
    }
  }

  lemma {:induction false} LexableSuffix(a: Alphabet, p: seq<Token>, q: seq<Token>)
    requires Lexable(a, p + q)
    ensures Lexable(a, q)
    decreases |p|
  {
    hide Lexable, First;
    if |p| > 0 {
      LexableHead(a, p + q);
      assert (p + q)[1..] == p[1..] + q;
      LexableSuffix(a, p[1..], q);
    } else {
      assert p + q == q;
    }
  }

  /** A line comment may lose its end. */
  lemma {:induction false} LexableCut(a: Alphabet, p: seq<Token>, comment: Token, k: nat)
    requires Lexable(a, p + [comment]) && comment.kind.LineComment? && 2 <= k <= |comment.text|
    requires forall i :: 0 <= i < k ==> comment.text[i] != '\n'
    ensures Lexable(a, p + [Token(LineComment, comment.text[..k])])
    decreases |p|
  {
    hide Lexable, First, Text, Lex;
    var short := Token(LineComment, comment.text[..k]);
    if |p| == 0 {
      assert p + [comment] == [comment] && p + [short] == [short];
      ShortComment(a, comment, k);
    } else {
      LexableHead(a, p + [comment]);
      assert (p + [comment])[1..] == p[1..] + [comment];
      LexableCut(a, p[1..], comment, k);
      var x := p[0].text + Text(p[1..] + [short]);
      assert Text(p + [comment]) == x + comment.text[k..] by { CutText(p, comment, k); }
      FirstOfPrefix(a, x, comment.text[k..]);
      LexableCons(a, p[0], p[1..] + [short]);
      assert [p[0]] + (p[1..] + [short]) == p + [short];
    }
  }

  lemma CutText(p: seq<Token>, comment: Token, k: nat)
    requires |p| > 0 && k <= |comment.text|
    ensures Text(p + [comment]) == p[0].text + Text(p[1..] + [Token(LineComment, comment.text[..k])]) + comment.text[k..]
  {
    hide Text;
    var short := Token(LineComment, comment.text[..k]);
    TextConcat(p, [comment]);
    TextConcat(p[1..], [short]);
    TextOne(comment);
    TextOne(short);
    TextHead(p);
    Regroup(p[0].text, Text(p[1..]), comment.text, k);
  }

  lemma TextOne(token: Token)
    ensures Text([token]) == token.text
  {
  }

  lemma TextHead(tokens: seq<Token>)
    requires |tokens| > 0
    ensures Text(tokens) == tokens[0].text + Text(tokens[1..])
  {
  }

  lemma Regroup(x: string, y: string, z: string, k: nat)
    requires k <= |z|
    ensures x + (y + z[..k]) + z[k..] == (x + y) + z
  {
  }

  lemma ShortComment(a: Alphabet, comment: Token, k: nat)
    requires Lexable(a, [comment]) && comment.kind.LineComment? && 2 <= k <= |comment.text|
    requires forall i :: 0 <= i < k ==> comment.text[i] != '\n'
    ensures Lexable(a, [Token(LineComment, comment.text[..k])])
  {
    hide Lexable;
    var short := Token(LineComment, comment.text[..k]);
    LexableHead(a, [comment]);
    assert Text([comment]) == comment.text;
    CommentStart(a, comment.text);
    WholeLine(short.text[2..]);
    assert Lexable(a, []) by { NothingLexable(a); }
    assert short.text + Text([]) == short.text;
    LexableCons(a, short, []);
    assert [short] + [] == [short];
  }

  lemma NothingLexable(a: Alphabet)
    ensures Lexable(a, [])
  {
  }

  lemma CommentStart(a: Alphabet, s: string)
    requires |s| > 0 && First(a, s).Some? && First(a, s).value.kind.LineComment?
    ensures |s| > 1 && s[0] == '-' && s[1] == '-'
  {
  }

  lemma {:induction false} WholeLine(s: string)
    requires forall i :: 0 <= i < |s| ==> s[i] != '\n'
    ensures LineLength(s) == |s|
  {
    if |s| > 0 {
      WholeLine(s[1..]);
    }
  }

  /** What follows a semicolon is lexed on its own. */
  lemma {:induction false} LexAfterSemicolon(a: Alphabet, tokens: seq<Token>, y: string)
    requires Lexable(a, tokens) && |tokens| > 0 && tokens[|tokens| - 1].kind.Semicolon?
    ensures Lex(a, Text(tokens) + y) == Lexed(tokens + Lex(a, y).tokens, Lex(a, y).terminated)
    decreases |tokens|
  {
    hide Lexable, First;
    var s := Text(tokens);
    LexableHead(a, tokens);
    var n := |tokens[0].text|;
    if |tokens| == 1 {
      assert tokens == [tokens[0]] && Text(tokens[1..]) == "";
    } else {
      LexableHead(a, tokens[1..]);
    }
    FirstExtended(a, s, y);
    assert (s + y)[..n] == tokens[0].text;
    assert (s + y)[n..] == Text(tokens[1..]) + y;
    if |tokens| == 1 {
      assert Text(tokens[1..]) + y == y;
    } else {
      LexAfterSemicolon(a, tokens[1..], y);
    }
    assert Lex(a, s + y).tokens == [tokens[0]] + Lex(a, Text(tokens[1..]) + y).tokens;
    assert tokens == [tokens[0]] + tokens[1..];
  }

  // ------------------------------------------------------------------- token shapes

  /** What the characters of a token say about its ends. */
  predicate TokenOk(a: Alphabet, token: Token) {
    && |token.text| > 0
    && (token.kind.Blank? <==> a.space(token.text[0]))
    && (token.kind.Blank? ==> |token.text| == 1)
    && (!token.kind.Blank? && !token.kind.LineComment? ==> !a.space(token.text[|token.text| - 1]))
    && (token.kind.LineComment? ==> |token.text| > 1 && token.text[1] == '-')
    && (token.kind.LineComment? ==> forall i :: 0 <= i < |token.text| - 1 ==> token.text[i] != '\n')
  }

  lemma {:induction false} WordChars(a: Alphabet, s: string)
    ensures WordLength(a, s) <= |s| && forall i :: 0 <= i < WordLength(a, s) ==> a.wordPart(s[i])
  {
    if |s| > 0 && a.wordPart(s[0]) { WordChars(a, s[1..]); }
  }

  lemma {:induction false} QuoteEnd(s: string, d: char)
    ensures QuoteLength(s, d).Some? ==> 1 <= QuoteLength(s, d).value <= |s| && s[QuoteLength(s, d).value - 1] == d
  {
    if |s| > 0 {
      if s[0] == d && |s| > 1 && s[1] == d { QuoteEnd(s[2..], d); } else { QuoteEnd(s[1..], d); }
    }
  }

  lemma {:induction false} BlockEnd(s: string)
    ensures BlockLength(s).Some? ==> 2 <= BlockLength(s).value <= |s| && s[BlockLength(s).value - 1] == '/'
  {
    if |s| > 0 { BlockEnd(s[1..]); }
  }

  lemma {:induction false} LineChars(s: string)
    ensures LineLength(s) <= |s| && forall i :: 0 <= i < LineLength(s) - 1 ==> s[i] != '\n'
  {
    if |s| > 0 { LineChars(s[1..]); }
  }

  lemma FirstOk(a: Alphabet, s: string)
    requires Sane(a) && |s| > 0 && First(a, s).Some?
    ensures First(a, s).value.length <= |s| && TokenOk(a, Token(First(a, s).value.kind, s[..First(a, s).value.length]))
  {
    FirstBound(a, s);
    WordChars(a, s[1..]);
    QuoteEnd(s[1..], Closing(s[0]));
    if |s| > 1 {
      LineChars(s[2..]);
      BlockEnd(s[2..]);
    }
  }

  lemma {:induction false} LexOk(a: Alphabet, s: string)
    requires Sane(a)
    ensures forall i :: 0 <= i < |Lex(a, s).tokens| ==> TokenOk(a, Lex(a, s).tokens[i])
    decreases |s|
  {
    hide TokenOk, Sane;
    if |s| > 0 && First(a, s).Some? {
      FirstOk(a, s);
      FirstBound(a, s);
      LexOk(a, s[First(a, s).value.length..]);
    }
  }

  // ------------------------------------------------------------------------ trimming

  predicate AllOk(a: Alphabet, tokens: seq<Token>) {
    forall i :: 0 <= i < |tokens| ==> TokenOk(a, tokens[i])
  }

  function DropLeading(tokens: seq<Token>): seq<Token> {
    if |tokens| > 0 && tokens[0].kind.Blank? then DropLeading(tokens[1..]) else tokens
  }

  /** Without trailing blanks, and without the white space at the end of a final line comment. */
  function DropTrailing(a: Alphabet, tokens: seq<Token>): seq<Token> {
    if |tokens| == 0 then []
    else
      var init, last := tokens[..|tokens| - 1], tokens[|tokens| - 1];
      if last.kind.Blank? then DropTrailing(a, init)
      else if last.kind.LineComment? then init + [Token(LineComment, TrimRight(a, last.text))]
      else tokens
  }

  lemma {:induction false} TrimLeftTokens(a: Alphabet, tokens: seq<Token>)
    requires AllOk(a, tokens)
    ensures TrimLeft(a, Text(tokens)) == Text(DropLeading(tokens))
  {
    if |tokens| > 0 {
      assert TokenOk(a, tokens[0]);
      if tokens[0].kind.Blank? {
        TrimLeftTokens(a, tokens[1..]);
        assert Text(tokens)[1..] == Text(tokens[1..]);
      }
    }
  }

  lemma {:induction false} TrimRightAppend(a: Alphabet, x: string, y: string)
    ensures TrimRight(a, x + y) == if |TrimRight(a, y)| > 0 then x + TrimRight(a, y) else TrimRight(a, x)
    decreases |y|
  {
    if |y| == 0 {
      assert x + y == x;
    } else if a.space(y[|y| - 1]) {
      assert (x + y)[..|x + y| - 1] == x + y[..|y| - 1];
      TrimRightAppend(a, x, y[..|y| - 1]);
    }
  }

  lemma {:induction false} TrimRightPrefix(a: Alphabet, s: string)
    ensures |TrimRight(a, s)| <= |s| && TrimRight(a, s) == s[..|TrimRight(a, s)|]
    ensures |TrimRight(a, s)| > 0 ==> !a.space(TrimRight(a, s)[|TrimRight(a, s)| - 1])
    ensures forall i :: |TrimRight(a, s)| <= i < |s| ==> a.space(s[i])
  {
    if |s| > 0 && a.space(s[|s| - 1]) {
      TrimRightPrefix(a, s[..|s| - 1]);
    }
  }

  lemma {:induction false} TrimRightTokens(a: Alphabet, tokens: seq<Token>)
    requires Sane(a) && AllOk(a, tokens)
    ensures TrimRight(a, Text(tokens)) == Text(DropTrailing(a, tokens))
  {
    hide Sane, TokenOk;
    if |tokens| > 0 {
      var init, last := tokens[..|tokens| - 1], tokens[|tokens| - 1];
      assert tokens == init + [last];
      TextConcat(init, [last]);
      assert Text([last]) == last.text;
      TrimRightAppend(a, Text(init), last.text);
      TrimRightPrefix(a, last.text);
      LastTrimmed(a, last);
      if last.kind.Blank? {
        TrimRightTokens(a, init);
      } else if last.kind.LineComment? {
        TextConcat(init, [Token(LineComment, TrimRight(a, last.text))]);
        assert Text([Token(LineComment, TrimRight(a, last.text))]) == TrimRight(a, last.text);
      }
    }
  }

  lemma LastTrimmed(a: Alphabet, token: Token)
    requires Sane(a) && TokenOk(a, token)
    ensures token.kind.Blank? ==> TrimRight(a, token.text) == ""
    ensures |token.text| > 0 && |TrimRight(a, token.text)| <= |token.text|
    ensures token.kind.LineComment? ==> |TrimRight(a, token.text)| >= 2 && forall i :: 0 <= i < |TrimRight(a, token.text)| ==> token.text[i] != '\n'
    ensures !token.kind.Blank? && !token.kind.LineComment? ==> TrimRight(a, token.text) == token.text
  {
    TrimRightPrefix(a, token.text);
    if token.kind.Blank? {
      assert TrimRight(a, "") == "";
    }
    if token.kind.LineComment? {
      assert !a.space(token.text[1]);
    }
  }

  // ---------------------------------------------------------------- trimmed segments

  lemma {:induction false} DropLeadingSplit(tokens: seq<Token>) returns (blanks: seq<Token>)
    ensures tokens == blanks + DropLeading(tokens) && forall i :: 0 <= i < |blanks| ==> blanks[i].kind.Blank?
  {
    if |tokens| > 0 && tokens[0].kind.Blank? {
      var rest := DropLeadingSplit(tokens[1..]);
      blanks := [tokens[0]] + rest;
      assert tokens == [tokens[0]] + tokens[1..];
    } else {
      blanks := [];
    }
  }

  /** Leading blanks say nothing about the statement. */
  lemma {:induction false} GroupAfterBlanks(a: Alphabet, blanks: seq<Token>, tokens: seq<Token>)
    requires forall i :: 0 <= i < |blanks| ==> blanks[i].kind.Blank?
    ensures GroupOf(a, blanks + tokens) == GroupOf(a, tokens)
    decreases |tokens|, |blanks|
  {
    hide Observe;
    if |tokens| > 0 {
      assert (blanks + tokens)[..|blanks + tokens| - 1] == blanks + tokens[..|tokens| - 1];
      GroupAfterBlanks(a, blanks, tokens[..|tokens| - 1]);
    } else if |blanks| > 0 {
      assert blanks + tokens == blanks;
      assert blanks[..|blanks| - 1] + tokens == blanks[..|blanks| - 1];
      GroupAfterBlanks(a, blanks[..|blanks| - 1], tokens);
      assert Observe(a, GroupOf(a, blanks[..|blanks| - 1]), blanks[|blanks| - 1]) == GroupOf(a, blanks[..|blanks| - 1]) by {
        Unobserved(a, GroupOf(a, blanks[..|blanks| - 1]), blanks[|blanks| - 1]);
      }
    } else {
      assert blanks + tokens == tokens;
    }
  }

  lemma Unobserved(a: Alphabet, g: Group, token: Token)
    requires Insignificant(token.kind)
    ensures Observe(a, g, token) == g
  {
  }

  lemma WellCutAfterBlanks(a: Alphabet, blanks: seq<Token>, tokens: seq<Token>, closed: bool)
    requires forall i :: 0 <= i < |blanks| ==> blanks[i].kind.Blank?
    requires WellCut(a, blanks + tokens, closed)
    ensures WellCut(a, tokens, closed)
  {
    hide GroupOf, Splits, InTriggerBody;
    var all := blanks + tokens;
    if closed {
      assert |tokens| > 0 by { assert all[|all| - 1].kind.Semicolon?; }
      assert all[..|all| - 1] == blanks + tokens[..|tokens| - 1];
      GroupAfterBlanks(a, blanks, tokens[..|tokens| - 1]);
    }
    forall i | 0 <= i < |tokens| - (if closed then 1 else 0) && tokens[i].kind.Semicolon? ensures InTriggerBody(GroupOf(a, tokens[..i])) {
      assert all[|blanks| + i] == tokens[i];
      assert all[..|blanks| + i] == blanks + tokens[..i];
      GroupAfterBlanks(a, blanks, tokens[..i]);
    }
  }

  lemma {:induction false} DropTrailingKeeps(a: Alphabet, tokens: seq<Token>)
    requires Sane(a) && Lexable(a, tokens) && AllOk(a, tokens) && WellCut(a, tokens, false)
    ensures Lexable(a, DropTrailing(a, tokens)) && WellCut(a, DropTrailing(a, tokens), false)
    ensures GroupOf(a, DropTrailing(a, tokens)) == GroupOf(a, tokens)
  {
    hide Lexable, TokenOk, Sane, Observe, InTriggerBody;
    if |tokens| > 0 {
      var init, last := tokens[..|tokens| - 1], tokens[|tokens| - 1];
      assert tokens == init + [last];
      assert WellCut(a, init, false) by { OpenPrefix(a, init, last); }
      if last.kind.Blank? {
        Unobserved(a, GroupOf(a, init), last);
        LexablePrefix(a, init, [last]);
        DropTrailingKeeps(a, init);
      } else if last.kind.LineComment? {
        LastTrimmed(a, last);
        TrimRightPrefix(a, last.text);
        var short := Token(LineComment, TrimRight(a, last.text));
        LexableCut(a, init, last, |short.text|);
        Unobserved(a, GroupOf(a, init), last);
        Unobserved(a, GroupOf(a, init), short);
        assert (init + [short])[..|init|] == init;
        GrowOpen(a, init, short);
      }
    } else {
      assert DropTrailing(a, tokens) == tokens;
    }
  }

  lemma OpenPrefix(a: Alphabet, init: seq<Token>, last: Token)
    requires WellCut(a, init + [last], false)
    ensures WellCut(a, init, false)
  {
    hide GroupOf, InTriggerBody;
    var all := init + [last];
    forall i | 0 <= i < |init| && init[i].kind.Semicolon? ensures InTriggerBody(GroupOf(a, init[..i])) {
      assert all[i] == init[i] && all[..i] == init[..i];
    }
  }

  lemma {:induction false} TrimLeftFirst(a: Alphabet, s: string)
    ensures |TrimLeft(a, s)| > 0 ==> !a.space(TrimLeft(a, s)[0])
  {
    if |s| > 0 && a.space(s[0]) {
      TrimLeftFirst(a, s[1..]);
    }
  }

  lemma TrimIdempotent(a: Alphabet, s: string)
    ensures Trim(a, Trim(a, s)) == Trim(a, s)
  {
    TrimLeftFirst(a, s);
    TrimRightPrefix(a, TrimLeft(a, s));
  }

  /** Every returned statement is trimmed. */
  lemma {:induction false} StatementsTrimmed(a: Alphabet, segments: seq<seq<Token>>)
    ensures forall k :: 0 <= k < |Statements(a, segments)| ==> Trim(a, Statements(a, segments)[k]) == Statements(a, segments)[k]
  {
    hide Trim, GroupOf, Text;
    if |segments| > 0 {
      StatementsTrimmed(a, segments[..|segments| - 1]);
      TrimIdempotent(a, Text(segments[|segments| - 1]));
    }
  }

  /** A statement on its own: its text lexes to `tokens`, which are cut the same way. */
  ghost predicate Unit(a: Alphabet, text: string, tokens: seq<Token>, closed: bool) {
    && Text(tokens) == text && Trim(a, text) == text
    && Lexable(a, tokens) && WellCut(a, tokens, closed)
    && GroupOf(a, tokens).hasCode && (!closed ==> !GroupOf(a, tokens).trigger)
  }

  lemma SegmentUnit(a: Alphabet, segment: seq<Token>, closed: bool) returns (tokens: seq<Token>)
    requires Sane(a) && Lexable(a, segment) && AllOk(a, segment) && WellCut(a, segment, closed)
    requires GroupOf(a, segment).hasCode && (!closed ==> !GroupOf(a, segment).trigger)
    ensures Unit(a, Trim(a, Text(segment)), tokens, closed)
  {
    hide Lexable, TokenOk, Sane, GroupOf, Text, TrimLeft, TrimRight;
    var blanks := DropLeadingSplit(segment);
    var rest := DropLeading(segment);
    LexableSuffix(a, blanks, rest);
    assert AllOk(a, rest) by { forall i | 0 <= i < |rest| ensures TokenOk(a, rest[i]) { assert rest[i] == segment[|blanks| + i]; } }
    GroupAfterBlanks(a, blanks, rest);
    WellCutAfterBlanks(a, blanks, rest, closed);
    TrimLeftTokens(a, segment);
    TrimRightTokens(a, rest);
    TrimIdempotent(a, Text(segment));
    tokens := DropTrailing(a, rest);
    if !closed {
      DropTrailingKeeps(a, rest);
    } else {
      assert tokens == rest;
    }
  }

  // ------------------------------------------------------------------ cutting units

  lemma {:induction false} CutClosed(a: Alphabet, tokens: seq<Token>, rest: seq<Token>, i: nat)
    requires WellCut(a, tokens, true) && i < |tokens|
    ensures CutTokens(a, tokens[i..] + rest, tokens[..i]) == Prepend([tokens], CutTokens(a, rest, []))
    decreases |tokens| - i
  {
    hide GroupOf, InTriggerBody;
    var all := tokens[i..] + rest;
    assert all[0] == tokens[i] && all[1..] == tokens[i + 1..] + rest;
    assert tokens[..i] + [tokens[i]] == tokens[..i + 1];
    if i == |tokens| - 1 {
      assert tokens[i + 1..] + rest == rest && tokens[..i + 1] == tokens;
    } else {
      CutClosed(a, tokens, rest, i + 1);
    }
  }

  lemma {:induction false} CutOpen(a: Alphabet, tokens: seq<Token>, i: nat)
    requires WellCut(a, tokens, false) && i <= |tokens|
    ensures CutTokens(a, tokens[i..], tokens[..i]) == Segments([tokens])
    decreases |tokens| - i
  {
    hide GroupOf, InTriggerBody;
    if i < |tokens| {
      assert tokens[i..][1..] == tokens[i + 1..];
      assert tokens[..i] + [tokens[i]] == tokens[..i + 1];
      CutOpen(a, tokens, i + 1);
    } else {
      assert tokens[..i] == tokens;
    }
  }

  function WithFirst(blank: Token, cut: Cut): Cut {
    if cut.Malformed? || |cut.segments| == 0 then cut else Segments([[blank] + cut.segments[0]] + cut.segments[1..])
  }

  lemma {:induction false} CutWithBlank(a: Alphabet, blank: Token, tokens: seq<Token>, current: seq<Token>)
    requires blank.kind.Blank?
    ensures CutTokens(a, tokens, [blank] + current) == WithFirst(blank, CutTokens(a, tokens, current))
    ensures CutTokens(a, tokens, current).Segments? ==> |CutTokens(a, tokens, current).segments| > 0
    decreases |tokens|
  {
    hide GroupOf, InTriggerBody;
    GroupAfterBlanks(a, [blank], current);
    if |tokens| > 0 {
      var more := current + [tokens[0]];
      assert [blank] + current + [tokens[0]] == [blank] + more;
      if !tokens[0].kind.Semicolon? || InTriggerBody(GroupOf(a, current)) {
        CutWithBlank(a, blank, tokens[1..], more);
      } else {
        var rest := CutTokens(a, tokens[1..], []);
        if rest.Segments? {
          assert ([more] + rest.segments)[1..] == rest.segments;
        }
      }
    }
  }

  lemma {:induction false} StatementsCons(a: Alphabet, segment: seq<Token>, segments: seq<seq<Token>>)
    ensures Statements(a, [segment] + segments) == Statements(a, [segment]) + Statements(a, segments)
    decreases |segments|
  {
    hide GroupOf, Trim, Text;
    var all := [segment] + segments;
    if |segments| == 0 {
      assert all == [segment];
    } else {
      assert all[..|all| - 1] == [segment] + segments[..|segments| - 1];
      StatementsCons(a, segment, segments[..|segments| - 1]);
    }
  }

  lemma StatementOne(a: Alphabet, segment: seq<Token>)
    ensures Statements(a, [segment]) == if GroupOf(a, segment).hasCode then [Trim(a, Text(segment))] else []
  {
    assert [segment][..0] == [];
  }

  lemma TrimBlank(a: Alphabet, blank: Token, tokens: seq<Token>)
    requires |blank.text| == 1 && a.space(blank.text[0])
    ensures Trim(a, Text([blank] + tokens)) == Trim(a, Text(tokens))
  {
    assert ([blank] + tokens)[1..] == tokens;
    assert (blank.text + Text(tokens))[1..] == Text(tokens);
  }

  lemma StatementsWithBlank(a: Alphabet, blank: Token, segments: seq<seq<Token>>)
    requires |segments| > 0 && blank.kind.Blank? && |blank.text| == 1 && a.space(blank.text[0])
    ensures Statements(a, [[blank] + segments[0]] + segments[1..]) == Statements(a, segments)
  {
    hide GroupOf, Trim, Text, Statements;
    StatementsCons(a, [blank] + segments[0], segments[1..]);
    StatementsCons(a, segments[0], segments[1..]);
    assert segments == [segments[0]] + segments[1..];
    StatementOne(a, [blank] + segments[0]);
    StatementOne(a, segments[0]);
    GroupAfterBlanks(a, [blank], segments[0]);
    TrimBlank(a, blank, segments[0]);
  }

  // -------------------------------------------------------------------- the round trip

  function Before(text: string, rest: SplitResult): SplitResult {
    if rest.Err? then rest else Ok([text] + rest.value)
  }

  lemma LexBlank(a: Alphabet, rest: string)
    requires Sane(a)
    ensures Lex(a, "\n" + rest) == Lexed([Token(Blank, "\n")] + Lex(a, rest).tokens, Lex(a, rest).terminated)
  {
    var s := "\n" + rest;
    assert s[..1] == "\n" && s[1..] == rest;
  }

  lemma JudgeUnit(a: Alphabet, text: string, tokens: seq<Token>, blank: Token, cut: Cut, terminated: bool)
    requires Unit(a, text, tokens, true) && (cut.Segments? ==> |cut.segments| > 0)
    requires blank.kind.Blank? && |blank.text| == 1 && a.space(blank.text[0])
    ensures Judge(a, Prepend([tokens], WithFirst(blank, cut)), terminated) == Before(text, Judge(a, cut, terminated))
  {
    hide GroupOf, Trim, Text, Statements, WellCut, Lexable;
    if cut.Segments? {
      var segments := [[blank] + cut.segments[0]] + cut.segments[1..];
      StatementsWithBlank(a, blank, cut.segments);
      StatementsCons(a, tokens, segments);
      StatementOne(a, tokens);
      GroupAfterBlanks(a, [blank], cut.segments[0]);
      var all := [tokens] + segments;
      assert all[|all| - 1] == segments[|segments| - 1];
      assert |cut.segments| > 1 ==> segments[|segments| - 1] == cut.segments[|cut.segments| - 1];
    }
  }

  lemma SplitUnit(a: Alphabet, text: string, tokens: seq<Token>, rest: string)
    requires Sane(a) && Unit(a, text, tokens, true)
    ensures Split(a, text + ("\n" + rest)) == Before(text, Split(a, rest))
  {
    hide GroupOf, Trim, Statements, Lex, Lexable;
    var blank := Token(Blank, "\n");
    var after := Lex(a, rest).tokens;
    LexAfterSemicolon(a, tokens, "\n" + rest);
    LexBlank(a, rest);
    CutClosed(a, tokens, [blank] + after, 0);
    assert tokens[0..] + ([blank] + after) == tokens + ([blank] + after) && tokens[..0] == [];
    assert ([blank] + after)[1..] == after && [] + [blank] == [blank] + [];
    CutWithBlank(a, blank, after, []);
    JudgeUnit(a, text, tokens, blank, CutTokens(a, after, []), Lex(a, rest).terminated);
  }

  lemma SplitLast(a: Alphabet, text: string, tokens: seq<Token>, closed: bool)
    requires Unit(a, text, tokens, closed)
    ensures Split(a, text) == Ok([text])
  {
    hide Trim, Lex, Text;
    StatementOne(a, tokens);
    assert tokens[0..] == tokens && tokens[..0] == [];
    if closed {
      CutClosed(a, tokens, [], 0);
      assert tokens + [] == tokens;
      assert [tokens] + [[]] == [tokens, []];
      StatementsCons(a, tokens, [[]]);
      StatementOne(a, []);
    } else {
      CutOpen(a, tokens, 0);
    }
  }

  function Join(texts: seq<string>): string {
    if |texts| == 0 then "" else if |texts| == 1 then texts[0] else texts[0] + ("\n" + Join(texts[1..]))
  }

  /** Units in a row; only the last one may lack its semicolon. */
  ghost predicate Units(a: Alphabet, texts: seq<string>, tokens: seq<seq<Token>>, lastClosed: bool) {
    && |texts| == |tokens|
    && forall k :: 0 <= k < |texts| ==> Unit(a, texts[k], tokens[k], k < |texts| - 1 || lastClosed)
  }

  lemma {:induction false} SplitUnits(a: Alphabet, texts: seq<string>, tokens: seq<seq<Token>>, lastClosed: bool)
    requires Sane(a) && Units(a, texts, tokens, lastClosed)
    ensures Split(a, Join(texts)) == Ok(texts)
    decreases |texts|
  {
    hide Unit, Split, Sane;
    if |texts| == 0 {
      assert Split(a, "") == Ok([]) by { SplitNothing(a); }
    } else if |texts| == 1 {
      assert texts == [texts[0]];
      SplitLast(a, texts[0], tokens[0], lastClosed);
    } else {
      SplitUnits(a, texts[1..], tokens[1..], lastClosed);
      SplitUnit(a, texts[0], tokens[0], Join(texts[1..]));
      assert [texts[0]] + texts[1..] == texts;
    }
  }

  lemma SplitNothing(a: Alphabet)
    ensures Split(a, "") == Ok([])
  {
    StatementOne(a, []);
  }

  /** Every segment with code is a unit once trimmed. */
  lemma {:induction false} UnitsOf(a: Alphabet, segments: seq<seq<Token>>, n: nat) returns (tokens: seq<seq<Token>>)
    requires Sane(a) && n <= |segments| && AllWellCut(a, segments) && !GroupOf(a, segments[|segments| - 1]).trigger
    requires forall k :: 0 <= k < |segments| ==> Lexable(a, segments[k]) && AllOk(a, segments[k])
    ensures Units(a, Statements(a, segments[..n]), tokens, n < |segments|)
      || (n == |segments| && Units(a, Statements(a, segments[..n]), tokens, true))
    decreases n
  {
    hide Unit, Sane, GroupOf, WellCut, Lexable, AllOk, Trim, Text;
    if n == 0 {
      tokens := [];
      assert segments[..0] == [];
    } else {
      var before := UnitsOf(a, segments, n - 1);
      assert segments[..n][..n - 1] == segments[..n - 1];
      var last := segments[n - 1];
      tokens := before;
      if GroupOf(a, last).hasCode {
        var unit := SegmentUnit(a, last, n - 1 < |segments| - 1);
        tokens := before + [unit];
      }
    }
  }

  lemma {:induction false} FlattenLexable(a: Alphabet, segments: seq<seq<Token>>, k: nat)
    requires Lexable(a, Flatten(segments)) && AllOk(a, Flatten(segments)) && k < |segments|
    ensures Lexable(a, segments[k]) && AllOk(a, segments[k])
    decreases k
  {
    hide Lexable, TokenOk;
    var rest := Flatten(segments[1..]);
    if k == 0 {
      LexablePrefix(a, segments[0], rest);
      forall i | 0 <= i < |segments[0]| ensures TokenOk(a, segments[0][i]) { assert Flatten(segments)[i] == segments[0][i]; }
    } else {
      LexableSuffix(a, segments[0], rest);
      forall i | 0 <= i < |rest| ensures TokenOk(a, rest[i]) { assert Flatten(segments)[|segments[0]| + i] == rest[i]; }
      FlattenLexable(a, segments[1..], k - 1);
    }
  }

  /** Splitting the statements of a script, joined by line feeds, returns the same statements. */
  lemma ResplitSame(a: Alphabet, script: string)
    requires Sane(a) && Split(a, script).Ok?
    ensures Split(a, Join(Split(a, script).value)) == Split(a, script)
  {
    hide Sane, GroupOf, WellCut, Statements, Lex, TokenOk;
    var segments := SplitIsPartition(a, script);
    LexOk(a, script);
    assert Lexable(a, Flatten(segments)) by { LexIsLossless(a, script); }
    forall k | 0 <= k < |segments| ensures Lexable(a, segments[k]) && AllOk(a, segments[k]) {
      FlattenLexable(a, segments, k);
    }
    var tokens := UnitsOf(a, segments, |segments|);
    assert segments[..|segments|] == segments;
    if Units(a, Statements(a, segments), tokens, true) {
      SplitUnits(a, Statements(a, segments), tokens, true);
    } else {
      SplitUnits(a, Statements(a, segments), tokens, false);
    }
  }
}
