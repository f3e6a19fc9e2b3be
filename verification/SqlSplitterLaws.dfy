/**
 * What the splitter promises (packages/migrations/src/index.ts:82-188): the statements are the
 * script, cut only at semicolons outside quotes, brackets, comments and trigger bodies; nothing
 * but white space, comments and bare semicolons is left out; and splitting the statements, joined
 * by line feeds, gives the same statements again.
 */
module SqlSplitterLaws {
  import opened Options
  import opened SqlTokens
  import opened SqlSplitter

  // -------------------------------------------------------------------- the partition

  function Flatten(segments: seq<seq<Token>>): seq<Token> {
    if |segments| == 0 then [] else segments[0] + Flatten(segments[1..])
  }

  /** Every semicolon stands in a trigger body, except the last token of a closed segment, which does not. */
  predicate WellCut(a: Alphabet, segment: seq<Token>, closed: bool) {
    && (forall i :: 0 <= i < |segment| - (if closed then 1 else 0) && segment[i].kind.Semicolon? ==> InTriggerBody(GroupOf(a, segment[..i])))
    && (closed ==> |segment| > 0 && segment[|segment| - 1].kind.Semicolon? && Splits(GroupOf(a, segment[..|segment| - 1])))
  }

  predicate Splits(g: Group) {
    !InTriggerBody(g) && !(g.trigger && !g.begun)
  }

  predicate AllWellCut(a: Alphabet, segments: seq<seq<Token>>) {
    |segments| > 0 && forall k :: 0 <= k < |segments| ==> WellCut(a, segments[k], k < |segments| - 1)
  }

  lemma GrowOpen(a: Alphabet, current: seq<Token>, token: Token)
    requires WellCut(a, current, false) && (!token.kind.Semicolon? || InTriggerBody(GroupOf(a, current)))
    ensures WellCut(a, current + [token], false)
  {
    var next := current + [token];
    forall i | 0 <= i < |next| && next[i].kind.Semicolon? ensures InTriggerBody(GroupOf(a, next[..i])) {
      if i < |current| {
        assert next[..i] == current[..i];
      } else {
        assert next[..i] == current;
      }
    }
  }

  lemma CloseSegment(a: Alphabet, current: seq<Token>, token: Token)
    requires WellCut(a, current, false) && token.kind.Semicolon? && Splits(GroupOf(a, current))
    ensures WellCut(a, current + [token], true)
  {
    var next := current + [token];
    assert next[..|next| - 1] == current;
    forall i | 0 <= i < |next| - 1 && next[i].kind.Semicolon? ensures InTriggerBody(GroupOf(a, next[..i])) {
      assert next[..i] == current[..i];
    }
  }

  lemma {:induction false} CutIsPartition(a: Alphabet, tokens: seq<Token>, current: seq<Token>)
    requires WellCut(a, current, false) && CutTokens(a, tokens, current).Segments?
    ensures AllWellCut(a, CutTokens(a, tokens, current).segments)
    ensures Flatten(CutTokens(a, tokens, current).segments) == current + tokens
    decreases |tokens|
  {
    hide WellCut, GroupOf;
    if |tokens| == 0 {
      assert Flatten([current]) == current + Flatten([]);
    } else {
      var g := GroupOf(a, current);
      if !tokens[0].kind.Semicolon? || InTriggerBody(g) {
        GrowOpen(a, current, tokens[0]);
        CutIsPartition(a, tokens[1..], current + [tokens[0]]);
        assert current + [tokens[0]] + tokens[1..] == current + tokens;
      } else {
        CloseSegment(a, current, tokens[0]);
        assert WellCut(a, [], false) by { EmptyIsOpen(a); }
        CutIsPartition(a, tokens[1..], []);
        var rest := CutTokens(a, tokens[1..], []).segments;
        var all := [current + [tokens[0]]] + rest;
        assert all[1..] == rest;
        assert [] + tokens[1..] == tokens[1..];
        assert current + [tokens[0]] + tokens[1..] == current + tokens;
        forall k | 0 <= k < |all| ensures WellCut(a, all[k], k < |all| - 1) {
          assert k > 0 ==> WellCut(a, rest[k - 1], k - 1 < |rest| - 1);
        }
      }
    }
  }

  lemma EmptyIsOpen(a: Alphabet)
    ensures WellCut(a, [], false)
  {
  }

  // ------------------------------------------------------------------- what is left out

  predicate Insignificant(kind: Kind) {
    kind.Blank? || kind.LineComment? || kind.BlockComment? || kind.Semicolon?
  }

  /** A segment that yields no statement holds only white space, comments and semicolons. */
  lemma {:induction false} CodeFree(a: Alphabet, tokens: seq<Token>)
    ensures GroupOf(a, tokens).hasCode <==> exists i :: 0 <= i < |tokens| && !Insignificant(tokens[i].kind)
  {
    if |tokens| > 0 {
      var init := tokens[..|tokens| - 1];
      CodeFree(a, init);
      if exists i :: 0 <= i < |init| && !Insignificant(init[i].kind) {
        var i :| 0 <= i < |init| && !Insignificant(init[i].kind);
        assert tokens[i] == init[i];
      }
      assert forall i :: 0 <= i < |init| ==> init[i] == tokens[i];
    }
  }

  /**
   * The statements are the trimmed texts of the segments that hold code; the segments follow each
   * other without gap or overlap and make up the script; each is cut where `WellCut` says.
   */
  lemma SplitIsPartition(a: Alphabet, script: string) returns (segments: seq<seq<Token>>)
    requires Split(a, script).Ok?
    ensures CutTokens(a, Lex(a, script).tokens, []) == Segments(segments)
    ensures Text(Flatten(segments)) == script && Flatten(segments) == Lex(a, script).tokens
    ensures AllWellCut(a, segments) && Split(a, script).value == Statements(a, segments)
    ensures !GroupOf(a, segments[|segments| - 1]).trigger
    ensures forall k :: 0 <= k < |segments| && !GroupOf(a, segments[k]).hasCode ==>
      forall i :: 0 <= i < |segments[k]| ==> Insignificant(segments[k][i].kind)
  {
    hide GroupOf, WellCut, Lex;
    EmptyIsOpen(a);
    var tokens := Lex(a, script).tokens;
    segments := CutTokens(a, tokens, []).segments;
    CutIsPartition(a, tokens, []);
    LexIsLossless(a, script);
    assert [] + tokens == tokens;
    forall k | 0 <= k < |segments| && !GroupOf(a, segments[k]).hasCode
      ensures forall i :: 0 <= i < |segments[k]| ==> Insignificant(segments[k][i].kind)
    {
      CodeFree(a, segments[k]);
    }
  }

  // --------------------------------------------------------------------- trigger bodies

  function Keywords(a: Alphabet, tokens: seq<Token>): seq<Keyword> {
    if |tokens| == 0 then []
    else
      var last := tokens[|tokens| - 1];
      Keywords(a, tokens[..|tokens| - 1]) + if last.kind.Word? then [a.keyword(last.text)] else []
  }

  /** The words after the first BEGIN. */
  function AfterBegin(words: seq<Keyword>): Option<seq<Keyword>> {
    if |words| == 0 then None else if words[0].Begin? then Some(words[1..]) else AfterBegin(words[1..])
  }

  function HeadLength(words: seq<Keyword>): nat {
    if |words| > 1 && words[1].Trigger? then 2 else 3
  }

  /** CREATE TRIGGER or CREATE TEMP TRIGGER. */
  predicate TriggerHead(words: seq<Keyword>) {
    [Create, Trigger] <= words || [Create, Temporary, Trigger] <= words
  }

  /** The words of the body of a CREATE [TEMP] TRIGGER, if it has begun. */
  function Body(words: seq<Keyword>): Option<seq<Keyword>> {
    if [Create, Trigger] <= words then AfterBegin(words[2..])
    else if [Create, Temporary, Trigger] <= words then AfterBegin(words[3..])
    else None
  }

  lemma HeadIs(words: seq<Keyword>)
    ensures StartsTrigger(words) <==> TriggerHead(words)
    ensures Body(words) == if StartsTrigger(words) && HeadLength(words) <= |words| then AfterBegin(words[HeadLength(words)..]) else None
  {
    assert |words| > 1 ==> words[..2] == [words[0], words[1]];
    assert |words| > 2 ==> words[..3] == [words[0], words[1], words[2]];
  }

  function CountOf(words: seq<Keyword>, word: Keyword): nat {
    if |words| == 0 then 0 else CountOf(words[..|words| - 1], word) + if words[|words| - 1] == word then 1 else 0
  }

  /** Every END closes an earlier CASE. */
  predicate Nested(words: seq<Keyword>) {
    forall n :: 0 <= n <= |words| ==> CountOf(words[..n], End) <= CountOf(words[..n], Case)
  }

  /** At `e` stands an END that closes no CASE: the end of the body. */
  predicate ClosesAt(body: seq<Keyword>, e: int) {
    0 <= e < |body| && body[e].End? && Nested(body[..e]) && CountOf(body[..e], End) == CountOf(body[..e], Case)
  }

  ghost predicate BodyClosed(body: seq<Keyword>) {
    exists e :: ClosesAt(body, e)
  }

  /** What the flags of a group say about its words. */
  ghost predicate Meaning(words: seq<Keyword>, g: Group) {
    && g.leading == (if |words| < 3 then words else words[..3])
    && (g.trigger <==> TriggerHead(words))
    && (g.begun <==> Body(words).Some?)
    && (g.ended <==> Body(words).Some? && BodyClosed(Body(words).value))
    && (!g.begun ==> g.depth == 0)
    && (g.begun && !g.ended ==> Nested(Body(words).value) && g.depth == CountOf(Body(words).value, Case) - CountOf(Body(words).value, End))
  }

  lemma {:induction false} AfterBeginMore(words: seq<Keyword>, w: Keyword)
    ensures AfterBegin(words + [w]) ==
      if AfterBegin(words).Some? then Some(AfterBegin(words).value + [w]) else if w.Begin? then Some([]) else None
  {
    if |words| > 0 && !words[0].Begin? {
      assert (words + [w])[1..] == words[1..] + [w];
      AfterBeginMore(words[1..], w);
    } else if |words| > 0 {
      assert (words + [w])[1..] == words[1..] + [w];
    } else {
      assert words + [w] == [w] && [w][1..] == [];
    }
  }

  lemma CountMore(words: seq<Keyword>, w: Keyword, x: Keyword)
    ensures CountOf(words + [w], x) == CountOf(words, x) + if w == x then 1 else 0
  {
    assert (words + [w])[..|words|] == words;
  }

  lemma NestedMore(body: seq<Keyword>, w: Keyword)
    requires Nested(body)
    ensures Nested(body + [w]) <==> CountOf(body + [w], End) <= CountOf(body + [w], Case)
  {
    var next := body + [w];
    assert next[..|next|] == next;
    forall n | 0 <= n <= |body| ensures CountOf(next[..n], End) <= CountOf(next[..n], Case) {
      assert next[..n] == body[..n];
    }
  }

  lemma ClosedMore(body: seq<Keyword>, w: Keyword)
    ensures BodyClosed(body + [w]) <==> BodyClosed(body) || ClosesAt(body + [w], |body|)
  {
    var next := body + [w];
    if BodyClosed(body) {
      var e :| ClosesAt(body, e);
      assert next[..e] == body[..e];
      assert ClosesAt(next, e);
    }
    if BodyClosed(next) {
      var e :| ClosesAt(next, e);
      if e < |body| {
        assert next[..e] == body[..e];
        assert ClosesAt(body, e);
      }
    }
  }

  /** The head of the statement is decided by its first three words. */
  lemma HeadMore(words: seq<Keyword>, w: Keyword)
    ensures var leading := if |words| < 3 then words else words[..3];
      var leading' := if |words| + 1 < 3 then words + [w] else (words + [w])[..3];
      && leading' == (if |leading| < 3 then leading + [w] else leading)
      && (StartsTrigger(words + [w]) <==> StartsTrigger(words) || StartsTrigger(leading'))
    ensures StartsTrigger(words) ==> HeadLength(words) <= |words| && HeadLength(words + [w]) == HeadLength(words)
    ensures !StartsTrigger(words) && StartsTrigger(words + [w]) ==> HeadLength(words + [w]) == |words| + 1 && w.Trigger?
  {
    assert |words| >= 3 ==> (words + [w])[..3] == words[..3];
    assert |words| == 2 ==> (words + [w])[..3] == words + [w];
  }

  lemma BodyMore(words: seq<Keyword>, w: Keyword)
    ensures Body(words + [w]) ==
      if Body(words).Some? then Some(Body(words).value + [w])
      else if StartsTrigger(words) && w.Begin? then Some([]) else None
  {
    HeadMore(words, w);
    HeadIs(words);
    HeadIs(words + [w]);
    if StartsTrigger(words) {
      var h := HeadLength(words);
      assert (words + [w])[h..] == words[h..] + [w];
      AfterBeginMore(words[h..], w);
    } else if StartsTrigger(words + [w]) {
      assert (words + [w])[|words| + 1..] == [];
    }
  }

  lemma NothingNested()
    ensures Nested([]) && !BodyClosed([])
  {
  }

  lemma MeaningMore(words: seq<Keyword>, w: Keyword, g: Group)
    requires Meaning(words, g)
    ensures Meaning(words + [w], ObserveWord(g, w))
  {
    hide StartsTrigger, TriggerHead, Body, Nested, BodyClosed, CountOf;
    HeadMore(words, w);
    HeadIs(words);
    HeadIs(words + [w]);
    BodyMore(words, w);
    NothingNested();
    assert CountOf([], Case) == 0 && CountOf([], End) == 0 by { NothingCounted(); }
    if Body(words).Some? {
      var body := Body(words).value;
      assert StartsTrigger(words) by { BodyNeedsHead(words); }
      ClosedMore(body, w);
      if !g.ended {
        CountMore(body, w, Case);
        CountMore(body, w, End);
        NestedMore(body, w);
        assert ClosesAt(body + [w], |body|) <==> w.End? && g.depth == 0 by { ClosingWord(body, w); }
      }
    }
  }

  lemma NothingCounted()
    ensures CountOf([], Case) == 0 && CountOf([], End) == 0
  {
  }

  lemma BodyNeedsHead(words: seq<Keyword>)
    requires Body(words).Some?
    ensures StartsTrigger(words)
  {
    HeadIs(words);
  }

  lemma ClosingWord(body: seq<Keyword>, w: Keyword)
    requires Nested(body)
    ensures ClosesAt(body + [w], |body|) <==> w.End? && CountOf(body, End) == CountOf(body, Case)
  {
    assert (body + [w])[..|body|] == body;
  }

  /** A semicolon is kept inside a statement exactly when it stands in the open body of a trigger. */
  lemma {:induction false} GroupMeaning(a: Alphabet, tokens: seq<Token>)
    ensures Meaning(Keywords(a, tokens), GroupOf(a, tokens))
    ensures InTriggerBody(GroupOf(a, tokens)) <==>
      Body(Keywords(a, tokens)).Some? && !BodyClosed(Body(Keywords(a, tokens)).value)
  {
    if |tokens| == 0 {
      NothingNested();
    } else {
      hide Meaning, ObserveWord;
      var init, last := tokens[..|tokens| - 1], tokens[|tokens| - 1];
      GroupMeaning(a, init);
      if last.kind.Word? {
        MeaningMore(Keywords(a, init), a.keyword(last.text), GroupOf(a, init));
      } else {
        assert Keywords(a, tokens) == Keywords(a, init);
        MeaningOfCode(Keywords(a, init), GroupOf(a, init));
      }
    }
    FlagsSay(Keywords(a, tokens), GroupOf(a, tokens));
  }

  lemma MeaningOfCode(words: seq<Keyword>, g: Group)
    requires Meaning(words, g)
    ensures Meaning(words, g.(hasCode := true))
  {
    hide Body, BodyClosed, Nested, TriggerHead, CountOf;
  }

  lemma FlagsSay(words: seq<Keyword>, g: Group)
    requires Meaning(words, g)
    ensures InTriggerBody(g) <==> Body(words).Some? && !BodyClosed(Body(words).value)
  {
    hide BodyClosed, Nested, StartsTrigger, CountOf;
  }
}
