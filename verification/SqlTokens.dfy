/**
 * The lexical structure that the SQL script splitter sees
 * (packages/migrations/src/index.ts:101-182). The Unicode classes behind `\s` and
 * `[\p{L}\p{N}\p{M}_$]`, and upper-casing, are parameters: everything holds for any alphabet that
 * keeps the few facts stated in `Sane`.
 */
module SqlTokens {
  import opened Options

  datatype Keyword = Create | Trigger | Temporary | Begin | Case | End | OtherWord

  datatype Alphabet = Alphabet(space: char -> bool, wordPart: char -> bool, keyword: string -> Keyword)

  datatype Kind = Word | Quoted | LineComment | BlockComment | Semicolon | Blank | Symbol

  datatype Token = Token(kind: Kind, text: string)

  datatype Extent = Extent(kind: Kind, length: nat)

  predicate WordStart(c: char) {
    ('A' <= c <= 'Z') || ('a' <= c <= 'z') || c == '_'
  }

  predicate Special(c: char) {
    c == '-' || c == '/' || c == '\'' || c == '"' || c == '`' || c == '[' || c == ';'
  }

  /** White space contains the line feed and no character that begins or ends a token of another kind. */
  ghost predicate Sane(a: Alphabet) {
    a.space('\n') && forall c :: a.space(c) ==> !WordStart(c) && !Special(c) && !a.wordPart(c) && c != ']'
  }

  // ------------------------------------------------------------------------ extents

  /** Leading characters that continue a word. */
  function WordLength(a: Alphabet, s: string): nat {
    if |s| == 0 || !a.wordPart(s[0]) then 0 else 1 + WordLength(a, s[1..])
  }

  function Plus(n: nat, m: Option<nat>): Option<nat> {
    if m.Some? then Some(n + m.value) else None
  }

  /** Up to and including the closing delimiter; a doubled delimiter does not close. */
  function QuoteLength(s: string, delimiter: char): Option<nat> {
    if |s| == 0 then None
    else if s[0] == delimiter then
      (if |s| > 1 && s[1] == delimiter then Plus(2, QuoteLength(s[2..], delimiter)) else Some(1))
    else Plus(1, QuoteLength(s[1..], delimiter))
  }

  function BlockLength(s: string): Option<nat> {
    if |s| == 0 then None
    else if s[0] == '*' && |s| > 1 && s[1] == '/' then Some(2)
    else Plus(1, BlockLength(s[1..]))
  }

  /** Up to and including the line feed, or to the end. */
  function LineLength(s: string): nat {
    if |s| == 0 then 0 else if s[0] == '\n' then 1 else 1 + LineLength(s[1..])
  }

  function Measured(kind: Kind, prefix: nat, rest: Option<nat>): Option<Extent> {
    if rest.Some? then Some(Extent(kind, prefix + rest.value)) else None
  }

  function Closing(c: char): char {
    if c == '[' then ']' else c
  }

  predicate Opening(c: char) {
    c == '\'' || c == '"' || c == '`' || c == '['
  }

  /** The token at the start of a non-empty text; None when it is not terminated. */
  function First(a: Alphabet, s: string): Option<Extent>
    requires |s| > 0
  {
    var c := s[0];
    if WordStart(c) then Some(Extent(Word, 1 + WordLength(a, s[1..])))
    else if c == '-' && |s| > 1 && s[1] == '-' then Some(Extent(LineComment, 2 + LineLength(s[2..])))
    else if c == '/' && |s| > 1 && s[1] == '*' then Measured(BlockComment, 2, BlockLength(s[2..]))
    else if Opening(c) then Measured(Quoted, 1, QuoteLength(s[1..], Closing(c)))
    else if c == ';' then Some(Extent(Semicolon, 1))
    else if a.space(c) then Some(Extent(Blank, 1))
    else Some(Extent(Symbol, 1))
  }

  lemma {:induction false} WordBound(a: Alphabet, s: string)
    ensures WordLength(a, s) <= |s|
  {
    if |s| > 0 && a.wordPart(s[0]) { WordBound(a, s[1..]); }
  }

  lemma {:induction false} QuoteBound(s: string, d: char)
    ensures QuoteLength(s, d).Some? ==> 1 <= QuoteLength(s, d).value <= |s|
  {
    if |s| > 0 {
      if s[0] == d && |s| > 1 && s[1] == d { QuoteBound(s[2..], d); } else { QuoteBound(s[1..], d); }
    }
  }

  lemma {:induction false} BlockBound(s: string)
    ensures BlockLength(s).Some? ==> 2 <= BlockLength(s).value <= |s|
  {
    if |s| > 0 { BlockBound(s[1..]); }
  }

  lemma {:induction false} LineBound(s: string)
    ensures LineLength(s) <= |s|
  {
    if |s| > 0 { LineBound(s[1..]); }
  }

  lemma FirstBound(a: Alphabet, s: string)
    requires |s| > 0
    ensures First(a, s).Some? ==> 1 <= First(a, s).value.length <= |s|
  {
    WordBound(a, s[1..]);
    QuoteBound(s[1..], Closing(s[0]));
    if |s| > 1 {
      LineBound(s[2..]);
      BlockBound(s[2..]);
    }
  }

  // ------------------------------------------------------------------------- tokens

  /** The tokens of a text, and whether it ends outside a quoted name, bracket or block comment. */
  datatype Lexed = Lexed(tokens: seq<Token>, terminated: bool)

  function Lex(a: Alphabet, s: string): Lexed
    decreases |s|
  {
    if |s| == 0 then Lexed([], true)
    else
      match First(a, s)
      case None => Lexed([], false)
      case Some(e) =>
        FirstBound(a, s);
        var rest := Lex(a, s[e.length..]);
        Lexed([Token(e.kind, s[..e.length])] + rest.tokens, rest.terminated)
  }

  function Text(tokens: seq<Token>): string {
    if |tokens| == 0 then "" else tokens[0].text + Text(tokens[1..])
  }

  lemma {:induction false} TextConcat(p: seq<Token>, q: seq<Token>)
    ensures Text(p + q) == Text(p) + Text(q)
  {
    if |p| == 0 {
      assert p + q == q;
    } else {
      var all := p + q;
      assert all[0] == p[0] && all[1..] == p[1..] + q;
      TextConcat(p[1..], q);
      Associative(p[0].text, Text(p[1..]), Text(q));
    }
  }

  lemma Associative(x: string, y: string, z: string)
    ensures x + (y + z) == (x + y) + z
  {
  }

  /** Lexing loses nothing. */
  lemma {:induction false} LexIsLossless(a: Alphabet, s: string)
    requires Lex(a, s).terminated
    ensures Text(Lex(a, s).tokens) == s
    decreases |s|
  {
    if |s| > 0 {
      var e := First(a, s).value;
      FirstBound(a, s);
      LexIsLossless(a, s[e.length..]);
      assert Lex(a, s).tokens[1..] == Lex(a, s[e.length..]).tokens;
      assert s == s[..e.length] + s[e.length..];
    }
  }

  // ------------------------------------------------------------------------ locality

  lemma {:induction false} WordPrefix(a: Alphabet, x: string, y: string)
    ensures WordLength(a, x + y) <= |x| ==> WordLength(a, x) == WordLength(a, x + y)
    ensures WordLength(a, x) < |x| ==> WordLength(a, x + y) == WordLength(a, x)
  {
    if |x| > 0 && a.wordPart(x[0]) {
      assert (x + y)[1..] == x[1..] + y;
      WordPrefix(a, x[1..], y);
    }
  }

  lemma {:induction false} QuotePrefix(x: string, y: string, d: char)
    ensures QuoteLength(x + y, d).Some? && QuoteLength(x + y, d).value <= |x| ==> QuoteLength(x, d) == QuoteLength(x + y, d)
    ensures QuoteLength(x, d).Some? && QuoteLength(x, d).value < |x| ==> QuoteLength(x + y, d) == QuoteLength(x, d)
  {
    QuoteBound(x + y, d);
    QuoteBound(x, d);
    if |x| > 0 {
      assert (x + y)[1..] == x[1..] + y;
      if x[0] != d {
        QuotePrefix(x[1..], y, d);
      } else if |x| > 1 && x[1] == d {
        assert (x + y)[2..] == x[2..] + y;
        QuotePrefix(x[2..], y, d);
      } else if |x| == 1 && |y| > 0 && y[0] == d {
        QuoteBound((x + y)[2..], d);
      }
    }
  }

  lemma {:induction false} BlockPrefix(x: string, y: string)
    ensures BlockLength(x + y).Some? && BlockLength(x + y).value <= |x| ==> BlockLength(x) == BlockLength(x + y)
    ensures BlockLength(x).Some? ==> BlockLength(x + y) == BlockLength(x)
  {
    BlockBound(x + y);
    if |x| > 0 {
      assert (x + y)[1..] == x[1..] + y;
      BlockPrefix(x[1..], y);
      BlockBound(x[1..] + y);
    }
  }

  lemma {:induction false} LinePrefix(x: string, y: string)
    ensures LineLength(x + y) <= |x| ==> LineLength(x) == LineLength(x + y)
    ensures LineLength(x) < |x| ==> LineLength(x + y) == LineLength(x)
  {
    if |x| > 0 && x[0] != '\n' {
      assert (x + y)[1..] == x[1..] + y;
      LinePrefix(x[1..], y);
    }
  }

  /** A token that fits into a prefix is the token of that prefix. */
  lemma FirstOfPrefix(a: Alphabet, x: string, y: string)
    requires |x| > 0 && First(a, x + y).Some? && First(a, x + y).value.length <= |x|
    ensures First(a, x) == First(a, x + y)
  {
    assert (x + y)[1..] == x[1..] + y;
    WordPrefix(a, x[1..], y);
    QuotePrefix(x[1..], y, Closing(x[0]));
    if |x| > 1 {
      assert (x + y)[2..] == x[2..] + y;
      BlockPrefix(x[2..], y);
      LinePrefix(x[2..], y);
    } else {
      BlockBound((x + y)[1..]);
      if |y| > 0 { BlockBound((x + y)[2..]); }
    }
  }

  /** A token that ends strictly inside a text, or is a semicolon, is not changed by what follows the text. */
  lemma FirstExtended(a: Alphabet, x: string, y: string)
    requires |x| > 0 && First(a, x).Some? && (First(a, x).value.length < |x| || First(a, x).value.kind.Semicolon?)
    ensures First(a, x + y) == First(a, x)
  {
    assert (x + y)[1..] == x[1..] + y;
    WordPrefix(a, x[1..], y);
    QuotePrefix(x[1..], y, Closing(x[0]));
    if |x| > 1 {
      assert (x + y)[2..] == x[2..] + y;
      BlockPrefix(x[2..], y);
      LinePrefix(x[2..], y);
    }
  }
}
