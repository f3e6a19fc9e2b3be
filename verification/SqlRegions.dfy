/**
 * Quotes, brackets and comments as regions of the characters of a script
 * (packages/migrations/src/index.ts:101-186), defined without tokens: which character opens a region,
 * where it ends, and that the regions of a script are determined. The lexer is proved to find
 * exactly these regions, and exactly the words outside them.
 */
module SqlRegions {
  import opened Options
  import opened SqlTokens

  // ------------------------------------------------------------------------- regions

  /** What closes each opening character. */
  const DELIMITERS: map<char, char> := map['\'' := '\'', '"' := '"', '`' := '`', '[' := ']']

  datatype Region = Region(kind: Kind, from: nat, end: nat)

  /** The kind of region that would open at `p`, if no region is open there. */
  function OpensAt(s: string, p: int): Option<Kind> {
    if !(0 <= p < |s|) then None
    else if s[p] in DELIMITERS then Some(Quoted)
    else if "--" <= s[p..] then Some(LineComment)
    else if "/*" <= s[p..] then Some(BlockComment)
    else None
  }

  function Count(u: string, d: char): nat {
    if |u| == 0 then 0 else (if u[0] == d then 1 else 0) + Count(u[1..], d)
  }

  /** At `n` ends a run of delimiters, and so far there were oddly many: the last one is not doubled. */
  predicate DelimiterCloses(u: string, d: char, n: int) {
    0 < n <= |u| && u[n - 1] == d && (n < |u| ==> u[n] != d) && Count(u[..n], d) % 2 == 1
  }

  ghost predicate QuoteEnds(u: string, d: char, n: int) {
    DelimiterCloses(u, d, n) && forall m :: m < n ==> !DelimiterCloses(u, d, m)
  }

  predicate CommentCloses(u: string, n: int) {
    2 <= n <= |u| && u[n - 2] == '*' && u[n - 1] == '/'
  }

  ghost predicate BlockEnds(u: string, n: int) {
    CommentCloses(u, n) && forall m :: m < n ==> !CommentCloses(u, m)
  }

  /** A line comment ends with the first line feed, or with the text. */
  predicate LineEnds(u: string, n: int) {
    0 <= n <= |u| && '\n' !in u[..if n > 0 then n - 1 else 0] && (n == |u| || (n > 0 && u[n - 1] == '\n'))
  }

  ghost predicate IsRegion(s: string, r: Region) {
    && r.from < |s| && OpensAt(s, r.from) == Some(r.kind)
    && match r.kind
       case Quoted => QuoteEnds(s[r.from + 1..], DELIMITERS[s[r.from]], r.end - r.from - 1)
       case LineComment => LineEnds(s[r.from + 2..], r.end - r.from - 2)
       case BlockComment => BlockEnds(s[r.from + 2..], r.end - r.from - 2)
       case _ => false
  }

  lemma RegionBounds(s: string, r: Region)
    requires IsRegion(s, r)
    ensures r.from < r.end <= |s|
  {
  }

  lemma RegionUnique(s: string, r: Region, q: Region)
    requires IsRegion(s, r) && IsRegion(s, q) && r.from == q.from
    ensures r == q
  {
  }

  predicate Within(r: Region, p: int) {
    r.from <= p < r.end
  }

  predicate Inside(regions: seq<Region>, p: int) {
    exists k :: 0 <= k < |regions| && Within(regions[k], p)
  }

  /** The regions between two positions: one after the other, and nothing opens outside them. */
  ghost predicate Covers(s: string, regions: seq<Region>, from: nat, upto: nat) {
    && from <= upto <= |s|
    && (forall k :: 0 <= k < |regions| ==> IsRegion(s, regions[k]) && from <= regions[k].from && regions[k].end <= upto)
    && (forall j, k :: 0 <= j < k < |regions| ==> regions[j].end <= regions[k].from)
    && (forall p :: from <= p < upto && OpensAt(s, p).Some? ==> Inside(regions, p))
  }

  /** At `at` opens a quote, bracket or comment that never ends. */
  ghost predicate NeverEnds(s: string, at: nat) {
    OpensAt(s, at).Some? && forall r: Region :: r.from == at ==> !IsRegion(s, r)
  }

  /** The regions of a script, up to its end or to where it breaks off. */
  ghost predicate Scanned(s: string, regions: seq<Region>, from: nat, at: nat) {
    Covers(s, regions, from, at) && (at == |s| || NeverEnds(s, at))
  }

  lemma FirstOpens(s: string, regions: seq<Region>, from: nat, at: nat, p: nat)
    requires Covers(s, regions, from, at) && from <= p < at && OpensAt(s, p).Some?
    ensures |regions| > 0 && regions[0].from <= p
  {
    var k :| 0 <= k < |regions| && Within(regions[k], p);
    RegionBounds(s, regions[0]);
  }

  lemma CoversRest(s: string, regions: seq<Region>, from: nat, at: nat)
    requires Covers(s, regions, from, at) && |regions| > 0
    ensures Covers(s, regions[1..], regions[0].end, at)
  {
    hide IsRegion, OpensAt;
    var rest := regions[1..];
    forall p | regions[0].end <= p < at && OpensAt(s, p).Some? ensures Inside(rest, p) {
      assert from <= p by { RegionBounds(s, regions[0]); }
      var k :| 0 <= k < |regions| && Within(regions[k], p);
      assert rest[k - 1] == regions[k];
    }
  }

  /** A script has one list of regions and one place where it may break off. */
  lemma {:induction false} ScannedUnique(s: string, from: nat, regions: seq<Region>, at: nat, regions': seq<Region>, at': nat)
    requires Scanned(s, regions, from, at) && Scanned(s, regions', from, at')
    ensures regions == regions' && at == at'
    decreases |regions| + |regions'|
  {
    hide IsRegion, OpensAt;
    if |regions| == 0 && |regions'| == 0 {
      if at < at' { FirstOpens(s, regions', from, at', at); }
      if at' < at { FirstOpens(s, regions, from, at, at'); }
    } else if |regions| == 0 {
      FirstRegionFound(s, from, regions', at', regions, at);
    } else {
      FirstRegionFound(s, from, regions, at, regions', at');
      CoversRest(s, regions, from, at);
      CoversRest(s, regions', from, at');
      ScannedUnique(s, regions[0].end, regions[1..], at, regions'[1..], at');
      assert regions == [regions[0]] + regions[1..] && regions' == [regions'[0]] + regions'[1..];
    }
  }

  lemma FirstRegionFound(s: string, from: nat, regions: seq<Region>, at: nat, regions': seq<Region>, at': nat)
    requires Scanned(s, regions, from, at) && Scanned(s, regions', from, at') && |regions| > 0
    ensures |regions'| > 0 && regions'[0] == regions[0]
  {
    var r := regions[0];
    RegionBounds(s, r);
    if at' <= r.from {
      FirstOpens(s, regions, from, at, at');
    } else {
      FirstOpens(s, regions', from, at', r.from);
      RegionBounds(s, regions'[0]);
      FirstOpens(s, regions, from, at, regions'[0].from);
      RegionUnique(s, r, regions'[0]);
    }
  }

  // ----------------------------------------------------------- the lexer finds the ends

  lemma {:induction false} QuoteLengthEnds(u: string, d: char)
    ensures QuoteLength(u, d).Some? ==> QuoteEnds(u, d, QuoteLength(u, d).value)
    ensures QuoteLength(u, d).None? ==> forall n :: !DelimiterCloses(u, d, n)
    decreases |u|
  {
    if |u| > 0 {
      var step := if u[0] != d then 1 else 2;
      if u[0] == d && !(|u| > 1 && u[1] == d) {
        assert u[..1] == [d] && Count([d], d) == 1 + Count([], d);
      } else {
        QuoteLengthEnds(u[step..], d);
        forall n ensures DelimiterCloses(u, d, n) <==> DelimiterCloses(u[step..], d, n - step) {
          if 0 < n <= |u| { ShiftCloses(u, d, n, step); }
        }
      }
    }
  }

  lemma ShiftCloses(u: string, d: char, n: int, step: int)
    requires 0 < n <= |u| && step <= |u| && ((step == 1 && u[0] != d) || (step == 2 && u[0] == d && u[1] == d))
    ensures DelimiterCloses(u, d, n) <==> DelimiterCloses(u[step..], d, n - step)
  {
    assert u[..n][1..] == u[1..n];
    if step == 1 {
      assert u[1..n] == u[1..][..n - 1];
    } else if n >= 2 {
      assert u[1..n][1..] == u[2..n] && u[2..n] == u[2..][..n - 2];
      assert Count(u[1..n], d) == 1 + Count(u[2..n], d);
      assert n == 2 ==> Count(u[2..n], d) == 0;
    }
  }

  lemma {:induction false} BlockLengthEnds(u: string)
    ensures BlockLength(u).Some? ==> BlockEnds(u, BlockLength(u).value)
    ensures BlockLength(u).None? ==> forall n :: !CommentCloses(u, n)
    decreases |u|
  {
    if |u| > 0 && !(u[0] == '*' && |u| > 1 && u[1] == '/') {
      BlockLengthEnds(u[1..]);
      forall n ensures CommentCloses(u, n) <==> CommentCloses(u[1..], n - 1) {
      }
    }
  }

  lemma {:induction false} LineLengthEnds(u: string)
    ensures LineEnds(u, LineLength(u))
  {
    if |u| > 0 && u[0] != '\n' {
      var n := LineLength(u);
      LineLengthEnds(u[1..]);
      LineBound(u[1..]);
      if n > 1 {
        assert u[..n - 1] == [u[0]] + u[1..][..n - 2];
      }
    }
  }

  // --------------------------------------------------------------- tokens on characters

  /** The characters that begin a word: `A` to `Z`, `a` to `z` and `_` by their codes. */
  predicate Letter(c: char) {
    65 <= c as int <= 90 || 97 <= c as int <= 122 || c as int == 95
  }

  /** No quote, bracket, semicolon or comment character continues a word. */
  ghost predicate Lettered(a: Alphabet) {
    Sane(a) && forall c :: a.wordPart(c) ==> !Special(c) && c != ']'
  }

  /** A letter at `q` and word characters from there through `p`. */
  predicate Runs(a: Alphabet, s: string, q: int, p: int) {
    0 <= q < p < |s| && Letter(s[q]) && forall m :: q < m <= p ==> a.wordPart(s[m])
  }

  /** `p` continues a word that began before it. */
  ghost predicate Continues(a: Alphabet, s: string, p: int) {
    exists q :: Runs(a, s, q, p)
  }

  predicate RegionToken(kind: Kind) {
    kind.Quoted? || kind.LineComment? || kind.BlockComment?
  }

  /** What the characters of a token that is no region are. */
  predicate Plain(a: Alphabet, s: string, kind: Kind, o: nat, e: nat)
    requires o < e <= |s|
  {
    match kind
    case Word => Letter(s[o]) && (forall m :: o < m < e ==> a.wordPart(s[m])) && (e < |s| ==> !a.wordPart(s[e]))
    case Semicolon => e == o + 1 && s[o] == ';'
    case Blank => e == o + 1 && a.space(s[o])
    case Symbol => e == o + 1 && !Letter(s[o]) && s[o] != ';' && !a.space(s[o])
    case _ => false
  }

  ghost predicate Describes(a: Alphabet, s: string, kind: Kind, o: nat, e: nat) {
    && o < e <= |s|
    && if RegionToken(kind) then IsRegion(s, Region(kind, o, e))
       else Plain(a, s, kind, o, e) && forall p :: o <= p < e ==> OpensAt(s, p).None?
  }

  /** The tokens are the characters from `o` to `at`, each what its kind says. */
  ghost predicate Tiles(a: Alphabet, s: string, tokens: seq<Token>, o: nat, at: nat)
    decreases |tokens|
  {
    if |tokens| == 0 then o == at <= |s|
    else
      var e := o + |tokens[0].text|;
      && e <= |s| && tokens[0].text == s[o..e] && Describes(a, s, tokens[0].kind, o, e) && Tiles(a, s, tokens[1..], e, at)
  }

  lemma {:induction false} WordLengthExact(a: Alphabet, u: string)
    ensures WordLength(a, u) <= |u| && (forall m :: 0 <= m < WordLength(a, u) ==> a.wordPart(u[m]))
    ensures WordLength(a, u) < |u| ==> !a.wordPart(u[WordLength(a, u)])
  {
    if |u| > 0 && a.wordPart(u[0]) {
      WordLengthExact(a, u[1..]);
      assert forall m :: 0 < m < WordLength(a, u) ==> u[m] == u[1..][m - 1];
    }
  }

  lemma OpensNeedsSpecial(s: string, p: nat)
    requires p < |s| && OpensAt(s, p).Some?
    ensures Special(s[p]) && s[p] != ';'
  {
    assert "--" <= s[p..] ==> s[p..][0] == "--"[0];
    assert "/*" <= s[p..] ==> s[p..][0] == "/*"[0];
  }

  /** What opens at `o`, from the first two characters there. */
  lemma OpensByCharacters(s: string, o: nat)
    requires o < |s|
    ensures var c, pair := s[o], o + 1 < |s|;
      OpensAt(s, o) ==
        if c == '\'' || c == '"' || c == '`' || c == '[' then Some(Quoted)
        else if c == '-' && pair && s[o + 1] == '-' then Some(LineComment)
        else if c == '/' && pair && s[o + 1] == '*' then Some(BlockComment)
        else None
  {
    var u := s[o..];
    assert |u| > 1 ==> u[..2] == [s[o], s[o + 1]];
    assert "--" == ['-', '-'] && "/*" == ['/', '*'];
  }

  lemma RegionDescribes(a: Alphabet, s: string, o: nat, kind: Kind)
    requires o < |s| && OpensAt(s, o) == Some(kind)
    ensures First(a, s[o..]).Some? ==> First(a, s[o..]).value.kind == kind && IsRegion(s, Region(kind, o, o + First(a, s[o..]).value.length))
    ensures First(a, s[o..]).None? ==> NeverEnds(s, o)
  {
    hide QuoteEnds, BlockEnds, LineEnds;
    OpensByCharacters(s, o);
    var u := s[o..];
    assert u[1..] == s[o + 1..];
    if kind.Quoted? {
      QuoteLengthEnds(u[1..], DELIMITERS[s[o]]);
      forall n | QuoteLength(u[1..], DELIMITERS[s[o]]).None? ensures !QuoteEnds(u[1..], DELIMITERS[s[o]], n) { NoQuoteEnd(u[1..], DELIMITERS[s[o]], n); }
    } else {
      assert u[2..] == s[o + 2..];
      LineLengthEnds(u[2..]);
      BlockLengthEnds(u[2..]);
      forall n | BlockLength(u[2..]).None? ensures !BlockEnds(u[2..], n) { NoBlockEnd(u[2..], n); }
    }
  }

  lemma NoQuoteEnd(u: string, d: char, n: int)
    requires !DelimiterCloses(u, d, n)
    ensures !QuoteEnds(u, d, n)
  {
  }

  lemma NoBlockEnd(u: string, n: int)
    requires !CommentCloses(u, n)
    ensures !BlockEnds(u, n)
  {
  }

  lemma PlainDescribes(a: Alphabet, s: string, o: nat)
    requires Lettered(a) && o < |s| && OpensAt(s, o).None?
    ensures First(a, s[o..]).Some? && Describes(a, s, First(a, s[o..]).value.kind, o, o + First(a, s[o..]).value.length)
  {
    hide OpensAt, IsRegion;
    var u := s[o..];
    assert WordStart(s[o]) <==> Letter(s[o]);
    OpensByCharacters(s, o);
    assert u[1..] == s[o + 1..];
    if WordStart(s[o]) {
      WordLengthExact(a, u[1..]);
      var n := WordLength(a, u[1..]);
      assert forall m :: o < m < o + 1 + n ==> s[m] == u[1..][m - o - 1];
      forall p | o <= p < o + 1 + n ensures OpensAt(s, p).None? {
        if OpensAt(s, p).Some? { OpensNeedsSpecial(s, p); }
      }
    }
  }

  lemma FirstDescribes(a: Alphabet, s: string, o: nat)
    requires Lettered(a) && o < |s|
    ensures First(a, s[o..]).Some? ==> Describes(a, s, First(a, s[o..]).value.kind, o, o + First(a, s[o..]).value.length)
    ensures First(a, s[o..]).None? ==> NeverEnds(s, o)
  {
    hide First, OpensAt, IsRegion, Plain;
    if OpensAt(s, o).Some? {
      KindIsRegion(s, o);
      RegionDescribes(a, s, o, OpensAt(s, o).value);
      if First(a, s[o..]).Some? {
        RegionBounds(s, Region(OpensAt(s, o).value, o, o + First(a, s[o..]).value.length));
      }
    } else {
      PlainDescribes(a, s, o);
    }
  }

  lemma KindIsRegion(s: string, o: nat)
    requires OpensAt(s, o).Some?
    ensures RegionToken(OpensAt(s, o).value)
  {
  }

  // ------------------------------------------------------------------ the whole script

  /** The regions that the tokens from `o` on say. */
  function RegionsOf(tokens: seq<Token>, o: nat): seq<Region> {
    if |tokens| == 0 then []
    else
      var e := o + |tokens[0].text|;
      (if RegionToken(tokens[0].kind) then [Region(tokens[0].kind, o, e)] else []) + RegionsOf(tokens[1..], e)
  }

  lemma {:induction false} TilesCover(a: Alphabet, s: string, tokens: seq<Token>, o: nat, at: nat)
    requires Tiles(a, s, tokens, o, at)
    ensures Covers(s, RegionsOf(tokens, o), o, at)
    decreases |tokens|
  {
    hide IsRegion, OpensAt, Plain;
    if |tokens| > 0 {
      var e := o + |tokens[0].text|;
      TilesCover(a, s, tokens[1..], e, at);
      var rest := RegionsOf(tokens[1..], e);
      CoversMore(s, tokens[0].kind, o, e, rest, at);
    }
  }

  lemma CoversMore(s: string, kind: Kind, o: nat, e: nat, rest: seq<Region>, at: nat)
    requires Covers(s, rest, e, at) && o < e
    requires if RegionToken(kind) then IsRegion(s, Region(kind, o, e)) else forall p :: o <= p < e ==> OpensAt(s, p).None?
    ensures Covers(s, (if RegionToken(kind) then [Region(kind, o, e)] else []) + rest, o, at)
  {
    hide IsRegion, OpensAt;
    var first := if RegionToken(kind) then [Region(kind, o, e)] else [];
    var all := first + rest;
    forall p | o <= p < at && OpensAt(s, p).Some? ensures Inside(all, p) {
      if p < e {
        assert Within(all[0], p);
      } else {
        var k :| 0 <= k < |rest| && Within(rest[k], p);
        assert all[|first| + k] == rest[k];
      }
    }
  }

  /** The lexer tiles the script up to its end, or to a quote, bracket or comment that never ends. */
  lemma {:induction false} LexTiles(a: Alphabet, s: string, o: nat) returns (at: nat)
    requires Lettered(a) && o <= |s|
    ensures Tiles(a, s, Lex(a, s[o..]).tokens, o, at) && (at == |s| || NeverEnds(s, at))
    ensures Lex(a, s[o..]).terminated <==> at == |s|
    decreases |s| - o
  {
    hide First, Describes, Lettered, NeverEnds;
    at := o;
    if o < |s| {
      var u := s[o..];
      FirstDescribes(a, s, o);
      FirstBound(a, u);
      if First(a, u).Some? {
        var n := First(a, u).value.length;
        assert u[n..] == s[o + n..] && u[..n] == s[o..o + n];
        at := LexTiles(a, s, o + n);
        assert Lex(a, u).tokens[1..] == Lex(a, s[o + n..]).tokens;
      }
    }
  }

  /** The tokens of kinds quote, line comment and block comment are the regions of the script. */
  lemma LexFindsRegions(a: Alphabet, s: string) returns (at: nat)
    requires Lettered(a)
    ensures Tiles(a, s, Lex(a, s).tokens, 0, at) && Scanned(s, RegionsOf(Lex(a, s).tokens, 0), 0, at)
    ensures Lex(a, s).terminated <==> at == |s|
  {
    hide Tiles, Lex, Covers, NeverEnds, RegionsOf;
    assert s[0..] == s;
    at := LexTiles(a, s, 0);
    TilesCover(a, s, Lex(a, s).tokens, 0, at);
  }
}
