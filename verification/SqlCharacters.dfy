/**
 * `splitSqlStatements` on the characters of the script (packages/migrations/src/index.ts:82-188):
 * which semicolons cut, which pieces are returned and when each error is thrown, stated with the
 * regions and words of `SqlRegions` and without tokens. A script has exactly one such division, and
 * the splitter answers what it says.
 */
module SqlCharacters {
  import opened Options
  import opened SqlTokens
  import opened SqlRegions
  import opened SqlSplitter
  import opened SqlSplitterLaws
  import opened SqlResplit

  // ------------------------------------------------------------------ words and code

  /** A word begins at `p`: a letter outside all regions that does not continue a word. */
  ghost predicate WordBegins(a: Alphabet, s: string, regions: seq<Region>, p: int) {
    0 <= p < |s| && Letter(s[p]) && !Continues(a, s, p) && !Inside(regions, p)
  }

  function WordEnd(a: Alphabet, s: string, p: nat): nat
    decreases |s| - p
  {
    if p < |s| && a.wordPart(s[p]) then WordEnd(a, s, p + 1) else p
  }

  /** The words that begin between `b` and `p`. */
  ghost function Words(a: Alphabet, s: string, regions: seq<Region>, b: nat, p: nat): seq<Keyword>
    requires p <= |s|
    decreases p
  {
    if p <= b then []
    else
      Words(a, s, regions, b, p - 1)
      + if WordBegins(a, s, regions, p - 1) then [a.keyword(WordAt(a, s, p - 1))] else []
  }

  function WordAt(a: Alphabet, s: string, p: nat): string
    requires p < |s|
  {
    WordEndBounds(a, s, p + 1);
    s[p..WordEnd(a, s, p + 1)]
  }

  lemma {:induction false} WordEndBounds(a: Alphabet, s: string, p: nat)
    requires p <= |s|
    ensures p <= WordEnd(a, s, p) <= |s|
    decreases |s| - p
  {
    if p < |s| && a.wordPart(s[p]) { WordEndBounds(a, s, p + 1); }
  }

  lemma {:induction false} WordEndIs(a: Alphabet, s: string, p: nat, e: nat)
    requires p <= e <= |s| && (forall m :: p <= m < e ==> a.wordPart(s[m])) && (e < |s| ==> !a.wordPart(s[e]))
    ensures WordEnd(a, s, p) == e
    decreases e - p
  {
    if p < e { WordEndIs(a, s, p + 1, e); }
  }

  predicate Quotes(regions: seq<Region>, p: int) {
    exists k :: 0 <= k < |regions| && Within(regions[k], p) && regions[k].kind.Quoted?
  }

  /** Not white space, not a bare semicolon, not in a comment. */
  predicate Code(a: Alphabet, s: string, regions: seq<Region>, p: int) {
    0 <= p < |s| && (Quotes(regions, p) || (!Inside(regions, p) && s[p] != ';' && !a.space(s[p])))
  }

  predicate HasCode(a: Alphabet, s: string, regions: seq<Region>, b: int, p: int) {
    exists q :: b <= q < p && Code(a, s, regions, q)
  }

  // -------------------------------------------------------------------- the division

  /** A semicolon outside all regions. */
  predicate Bare(s: string, regions: seq<Region>, p: int) {
    0 <= p < |s| && s[p] == ';' && !Inside(regions, p)
  }

  ghost predicate BodyOpen(words: seq<Keyword>) {
    Body(words).Some? && !BodyClosed(Body(words).value)
  }

  /** A CREATE TRIGGER whose body has not begun. */
  predicate Headless(words: seq<Keyword>) {
    TriggerHead(words) && Body(words).None?
  }

  ghost predicate CutAt(a: Alphabet, s: string, regions: seq<Region>, b: nat, p: int) {
    Bare(s, regions, p) && !BodyOpen(Words(a, s, regions, b, p)) && !Headless(Words(a, s, regions, b, p))
  }

  /** Every bare semicolon between `b` and `p` stands in the body of a trigger. */
  ghost predicate Kept(a: Alphabet, s: string, regions: seq<Region>, b: nat, p: int) {
    forall q :: b <= q < p && Bare(s, regions, q) ==> BodyOpen(Words(a, s, regions, b, q))
  }

  /** The pieces that begin at `cuts`, the last of them read up to `upto`. */
  ghost predicate Pieces(a: Alphabet, s: string, regions: seq<Region>, cuts: seq<nat>, upto: nat) {
    && |cuts| > 0 && cuts[0] == 0 && upto <= |s|
    && (forall k :: 0 <= k < |cuts| - 1 ==>
          cuts[k] < cuts[k + 1] && CutAt(a, s, regions, cuts[k], cuts[k + 1] - 1) && Kept(a, s, regions, cuts[k], cuts[k + 1] - 1))
    && cuts[|cuts| - 1] <= upto && Kept(a, s, regions, cuts[|cuts| - 1], upto)
  }

  /** The whole script divided: up to its end, to where it breaks off, or to a malformed trigger. */
  ghost predicate Divided(a: Alphabet, s: string, regions: seq<Region>, at: nat, cuts: seq<nat>, upto: nat) {
    && Scanned(s, regions, 0, at) && upto <= at && Pieces(a, s, regions, cuts, upto)
    && (upto == at || (Bare(s, regions, upto) && Headless(Words(a, s, regions, cuts[|cuts| - 1], upto))))
  }

  /** The trimmed pieces that hold code; the last one ends at `upto`. */
  function Pieced(a: Alphabet, s: string, regions: seq<Region>, cuts: seq<nat>, upto: nat): seq<string> {
    if |cuts| == 0 || !(cuts[|cuts| - 1] <= upto <= |s|) then []
    else
      var b := cuts[|cuts| - 1];
      Pieced(a, s, regions, cuts[..|cuts| - 1], b)
      + if HasCode(a, s, regions, b, upto) then [Trim(a, s[b..upto])] else []
  }

  // ---------------------------------------------------------------- one division only

  lemma {:induction false} CutsAgree(a: Alphabet, s: string, regions: seq<Region>, at: nat, cuts: seq<nat>, upto: nat, cuts': seq<nat>, upto': nat, k: nat)
    requires Divided(a, s, regions, at, cuts, upto) && Divided(a, s, regions, at, cuts', upto') && k < |cuts|
    ensures k < |cuts'| && cuts[k] == cuts'[k]
  {
    hide Scanned, BodyOpen, Body, TriggerHead, Words;
    if k > 0 {
      CutsAgree(a, s, regions, at, cuts, upto, cuts', upto', k - 1);
      CutsFollow(a, s, regions, at, cuts, upto, cuts', upto', k - 1);
      if k < |cuts'| && cuts'[k] < cuts[k] {
        CutsFollow(a, s, regions, at, cuts', upto', cuts, upto, k - 1);
      }
    }
  }

  lemma {:induction false} CutsRise(a: Alphabet, s: string, regions: seq<Region>, cuts: seq<nat>, upto: nat, k: nat)
    requires Pieces(a, s, regions, cuts, upto) && k < |cuts|
    ensures cuts[k] <= upto
    decreases |cuts| - k
  {
    if k < |cuts| - 1 { CutsRise(a, s, regions, cuts, upto, k + 1); }
  }

  lemma CutsFollow(a: Alphabet, s: string, regions: seq<Region>, at: nat, cuts: seq<nat>, upto: nat, cuts': seq<nat>, upto': nat, k: nat)
    requires Divided(a, s, regions, at, cuts, upto) && Divided(a, s, regions, at, cuts', upto')
    requires k + 1 < |cuts| && k < |cuts'| && cuts[k] == cuts'[k]
    ensures k + 1 < |cuts'| && cuts'[k + 1] <= cuts[k + 1]
  {
    hide Scanned, Body, TriggerHead, Words, Inside;
    CutsRise(a, s, regions, cuts, upto, k + 1);
    CutStops(a, s, regions, cuts[k], cuts[k + 1] - 1, if k + 1 < |cuts'| then cuts'[k + 1] - 1 else upto');
    HeadlessStops(a, s, regions, cuts[k], upto', cuts[k + 1] - 1);
  }

  /** A cut is not kept. */
  lemma CutStops(a: Alphabet, s: string, regions: seq<Region>, b: nat, p: nat, end: int)
    requires CutAt(a, s, regions, b, p) && Kept(a, s, regions, b, end) && b <= p
    ensures end <= p
  {
    hide BodyOpen, Words, Bare, Headless;
  }

  /** A malformed trigger is neither kept nor cut. */
  lemma HeadlessStops(a: Alphabet, s: string, regions: seq<Region>, b: nat, p: nat, end: int)
    requires p <= |s| && Kept(a, s, regions, b, end)
    ensures b <= p && Bare(s, regions, p) && Headless(Words(a, s, regions, b, p)) ==> end <= p && !CutAt(a, s, regions, b, p)
  {
    hide Words, Bare, BodyClosed;
  }

  lemma DivisionUnique(a: Alphabet, s: string, regions: seq<Region>, at: nat, cuts: seq<nat>, upto: nat, regions': seq<Region>, at': nat, cuts': seq<nat>, upto': nat)
    requires Divided(a, s, regions, at, cuts, upto) && Divided(a, s, regions', at', cuts', upto')
    ensures regions == regions' && at == at' && cuts == cuts' && upto == upto'
  {
    hide Scanned, Body, TriggerHead, Words, Inside;
    ScannedUnique(s, 0, regions, at, regions', at');
    forall k | 0 <= k < |cuts| ensures k < |cuts'| && cuts[k] == cuts'[k] { CutsAgree(a, s, regions, at, cuts, upto, cuts', upto', k); }
    CutsAgree(a, s, regions, at, cuts, upto, cuts', upto', |cuts| - 1);
    CutsAgree(a, s, regions, at, cuts', upto', cuts, upto, |cuts'| - 1);
    var b := cuts[|cuts| - 1];
    HeadlessStops(a, s, regions, b, upto, upto');
    HeadlessStops(a, s, regions, b, upto', upto);
  }

  // ------------------------------------------------------------- tokens on characters

  /** The tokens from `o` on say the regions from there on. */
  predicate Around(regions: seq<Region>, before: seq<Region>, tokens: seq<Token>, o: nat) {
    regions == before + RegionsOf(tokens, o) && forall k :: 0 <= k < |before| ==> before[k].end <= o
  }

  lemma AroundRest(regions: seq<Region>, before: seq<Region>, tokens: seq<Token>, o: nat) returns (next: seq<Region>)
    requires Around(regions, before, tokens, o) && |tokens| > 0
    ensures Around(regions, next, tokens[1..], o + |tokens[0].text|)
  {
    var e := o + |tokens[0].text|;
    next := before + if RegionToken(tokens[0].kind) then [Region(tokens[0].kind, o, e)] else [];
  }

  lemma AroundParts(regions: seq<Region>, before: seq<Region>, tokens: seq<Token>, o: nat) returns (middle: seq<Region>)
    requires Around(regions, before, tokens, o) && |tokens| > 0
    ensures middle == if RegionToken(tokens[0].kind) then [Region(tokens[0].kind, o, o + |tokens[0].text|)] else []
    ensures regions == before + middle + RegionsOf(tokens[1..], o + |tokens[0].text|)
    ensures forall k :: 0 <= k < |before| ==> before[k].end <= o
  {
    middle := if RegionToken(tokens[0].kind) then [Region(tokens[0].kind, o, o + |tokens[0].text|)] else [];
  }

  /** The characters of a token lie inside a region exactly when the token is one. */
  lemma TokenInside(a: Alphabet, s: string, regions: seq<Region>, before: seq<Region>, tokens: seq<Token>, o: nat, at: nat, q: nat)
    requires Tiles(a, s, tokens, o, at) && Around(regions, before, tokens, o) && |tokens| > 0 && o <= q < o + |tokens[0].text|
    ensures Inside(regions, q) <==> RegionToken(tokens[0].kind)
    ensures Quotes(regions, q) <==> tokens[0].kind.Quoted?
  {
    hide Describes, Inside, Quotes, RegionsOf, Around;
    var e := o + |tokens[0].text|;
    LaterRegions(a, s, tokens[1..], e, at, q);
    var middle := AroundParts(regions, before, tokens, o);
    InsideMiddle(before, middle, RegionsOf(tokens[1..], e), q);
    InsideOne(tokens[0].kind, o, e, q);
  }

  lemma LaterRegions(a: Alphabet, s: string, tokens: seq<Token>, o: nat, at: nat, q: nat)
    requires Tiles(a, s, tokens, o, at) && q < o
    ensures forall k :: 0 <= k < |RegionsOf(tokens, o)| ==> q < RegionsOf(tokens, o)[k].from
  {
    hide Tiles, IsRegion, OpensAt, RegionsOf;
    TilesCover(a, s, tokens, o, at);
  }

  lemma InsideOne(kind: Kind, o: nat, e: nat, q: nat)
    requires o <= q < e
    ensures !Inside([], q) && !Quotes([], q) && Inside([Region(kind, o, e)], q) && (Quotes([Region(kind, o, e)], q) <==> kind.Quoted?)
  {
    assert Within([Region(kind, o, e)][0], q);
  }

  lemma InsideMiddle(before: seq<Region>, middle: seq<Region>, after: seq<Region>, q: nat)
    requires forall k :: 0 <= k < |before| ==> before[k].end <= q
    requires forall k :: 0 <= k < |after| ==> q < after[k].from
    ensures Inside(before + middle + after, q) <==> Inside(middle, q)
    ensures Quotes(before + middle + after, q) <==> Quotes(middle, q)
  {
    var all := before + middle + after;
    forall k | 0 <= k < |all| && Within(all[k], q) ensures |before| <= k < |before| + |middle| && all[k] == middle[k - |before|] {
    }
    forall k | 0 <= k < |middle| ensures all[|before| + k] == middle[k] {
    }
  }

  lemma {:induction false} NoWords(a: Alphabet, s: string, regions: seq<Region>, b: nat, o: nat, e: nat)
    requires b <= o <= e <= |s| && forall p :: o <= p < e ==> !WordBegins(a, s, regions, p)
    ensures Words(a, s, regions, b, e) == Words(a, s, regions, b, o)
    decreases e
  {
    if o < e { NoWords(a, s, regions, b, o, e - 1); }
  }

  /** A word token is a word, and no other token holds the beginning of one. */
  lemma TokenWords(a: Alphabet, s: string, regions: seq<Region>, before: seq<Region>, tokens: seq<Token>, o: nat, at: nat, b: nat)
    requires Tiles(a, s, tokens, o, at) && Around(regions, before, tokens, o) && |tokens| > 0 && b <= o && !Continues(a, s, o) && Lettered(a)
    ensures o + |tokens[0].text| <= |s|
    ensures Words(a, s, regions, b, o + |tokens[0].text|) ==
      Words(a, s, regions, b, o) + if tokens[0].kind.Word? then [a.keyword(tokens[0].text)] else []
  {
    hide IsRegion, OpensAt, Inside, Around, Continues;
    var kind, e := tokens[0].kind, o + |tokens[0].text|;
    forall q | o <= q < e ensures Inside(regions, q) <==> RegionToken(kind) { TokenInside(a, s, regions, before, tokens, o, at, q); }
    if kind.Word? {
      WordEndIs(a, s, o + 1, e);
      forall p | o + 1 <= p < e ensures !WordBegins(a, s, regions, p) {
        assert Continues(a, s, p) by { RunsOn(a, s, o, p); }
      }
      NoWords(a, s, regions, b, o + 1, e);
      assert WordBegins(a, s, regions, o);
    } else {
      NoWords(a, s, regions, b, o, e);
    }
  }

  lemma RunsOn(a: Alphabet, s: string, o: nat, p: nat)
    requires o < p < |s| && Letter(s[o]) && forall m :: o < m <= p ==> a.wordPart(s[m])
    ensures Continues(a, s, p)
  {
    assert Runs(a, s, o, p);
  }

  /** No word reaches across the end of a token. */
  lemma TokenStops(a: Alphabet, s: string, kind: Kind, o: nat, e: nat)
    requires Describes(a, s, kind, o, e) && Lettered(a) && !Continues(a, s, o)
    ensures !Continues(a, s, e)
  {
    hide OpensAt, IsRegion;
    if Continues(a, s, e) {
      var q :| Runs(a, s, q, e);
      if RegionToken(kind) {
        RegionStops(s, Region(kind, o, e));
      } else if !kind.Word? && q < o {
        RunsShort(a, s, q, o, e);
      }
    }
  }

  lemma RunsShort(a: Alphabet, s: string, q: nat, o: nat, e: nat)
    requires Runs(a, s, q, e) && q < o < e
    ensures Continues(a, s, o)
  {
    assert Runs(a, s, q, o);
  }

  lemma RegionStops(s: string, r: Region)
    requires IsRegion(s, r) && r.end < |s|
    ensures r.from < r.end && (s[r.end - 1] == '\n' || s[r.end - 1] == ']' || Special(s[r.end - 1]))
  {
    RegionBounds(s, r);
  }

  /** A token holds code exactly when its kind is significant. */
  lemma TokenCode(a: Alphabet, s: string, regions: seq<Region>, before: seq<Region>, tokens: seq<Token>, o: nat, at: nat, b: nat)
    requires Tiles(a, s, tokens, o, at) && Around(regions, before, tokens, o) && |tokens| > 0 && b <= o && Lettered(a)
    ensures HasCode(a, s, regions, b, o + |tokens[0].text|) <==> HasCode(a, s, regions, b, o) || !Insignificant(tokens[0].kind)
    ensures forall q :: o <= q < o + |tokens[0].text| ==> (Bare(s, regions, q) <==> tokens[0].kind.Semicolon?)
    ensures o + |tokens[0].text| <= |s| && |tokens[0].text| > 0 && (tokens[0].kind.Semicolon? ==> |tokens[0].text| == 1)
  {
    hide IsRegion, OpensAt, Inside, Quotes, Around;
    var kind, e := tokens[0].kind, o + |tokens[0].text|;
    forall q | o <= q < e ensures (Inside(regions, q) <==> RegionToken(kind)) && (Quotes(regions, q) <==> kind.Quoted?) {
      TokenInside(a, s, regions, before, tokens, o, at, q);
    }
    if !RegionToken(kind) && kind.Word? {
      forall q | o <= q < e ensures s[q] != ';' { WordHasNoSemicolon(a, s, o, e, q); }
    }
    assert Code(a, s, regions, o) <==> !Insignificant(kind);
  }

  lemma WordHasNoSemicolon(a: Alphabet, s: string, o: nat, e: nat, q: nat)
    requires Lettered(a) && o <= q < e <= |s| && Plain(a, s, Word, o, e)
    ensures s[q] != ';'
  {
  }

  // ----------------------------------------------------------- the tokens' cuts are these

  /** What has been read of the current piece, which began at `b`. */
  ghost predicate Current(a: Alphabet, s: string, regions: seq<Region>, current: seq<Token>, b: nat, o: nat) {
    && b <= o <= |s| && Text(current) == s[b..o]
    && Keywords(a, current) == Words(a, s, regions, b, o)
    && (GroupOf(a, current).hasCode <==> HasCode(a, s, regions, b, o))
  }

  lemma CurrentMore(a: Alphabet, s: string, regions: seq<Region>, before: seq<Region>, tokens: seq<Token>, o: nat, at: nat, current: seq<Token>, b: nat)
    requires Tiles(a, s, tokens, o, at) && Around(regions, before, tokens, o) && |tokens| > 0 && !Continues(a, s, o) && Lettered(a)
    requires Current(a, s, regions, current, b, o)
    ensures Current(a, s, regions, current + [tokens[0]], b, o + |tokens[0].text|)
  {
    hide Tiles, Around, Continues, Lettered, HasCode, Insignificant, GroupOf, Words, Keywords, Text;
    TokenWords(a, s, regions, before, tokens, o, at, b);
    TokenCode(a, s, regions, before, tokens, o, at, b);
    KeywordsMore(a, current, tokens[0]);
    CodeMore(a, current, tokens[0]);
    TextMore(a, s, tokens, o, at, current, b);
  }

  lemma TextMore(a: Alphabet, s: string, tokens: seq<Token>, o: nat, at: nat, current: seq<Token>, b: nat)
    requires Tiles(a, s, tokens, o, at) && |tokens| > 0 && b <= o <= |s| && Text(current) == s[b..o]
    ensures o + |tokens[0].text| <= |s| && Text(current + [tokens[0]]) == s[b..o + |tokens[0].text|]
  {
    hide Describes;
    var e := o + |tokens[0].text|;
    TextConcat(current, [tokens[0]]);
    assert Text([tokens[0]]) == tokens[0].text + Text([]) == tokens[0].text;
    assert s[b..e] == s[b..o] + s[o..e];
  }

  lemma KeywordsMore(a: Alphabet, current: seq<Token>, token: Token)
    ensures Keywords(a, current + [token]) == Keywords(a, current) + if token.kind.Word? then [a.keyword(token.text)] else []
  {
    assert (current + [token])[..|current|] == current;
  }

  lemma CodeMore(a: Alphabet, current: seq<Token>, token: Token)
    ensures GroupOf(a, current + [token]).hasCode <==> GroupOf(a, current).hasCode || !Insignificant(token.kind)
  {
    assert (current + [token])[..|current|] == current;
  }

  lemma CurrentEmpty(a: Alphabet, s: string, regions: seq<Region>, o: nat)
    requires o <= |s|
    ensures Current(a, s, regions, [], o, o)
  {
  }

  lemma KeptMore(a: Alphabet, s: string, regions: seq<Region>, b: nat, o: nat, e: nat)
    requires Kept(a, s, regions, b, o) && b <= o <= e <= |s|
    requires forall q :: o <= q < e && Bare(s, regions, q) ==> BodyOpen(Words(a, s, regions, b, q))
    ensures Kept(a, s, regions, b, e)
  {
    hide BodyOpen, Words, Bare;
  }

  lemma PiecesMore(a: Alphabet, s: string, regions: seq<Region>, cuts: seq<nat>, o: nat, e: nat)
    requires Pieces(a, s, regions, cuts, o) && o <= e <= |s|
    requires forall q :: o <= q < e && Bare(s, regions, q) ==> BodyOpen(Words(a, s, regions, cuts[|cuts| - 1], q))
    ensures Pieces(a, s, regions, cuts, e)
  {
    hide BodyOpen, Words, Bare, Kept, CutAt;
    KeptMore(a, s, regions, cuts[|cuts| - 1], o, e);
  }

  lemma PiecesCut(a: Alphabet, s: string, regions: seq<Region>, cuts: seq<nat>, o: nat)
    requires Pieces(a, s, regions, cuts, o) && o < |s| && CutAt(a, s, regions, cuts[|cuts| - 1], o)
    ensures Pieces(a, s, regions, cuts + [o + 1], o + 1)
  {
    hide BodyOpen, Words, Bare, CutAt;
  }

  /** The division that the rest of the tokens makes, after the pieces so far. */
  lemma {:induction false} Divide(a: Alphabet, s: string, regions: seq<Region>, before: seq<Region>, tokens: seq<Token>, o: nat, at: nat, current: seq<Token>, cuts: seq<nat>)
    returns (all: seq<nat>, upto: nat)
    requires Lettered(a) && Tiles(a, s, tokens, o, at) && Around(regions, before, tokens, o) && !Continues(a, s, o)
    requires Pieces(a, s, regions, cuts, o) && Current(a, s, regions, current, cuts[|cuts| - 1], o)
    ensures Pieces(a, s, regions, all, upto) && upto <= at <= |s|
    ensures upto == at || (Bare(s, regions, upto) && Headless(Words(a, s, regions, all[|all| - 1], upto)))
    ensures match CutTokens(a, tokens, current)
      case Malformed => upto < at
      case Segments(segments) =>
        && upto == at && |segments| > 0
        && (GroupOf(a, segments[|segments| - 1]).trigger <==> TriggerHead(Words(a, s, regions, all[|all| - 1], at)))
        && Pieced(a, s, regions, all, at) == Pieced(a, s, regions, cuts[..|cuts| - 1], cuts[|cuts| - 1]) + Statements(a, segments)
    decreases |tokens|
  {
    hide Lettered, Describes, Around, Continues, Pieces, Bare, Headless, BodyOpen, Words, Current, GroupOf, Statements, TriggerHead, Pieced;
    PiecesBounds(a, s, regions, cuts, o);
    var b := cuts[|cuts| - 1];
    CurrentMeans(a, s, regions, current, b, o);
    if |tokens| == 0 {
      all, upto := cuts, o;
      PieceEnds(a, s, regions, o, current, cuts);
    } else {
      var e := o + |tokens[0].text|;
      var next := AroundRest(regions, before, tokens, o);
      TokenCode(a, s, regions, before, tokens, o, at, b);
      TokenStops(a, s, tokens[0].kind, o, e);
      CurrentMore(a, s, regions, before, tokens, o, at, current, b);
      TilesBounds(a, s, tokens[1..], e, at);
      var g := GroupOf(a, current);
      if !tokens[0].kind.Semicolon? || InTriggerBody(g) {
        PiecesMore(a, s, regions, cuts, o, e);
        all, upto := Divide(a, s, regions, next, tokens[1..], e, at, current + [tokens[0]], cuts);
      } else if g.trigger && !g.begun {
        all, upto := cuts, o;
      } else {
        var cuts' := cuts + [e];
        PiecesCut(a, s, regions, cuts, o);
        CurrentEmpty(a, s, regions, e);
        all, upto := Divide(a, s, regions, next, tokens[1..], e, at, [], cuts');
        assert cuts'[..|cuts'| - 1] == cuts;
        PieceEnds(a, s, regions, e, current + [tokens[0]], cuts);
        var rest := CutTokens(a, tokens[1..], []);
        if rest.Segments? {
          StatementsCons(a, current + [tokens[0]], rest.segments);
          Associates(Pieced(a, s, regions, cuts[..|cuts| - 1], b), Statements(a, [current + [tokens[0]]]), Statements(a, rest.segments));
        }
      }
    }
  }

  lemma Associates(x: seq<string>, y: seq<string>, z: seq<string>)
    ensures x + y + z == x + (y + z)
  {
  }

  lemma {:induction false} TilesBounds(a: Alphabet, s: string, tokens: seq<Token>, o: nat, at: nat)
    requires Tiles(a, s, tokens, o, at)
    ensures o <= at <= |s|
    decreases |tokens|
  {
    hide Describes;
    if |tokens| > 0 { TilesBounds(a, s, tokens[1..], o + |tokens[0].text|, at); }
  }

  lemma PiecesBounds(a: Alphabet, s: string, regions: seq<Region>, cuts: seq<nat>, o: nat)
    requires Pieces(a, s, regions, cuts, o)
    ensures |cuts| > 0 && cuts[|cuts| - 1] <= o <= |s|
  {
    hide Kept, CutAt;
  }

  /** The flags of the current group say what its words say. */
  lemma CurrentMeans(a: Alphabet, s: string, regions: seq<Region>, current: seq<Token>, b: nat, o: nat)
    requires Current(a, s, regions, current, b, o)
    ensures b <= o <= |s|
    ensures var words, g := Words(a, s, regions, b, o), GroupOf(a, current);
      && (InTriggerBody(g) <==> BodyOpen(words)) && (g.trigger && !g.begun <==> Headless(words)) && (g.trigger <==> TriggerHead(words))
  {
    hide GroupOf, Words, HasCode, BodyClosed, TriggerHead, Body;
    GroupMeaning(a, current);
  }

  lemma PieceEnds(a: Alphabet, s: string, regions: seq<Region>, o: nat, current: seq<Token>, cuts: seq<nat>)
    requires |cuts| > 0 && Current(a, s, regions, current, cuts[|cuts| - 1], o)
    ensures Pieced(a, s, regions, cuts, o) == Pieced(a, s, regions, cuts[..|cuts| - 1], cuts[|cuts| - 1]) + Statements(a, [current])
  {
    hide GroupOf, Statements, HasCode, Words, Trim;
    StatementOne(a, current);
  }

  // -------------------------------------------------------------------------- theorems

  /** Every script has a division, and the splitter answers what it says. */
  lemma SplitDivides(a: Alphabet, s: string) returns (regions: seq<Region>, at: nat, cuts: seq<nat>, upto: nat)
    requires Lettered(a)
    ensures Divided(a, s, regions, at, cuts, upto) && Split(a, s) == Answer(a, s, regions, at, cuts, upto)
  {
    hide Lettered, Tiles, Scanned, Pieces, Bare, Headless, Words, GroupOf, Statements, TriggerHead, Pieced, Lex, CutTokens, Continues;
    at := LexFindsRegions(a, s);
    var tokens := Lex(a, s).tokens;
    regions := RegionsOf(tokens, 0);
    assert Around(regions, [], tokens, 0);
    assert Pieces(a, s, regions, [0], 0) by { NothingRead(a, s, regions); }
    CurrentEmpty(a, s, regions, 0);
    assert !Continues(a, s, 0) by { NothingContinues(a, s); }
    cuts, upto := Divide(a, s, regions, [], tokens, 0, at, [], [0]);
    assert Pieced(a, s, regions, [0][..0], 0) == [] by { NothingPieced(a, s, regions); }
    var cut := CutTokens(a, tokens, []);
    if cut.Segments? {
      assert [] + Statements(a, cut.segments) == Statements(a, cut.segments);
    }
  }

  lemma NothingRead(a: Alphabet, s: string, regions: seq<Region>)
    ensures Pieces(a, s, regions, [0], 0)
  {
  }

  lemma NothingContinues(a: Alphabet, s: string)
    ensures !Continues(a, s, 0)
  {
  }

  lemma NothingPieced(a: Alphabet, s: string, regions: seq<Region>)
    ensures Pieced(a, s, regions, [0][..0], 0) == []
  {
  }

  ghost function Answer(a: Alphabet, s: string, regions: seq<Region>, at: nat, cuts: seq<nat>, upto: nat): SplitResult
    requires Divided(a, s, regions, at, cuts, upto)
  {
    if upto < at then Err(MalformedTrigger)
    else if at < |s| then Err(Unterminated)
    else if TriggerHead(Words(a, s, regions, cuts[|cuts| - 1], at)) then Err(UnterminatedTrigger)
    else Ok(Pieced(a, s, regions, cuts, at))
  }

  /**
   * The answer of the splitter on characters. The script is cut exactly at the semicolons outside
   * quotes, brackets and comments that stand in no trigger body; the trimmed pieces that hold code
   * are returned; a malformed trigger is reported exactly when a semicolon meets a trigger without
   * body, an unterminated quote, bracket or comment exactly when the script ends inside one, and an
   * unterminated trigger exactly when the last piece is one.
   */
  lemma SplitExact(a: Alphabet, s: string, regions: seq<Region>, at: nat, cuts: seq<nat>, upto: nat)
    requires Lettered(a) && Divided(a, s, regions, at, cuts, upto)
    ensures Split(a, s) == Answer(a, s, regions, at, cuts, upto)
  {
    hide Divided, Split;
    var regions', at', cuts', upto' := SplitDivides(a, s);
    DivisionUnique(a, s, regions, at, cuts, upto, regions', at', cuts', upto');
  }

  predicate SemicolonAt(tokens: seq<Token>, o: nat, p: nat)
    decreases |tokens|
  {
    |tokens| > 0 && ((tokens[0].kind.Semicolon? && p == o) || SemicolonAt(tokens[1..], o + |tokens[0].text|, p))
  }

  lemma {:induction false} SemicolonTokens(a: Alphabet, s: string, regions: seq<Region>, before: seq<Region>, tokens: seq<Token>, o: nat, at: nat, p: nat)
    requires Lettered(a) && Tiles(a, s, tokens, o, at) && Around(regions, before, tokens, o) && p < at
    ensures SemicolonAt(tokens, o, p) <==> o <= p && Bare(s, regions, p)
    decreases |tokens|
  {
    hide Lettered, Describes, Bare, Around;
    if |tokens| > 0 {
      var next := AroundRest(regions, before, tokens, o);
      TokenCode(a, s, regions, before, tokens, o, at, o);
      SemicolonTokens(a, s, regions, next, tokens[1..], o + |tokens[0].text|, at, p);
    }
  }

  /** The semicolon tokens stand exactly at the semicolons outside quotes, brackets and comments. */
  lemma SemicolonsExact(a: Alphabet, s: string, regions: seq<Region>, at: nat, p: nat)
    requires Lettered(a) && Scanned(s, regions, 0, at) && p < at
    ensures SemicolonAt(Lex(a, s).tokens, 0, p) <==> Bare(s, regions, p)
  {
    hide Lettered, Tiles, Scanned, Bare, Lex, SemicolonAt;
    var at' := LexFindsRegions(a, s);
    ScannedUnique(s, 0, regions, at, RegionsOf(Lex(a, s).tokens, 0), at');
    SemicolonTokens(a, s, regions, [], Lex(a, s).tokens, 0, at, p);
  }

  lemma {:induction false} TrimLeftSuffix(a: Alphabet, s: string)
    ensures |TrimLeft(a, s)| <= |s| && TrimLeft(a, s) == s[|s| - |TrimLeft(a, s)|..]
    ensures forall m :: 0 <= m < |s| - |TrimLeft(a, s)| ==> a.space(s[m])
  {
    if |s| > 0 && a.space(s[0]) {
      TrimLeftSuffix(a, s[1..]);
      assert forall m :: 0 < m < |s| ==> s[m] == s[1..][m - 1];
    }
  }

  /** What is trimmed off is white space, and what is left neither begins nor ends with it. */
  lemma TrimExact(a: Alphabet, s: string) returns (i: nat, j: nat)
    ensures i <= j <= |s| && Trim(a, s) == s[i..j]
    ensures forall m :: 0 <= m < i || j <= m < |s| ==> a.space(s[m])
    ensures i < j ==> !a.space(s[i]) && !a.space(s[j - 1])
  {
    hide TrimLeft, TrimRight;
    var left := TrimLeft(a, s);
    TrimLeftSuffix(a, s);
    TrimLeftFirst(a, s);
    TrimRightPrefix(a, left);
    i := |s| - |left|;
    j := i + |TrimRight(a, left)|;
    assert forall m :: 0 <= m < |left| ==> left[m] == s[i + m];
    assert forall m :: j <= m < |s| ==> s[m] == left[m - i];
  }
}
