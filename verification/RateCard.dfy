/** Matching an estimate line against a rate card (src/estimator/rateCard.ts): by id, otherwise by
    the keywords of the lines in scope. */
module RateCard {
  import opened Sequences
  import opened Text

  datatype Line = Line(costCode: string, scopeTag: string, uom: string, keywords: seq<string>)

  datatype Match = ByLineId(line: Line) | ByKeyword(line: Line)

  // ---------------------------------------------------------------- normalised text

  predicate IsWordChar(c: char) { 'a' <= c <= 'z' || '0' <= c <= '9' }

  predicate Outside(c: char) { !IsWordChar(c) }

  function NormalizeText(value: string): string { Trim(Collapse(Collapse(Lower(value), Outside), IsSpace)) }

  function NormalizeId(value: Option<string>): string { if value.Some? then Upper(Trim(value.value)) else "" }

  function NormalizeToken(value: string): string { Upper(Trim(value)) }

  predicate IsWord(w: string) { w != "" && forall c :: c in w ==> IsWordChar(c) }

  ghost predicate AllWords(ws: seq<string>) { forall w :: w in ws ==> IsWord(w) }

  /** The maximal runs of word characters in a text. */
  function Words(t: string): (r: seq<string>)
    ensures t != "" && IsWordChar(t[0]) ==> r != []
  {
    if t == "" then []
    else if !IsWordChar(t[0]) then Words(t[1..])
    else if |t| > 1 && IsWordChar(t[1]) then [[t[0]] + Words(t[1..])[0]] + Words(t[1..])[1..]
    else [[t[0]]] + Words(t[1..])
  }

  function WordsIn(value: string): seq<string> { Words(Lower(value)) }

  function Spaced(ws: seq<string>): string { if ws == [] then "" else Join(ws, ' ') }

  lemma {:induction false} WordsAreWords(t: string)
    ensures AllWords(Words(t))
  {
    if t != "" {
      WordsAreWords(t[1..]);
      if IsWordChar(t[0]) && |t| > 1 && IsWordChar(t[1]) {
        assert Words(t[1..])[0] in Words(t[1..]);
      }
    }
  }

  lemma JoinStartsAndEnds(ws: seq<string>)
    requires ws != [] && AllWords(ws)
    ensures var j := Join(ws, ' '); j != "" && IsWordChar(j[0]) && IsWordChar(j[|j| - 1])
  {
    assert ws[0] in ws && ws[0][0] in ws[0] && ws[0][|ws[0]| - 1] in ws[0];
    if |ws| > 1 {
      assert forall w :: w in ws[1..] ==> w in ws;
      JoinStartsAndEnds(ws[1..]);
    }
  }

  predicate Starts(t: string) { t != "" && !IsWordChar(t[0]) }

  predicate Ends(t: string) { t != "" && !IsWordChar(t[|t| - 1]) }

  function Pad(b: bool): string { if b then " " else "" }

  /** The words of a text one space apart, with at most one space around them. */
  function Shape(t: string): string { if t == "" then "" else Frame(Words(t), Starts(t), Ends(t)) }

  function Frame(ws: seq<string>, starts: bool, ends: bool): string {
    if ws == [] then " " else Pad(starts) + Join(ws, ' ') + Pad(ends)
  }

  /** What the first `replace` leaves. */
  lemma {:induction false} CollapseShape(t: string)
    ensures Collapse(t, Outside) == Shape(t)
    ensures Words(t) == [] && t != "" ==> Ends(t)
  {
    if |t| > 1 {
      CollapseShape(t[1..]);
      assert t == [t[0]] + t[1..];
      if IsWordChar(t[0]) {
        ShapeAfterWordChar(t[0], t[1..]);
      } else {
        ShapeAfterOther(t[0], t[1..]);
      }
    } else if |t| == 1 {
      assert t[1..] == "" && Words(t[1..]) == [] && t == [t[0]];
    }
  }

  lemma ShapeAfterOther(c: char, rest: string)
    requires !IsWordChar(c) && rest != ""
    ensures Shape([c] + rest) == if IsWordChar(rest[0]) then " " + Shape(rest) else Shape(rest)
  {
    assert ([c] + rest)[1..] == rest && Words([c] + rest) == Words(rest);
    FrameAfterOther(Words(rest), Starts(rest), Ends(rest));
  }

  lemma FrameAfterOther(ws: seq<string>, starts: bool, ends: bool)
    requires ws == [] ==> starts
    ensures Frame(ws, true, ends) == if starts then Frame(ws, true, ends) else " " + Frame(ws, false, ends)
  {
    if ws != [] {
      var j := Join(ws, ' ');
      assert " " + j + Pad(ends) == " " + ("" + j + Pad(ends));
    }
  }

  lemma ShapeAfterWordChar(c: char, rest: string)
    requires IsWordChar(c) && rest != "" && (Words(rest) == [] ==> Ends(rest))
    ensures Shape([c] + rest) == [c] + Shape(rest)
  {
    WordsAfterWordChar(c, rest);
    FrameAfterWordChar(c, Words(rest), Words([c] + rest), Starts(rest), Ends(rest));
  }

  lemma FrameAfterWordChar(c: char, ws: seq<string>, longer: seq<string>, starts: bool, ends: bool)
    requires ws == [] ==> starts && ends
    requires longer != []
    requires Join(longer, ' ') == if ws == [] then [c] else if starts then [c] + [' '] + Join(ws, ' ') else [c] + Join(ws, ' ')
    ensures Frame(longer, false, ends) == [c] + Frame(ws, starts, ends)
  {
    var j := if ws == [] then "" else Join(ws, ' ');
    assert "" + ([c] + [' '] + j) + Pad(ends) == [c] + (" " + j + Pad(ends));
    assert "" + ([c] + j) + Pad(ends) == [c] + ("" + j + Pad(ends));
    assert "" + [c] + " " == [c] + " ";
  }

  lemma WordsAfterWordChar(c: char, rest: string)
    requires IsWordChar(c) && rest != ""
    ensures var ws := Words([c] + rest);
      && ws != []
      && Join(ws, ' ') == if Words(rest) == [] then [c]
                          else if IsWordChar(rest[0]) then [c] + Join(Words(rest), ' ')
                          else [c] + [' '] + Join(Words(rest), ' ')
  {
    var t := [c] + rest;
    assert t[1..] == rest && t[1] == rest[0];
    if Words(rest) == [] {
      assert Words(t) == [[c]];
    } else if IsWordChar(rest[0]) {
      JoinCons(c, Words(rest));
    } else {
      assert Words(t)[0] == [c] && Words(t)[1..] == Words(rest);
    }
  }

  lemma JoinCons(c: char, ws: seq<string>)
    requires ws != []
    ensures Join([[c] + ws[0]] + ws[1..], ' ') == [c] + Join(ws, ' ')
  {
    assert ([[c] + ws[0]] + ws[1..])[1..] == ws[1..];
  }

  /** No two adjacent characters are white space, and the only white space is the space. */
  predicate SingleSpaced(s: string) {
    s == "" || ((IsSpace(s[0]) ==> s[0] == ' ' && (|s| > 1 ==> !IsSpace(s[1]))) && SingleSpaced(s[1..]))
  }

  lemma {:induction false} CollapseIsSingleSpaced(t: string)
    ensures SingleSpaced(Collapse(t, Outside))
    ensures t != "" ==> Collapse(t, Outside) != "" && Collapse(t, Outside)[0] == if IsWordChar(t[0]) then t[0] else ' '
  {
    if t != "" {
      CollapseIsSingleSpaced(t[1..]);
      assert forall c: char :: ([c] + Collapse(t[1..], Outside))[1..] == Collapse(t[1..], Outside);
    }
  }

  /** On such a text the second `replace` is redundant. */
  lemma {:induction false} SecondReplaceIsRedundant(s: string)
    requires SingleSpaced(s)
    ensures Collapse(s, IsSpace) == s
  {
    if s != "" {
      SecondReplaceIsRedundant(s[1..]);
      assert s == [s[0]] + s[1..];
    }
  }

  lemma TrimAfter(s: string, after: bool)
    requires s != "" && !IsSpace(s[0]) && !IsSpace(s[|s| - 1])
    ensures Trim(s + Pad(after)) == s
  {
    var t := s + Pad(after);
    if after {
      assert t[..|t| - 1] == s && t[|t| - 1] == ' ' && t[0] == s[0];
    } else {
      assert t == s;
    }
  }

  lemma TrimBefore(before: bool, t: string)
    ensures Trim(Pad(before) + t) == Trim(t)
  {
    if before {
      assert (" " + t)[1..] == t;
    } else {
      assert "" + t == t;
    }
  }

  lemma TrimPadded(s: string, before: bool, after: bool)
    requires s != "" && !IsSpace(s[0]) && !IsSpace(s[|s| - 1])
    ensures Trim(Pad(before) + s + Pad(after)) == s
  {
    TrimAfter(s, after);
    TrimBefore(before, s + Pad(after));
    assert Pad(before) + s + Pad(after) == Pad(before) + (s + Pad(after));
  }

  /** The normalised text is the words of the text, one space apart. */
  lemma NormalizedIsWords(value: string)
    ensures NormalizeText(value) == Spaced(WordsIn(value))
    ensures AllWords(WordsIn(value))
    ensures NormalizeText(value) == Trim(Collapse(Lower(value), Outside))
  {
    var t := Lower(value);
    CollapseIsSingleSpaced(t);
    SecondReplaceIsRedundant(Collapse(t, Outside));
    CollapseShape(t);
    WordsAreWords(t);
    TrimShape(t);
  }

  lemma TrimShape(t: string)
    ensures Trim(Shape(t)) == Spaced(Words(t))
  {
    WordsAreWords(t);
    if Words(t) == [] {
      TrimBlank(Shape(t));
    } else {
      JoinStartsAndEnds(Words(t));
      TrimPadded(Join(Words(t), ' '), Starts(t), Ends(t));
    }
  }

  /** A character outside words separates the words before it from the words after it. */
  lemma {:induction false} WordsAt(a: string, c: char, b: string)
    requires !IsWordChar(c)
    ensures Words(a + [c] + b) == Words(a) + Words(b)
  {
    if a == "" {
      assert (a + [c] + b)[1..] == b;
    } else {
      var t := a + [c] + b;
      assert t[0] == a[0] && t[1..] == a[1..] + [c] + b;
      WordsAt(a[1..], c, b);
      if |a| > 1 {
        assert t[1] == a[1];
      }
    }
  }

  lemma {:induction false} WordsOfWord(w: string)
    requires IsWord(w)
    ensures Words(w) == [w]
  {
    assert w[0] in w;
    if |w| > 1 {
      assert w[1] in w;
      WordsOfWord(w[1..]);
      assert w == [w[0]] + w[1..];
    } else {
      assert w == [w[0]];
    }
  }

  lemma {:induction false} WordsOfSpaced(ws: seq<string>)
    requires AllWords(ws)
    ensures Words(Spaced(ws)) == ws
  {
    if ws != [] {
      assert ws[0] in ws;
      WordsOfWord(ws[0]);
      if |ws| > 1 {
        WordsOfSpaced(ws[1..]);
        WordsAt(ws[0], ' ', Join(ws[1..], ' '));
      }
      assert ws == [ws[0]] + ws[1..];
    }
  }

  lemma {:induction false} SpacedIsLower(ws: seq<string>)
    requires AllWords(ws)
    ensures Lower(Spaced(ws)) == Spaced(ws)
  {
    if ws != [] {
      assert forall c :: c in ws[0] ==> LowerChar(c) == c by {
        assert ws[0] in ws;
      }
      if |ws| > 1 {
        SpacedIsLower(ws[1..]);
        LowerConcat(ws[0] + [' '], Join(ws[1..], ' '));
      }
    }
  }

  lemma LowerConcat(a: string, b: string)
    ensures Lower(a + b) == Lower(a) + Lower(b)
  {
  }

  lemma NormalizeIsIdempotent(value: string)
    ensures NormalizeText(NormalizeText(value)) == NormalizeText(value)
  {
    NormalizedIsWords(value);
    SpacedIsLower(WordsIn(value));
    WordsOfSpaced(WordsIn(value));
    NormalizedIsWords(NormalizeText(value));
  }

  /** Normalising distributes over joining texts by a space. */
  lemma NormalizeDistributes(a: string, b: string)
    ensures WordsIn(a + [' '] + b) == WordsIn(a) + WordsIn(b)
    ensures NormalizeText(a + [' '] + b) == Spaced(WordsIn(a) + WordsIn(b))
  {
    LowerConcat(a + [' '], b);
    LowerConcat(a, [' ']);
    assert Lower([' ']) == [' '];
    WordsAt(Lower(a), ' ', Lower(b));
    NormalizedIsWords(a + [' '] + b);
  }

  // ---------------------------------------------------------------- the keyword score

  predicate NotBlank(s: string) { s != "" }

  function TokensOf(description: string): set<string> { set t | t in Filter(Split(description, ' '), NotBlank) }

  function Singularize(value: string): string {
    if value != "" && value[|value| - 1] == 's' && |value| > 3 then value[..|value| - 1] else value
  }

  predicate Hits(tokens: set<string>, token: string) { token in tokens || Singularize(token) in tokens || token + "s" in tokens }

  /** What one keyword adds: the number of its words when the description contains it, one when
      only some word of it does, up to a plural. */
  function KeywordScore(description: string, keyword: string): nat {
    var normalized := NormalizeText(keyword);
    if normalized == "" then 0
    else if Includes(description, normalized) then |Split(normalized, ' ')|
    else if exists t :: t in Split(normalized, ' ') && Hits(TokensOf(description), t) then 1
    else 0
  }

  function Score(description: string, keywords: seq<string>): nat {
    if keywords == [] then 0 else KeywordScore(description, keywords[0]) + Score(description, keywords[1..])
  }

  method ScoreKeywords(description: string, keywords: seq<string>) returns (score: nat)
    ensures score == Score(description, keywords)
  {
    score := 0;
    var descriptionTokens := TokensOf(description);
    for i := 0 to |keywords|
      invariant score + Score(description, keywords[i..]) == Score(description, keywords)
    {
      assert keywords[i..][0] == keywords[i] && keywords[i..][1..] == keywords[i + 1..];
      var normalized := NormalizeText(keywords[i]);
      if normalized == "" {
        continue;
      }
      if Includes(description, normalized) {
        score := score + |Split(normalized, ' ')|;
        continue;
      }
      var tokenHit := exists t :: t in Split(normalized, ' ') && Hits(descriptionTokens, t);
      if tokenHit {
        score := score + 1;
      }
    }
  }

  /** The tokens of a normalised description are its words. */
  lemma TokensAreWords(ws: seq<string>)
    requires AllWords(ws)
    ensures TokensOf(Spaced(ws)) == set w | w in ws
  {
    if ws != [] {
      forall w | w in ws ensures ' ' !in w && NotBlank(w) {
        assert IsWord(w);
      }
      SplitJoin(ws, ' ');
      FilterAll(ws, NotBlank);
    }
  }

  lemma {:induction false} IncludesExtends(a: string, s: string, b: string, part: string)
    requires Includes(s, part)
    ensures Includes(a + s + b, part)
  {
    IncludesMeans(s, part);
    IncludesMeans(a + s + b, part);
    var i :| 0 <= i <= |s| && part <= s[i..];
    assert (a + s + b)[|a| + i..] == s[i..] + b;
    assert part <= (a + s + b)[|a| + i..];
  }

  /** The joined words of a part are a piece of the joined words of the whole. */
  lemma {:induction false} SpacedConcat(u: seq<string>, v: seq<string>) returns (gap: string)
    ensures Spaced(u + v) == Spaced(u) + gap + Spaced(v)
  {
    if u == [] {
      gap := "";
      assert u + v == v;
    } else if v == [] {
      gap := "";
      assert u + v == u;
    } else {
      gap := " ";
      JoinConcat(u, v);
    }
  }

  lemma {:induction false} JoinConcat(u: seq<string>, v: seq<string>)
    requires u != [] && v != []
    ensures Join(u + v, ' ') == Join(u, ' ') + [' '] + Join(v, ' ')
  {
    assert (u + v)[0] == u[0] && (u + v)[1..] == u[1..] + v;
    if |u| == 1 {
      assert u[1..] + v == v;
    } else {
      JoinConcat(u[1..], v);
    }
  }

  lemma ExtendedDescription(before: string, description: string, after: string)
    returns (left: string, right: string)
    ensures NormalizeText(before + [' '] + description + [' '] + after) == left + NormalizeText(description) + right
    ensures TokensOf(NormalizeText(description)) <= TokensOf(NormalizeText(before + [' '] + description + [' '] + after))
  {
    var u, v, w := WordsIn(before), WordsIn(description), WordsIn(after);
    NormalizeDistributes(before, description);
    NormalizeDistributes(before + [' '] + description, after);
    NormalizedIsWords(description);
    WordsAreWords(Lower(before));
    WordsAreWords(Lower(after));
    var gap1 := SpacedConcat(u, v);
    var gap2 := SpacedConcat(u + v, w);
    left, right := Spaced(u) + gap1, gap2 + Spaced(w);
    assert Spaced(u + v + w) == left + Spaced(v) + right;
    TokensAreWords(v);
    TokensAreWords(u + v + w);
  }

  lemma KeywordScoreExtends(small: string, left: string, right: string, keyword: string)
    requires TokensOf(small) <= TokensOf(left + small + right)
    ensures KeywordScore(small, keyword) <= KeywordScore(left + small + right, keyword)
  {
    var normalized := NormalizeText(keyword);
    if Includes(small, normalized) {
      IncludesExtends(left, small, right, normalized);
    }
  }

  lemma {:induction false} ScoreExtends(small: string, left: string, right: string, keywords: seq<string>)
    requires TokensOf(small) <= TokensOf(left + small + right)
    ensures Score(small, keywords) <= Score(left + small + right, keywords)
  {
    if keywords != [] {
      KeywordScoreExtends(small, left, right, keywords[0]);
      ScoreExtends(small, left, right, keywords[1..]);
    }
  }

  /** Writing more words around a description never lowers the score of a line. */
  lemma ScoreNeverDrops(before: string, description: string, after: string, keywords: seq<string>)
    ensures Score(NormalizeText(description), keywords)
      <= Score(NormalizeText(before + [' '] + description + [' '] + after), keywords)
  {
    var left, right := ExtendedDescription(before, description, after);
    ScoreExtends(NormalizeText(description), left, right, keywords);
  }

  // ---------------------------------------------------------------- the match

  function HasId(id: string): Line -> bool { (l: Line) => NormalizeId(Some(l.costCode)) == id }

  function InScope(scopeTag: string, uom: string): Line -> bool {
    (l: Line) => l.scopeTag == scopeTag && NormalizeToken(l.uom) == NormalizeToken(uom)
  }

  /** How the lines in scope are scored against a description. */
  function LineScore(description: string): Line -> nat { (l: Line) => Score(description, l.keywords) }

  /** The better of two candidates, the earlier one on ties. */
  function Better(score: Line -> nat, a: Option<Line>, b: Option<Line>): Option<Line> {
    if a.None? then b
    else if b.None? || score(a.value) >= score(b.value) then a
    else b
  }

  function Candidate(score: Line -> nat, l: Line): Option<Line> { if score(l) > 0 then Some(l) else None }

  function Best(score: Line -> nat, lines: seq<Line>): Option<Line> {
    if lines == [] then None else Better(score, Candidate(score, lines[0]), Best(score, lines[1..]))
  }

  function MatchOf(rates: seq<Line>, lineId: Option<string>, scopeTag: string, uom: string, description: string): Option<Match> {
    var exact := if NormalizeId(lineId) == "" then None else Find(rates, HasId(NormalizeId(lineId)));
    if exact.Some? then Some(ByLineId(exact.value))
    else
      var best := Best(LineScore(NormalizeText(description)), Filter(rates, InScope(scopeTag, uom)));
      if best.Some? then Some(ByKeyword(best.value)) else None
  }

  /** One step of the search keeps what the rest of the list can still win against. */
  lemma BetterAssociates(score: Line -> nat, a: Option<Line>, b: Option<Line>, c: Option<Line>)
    ensures Better(score, Better(score, a, b), c) == Better(score, a, Better(score, b, c))
  {
  }

  method MatchTenantRateCardLineDetailed(rates: seq<Line>, lineId: Option<string>, scopeTag: string, uom: string, description0: string)
    returns (r: Option<Match>)
    ensures r == MatchOf(rates, lineId, scopeTag, uom, description0)
  {
    var exactId := NormalizeId(lineId);
    if exactId != "" {
      var exact := Find(rates, HasId(exactId));
      if exact.Some? {
        return Some(ByLineId(exact.value));
      }
    }
    var description := NormalizeText(description0);
    var scoped := Filter(rates, InScope(scopeTag, uom));
    if |scoped| == 0 {
      return None;
    }
    var best := BestInScope(scoped, description);
    r := if best.Some? then Some(ByKeyword(best.value)) else None;
  }

  /** The search for the best line in scope. */
  method BestInScope(scoped: seq<Line>, description: string) returns (best: Option<Line>)
    ensures best == Best(LineScore(description), scoped)
  {
    best := None;
    var bestScore := 0;
    ghost var scoreOf := LineScore(description);
    for i := 0 to |scoped|
      invariant best.Some? ==> bestScore == scoreOf(best.value)
      invariant Better(scoreOf, best, Best(scoreOf, scoped[i..])) == Best(scoreOf, scoped)
    {
      assert scoped[i..][0] == scoped[i] && scoped[i..][1..] == scoped[i + 1..];
      var score := ScoreKeywords(description, scoped[i].keywords);
      BetterAssociates(scoreOf, best, Candidate(scoreOf, scoped[i]), Best(scoreOf, scoped[i + 1..]));
      if score <= 0 {
        continue;
      }
      if best.None? || score > bestScore {
        best, bestScore := Some(scoped[i]), score;
      }
    }
  }

  /** The keyword match is the earliest line of maximal positive score; there is none exactly when
      no line scores. */
  lemma {:induction false} BestIsEarliestMaximal(score: Line -> nat, lines: seq<Line>) returns (k: nat)
    ensures Best(score, lines).None? ==> k == |lines| && forall j :: 0 <= j < |lines| ==> score(lines[j]) == 0
    ensures Best(score, lines).Some? ==>
      && k < |lines| && Best(score, lines).value == lines[k] && score(lines[k]) > 0
      && (forall j :: 0 <= j < |lines| ==> score(lines[j]) <= score(lines[k]))
      && (forall j :: 0 <= j < k ==> score(lines[j]) < score(lines[k]))
  {
    k := 0;
    if lines != [] {
      var t := BestIsEarliestMaximal(score, lines[1..]);
      assert forall j :: 1 <= j < |lines| ==> lines[j] == lines[1..][j - 1];
      if t + 1 == |lines| {
        k := if score(lines[0]) > 0 then 0 else |lines|;
      } else if score(lines[t + 1]) > score(lines[0]) {
        k := t + 1;
      }
    }
  }

  /** The match is by id exactly when an id is given, up to case and surrounding white space, and
      some line has it; it is then the earliest such line, whatever its scope, unit and keywords. */
  lemma ExactIdWins(rates: seq<Line>, lineId: Option<string>, scopeTag: string, uom: string, description: string)
    returns (k: nat)
    ensures var m, id := MatchOf(rates, lineId, scopeTag, uom, description), NormalizeId(lineId);
      && ((m.Some? && m.value.ByLineId?) <==> id != "" && exists l :: l in rates && HasId(id)(l))
      && (m.Some? && m.value.ByLineId? ==>
            && k < |rates| && m.value.line == rates[k] && HasId(id)(rates[k])
            && forall j :: 0 <= j < k ==> !HasId(id)(rates[j]))
  {
    var want := HasId(NormalizeId(lineId));
    k := FindIsEarliest(rates, want);
    assert Find(rates, want).Some? <==> exists l :: l in rates && want(l);
  }

  /** A keyword match is never lost by writing more words around the description, and the line
      then matched scores at least as much as the one matched before. */
  lemma MatchSurvivesMoreWords(rates: seq<Line>, lineId: Option<string>, scopeTag: string, uom: string,
                               before: string, description: string, after: string)
    requires MatchOf(rates, lineId, scopeTag, uom, description).Some?
    ensures var longer := before + [' '] + description + [' '] + after;
      var m, n := MatchOf(rates, lineId, scopeTag, uom, description).value, MatchOf(rates, lineId, scopeTag, uom, longer);
      && n.Some? && n.value.ByLineId? == m.ByLineId?
      && (m.ByLineId? ==> n.value == m)
      && (m.ByKeyword? ==>
            Score(NormalizeText(description), m.line.keywords) <= Score(NormalizeText(longer), n.value.line.keywords))
  {
    var longer := before + [' '] + description + [' '] + after;
    var scoped := Filter(rates, InScope(scopeTag, uom));
    var k := BestIsEarliestMaximal(LineScore(NormalizeText(description)), scoped);
    var j := BestIsEarliestMaximal(LineScore(NormalizeText(longer)), scoped);
    if k < |scoped| {
      ScoreNeverDrops(before, description, after, scoped[k].keywords);
    }
  }

  /** Case and punctuation of the description do not matter, only its words. */
  lemma MatchSeesWordsOnly(rates: seq<Line>, lineId: Option<string>, scopeTag: string, uom: string, d1: string, d2: string)
    requires WordsIn(d1) == WordsIn(d2)
    ensures MatchOf(rates, lineId, scopeTag, uom, d1) == MatchOf(rates, lineId, scopeTag, uom, d2)
  {
    NormalizedIsWords(d1);
    NormalizedIsWords(d2);
  }

  // ---------------------------------------------------------------- what a keyword and a scope are

  /** The part stands somewhere in the text. */
  predicate StandsIn(part: string, text: string) { exists i :: 0 <= i <= |text| && part <= text[i..] }

  /** A word of the description is the word of the keyword, or one is the plural of the other; no
      singular is made of a word of three letters. */
  predicate SameWord(word: string, token: string) { token == word || token == word + "s" || (word == token + "s" && |word| > 3) }

  lemma HitsIff(tokens: set<string>, word: string)
    requires word != ""
    ensures Hits(tokens, word) <==> exists t :: t in tokens && SameWord(word, t)
  {
    var one := Singularize(word);
    if word[|word| - 1] == 's' && |word| > 3 {
      assert word == one + "s";
      assert SameWord(word, one);
    }
    assert SameWord(word, word) && SameWord(word, word + "s");
    if t :| t in tokens && SameWord(word, t) {
      if word == t + "s" && |word| > 3 {
        assert one == t;
      }
    }
  }

  /** What a keyword scores: nothing without words, all its words when the description holds them
      side by side, and otherwise one when the description holds some word of it or its plural. */
  lemma KeywordScoreMeans(description: string, keyword: string)
    ensures var ws := WordsIn(keyword);
      var some := exists w, t :: w in ws && t in TokensOf(description) && SameWord(w, t);
      KeywordScore(description, keyword) ==
        if |ws| == 0 then 0 else if StandsIn(Spaced(ws), description) then |ws| else if some then 1 else 0
  {
    var ws := WordsIn(keyword);
    NormalizedIsWords(keyword);
    if ws != [] {
      JoinStartsAndEnds(ws);
      forall w | w in ws ensures ' ' !in w && w != "" {
        assert IsWord(w);
      }
      SplitJoin(ws, ' ');
      IncludesMeans(description, Spaced(ws));
      forall w | w in ws ensures Hits(TokensOf(description), w) <==> exists t :: t in TokensOf(description) && SameWord(w, t) {
        HitsIff(TokensOf(description), w);
      }
    }
  }

  /** Every keyword adds its own score. */
  lemma {:induction false} ScoreAdds(description: string, a: seq<string>, b: seq<string>)
    ensures Score(description, a + b) == Score(description, a) + Score(description, b)
    ensures forall k :: Score(description, [k]) == KeywordScore(description, k)
  {
    forall k ensures Score(description, [k]) == KeywordScore(description, k) {
      assert [k][1..] == [];
    }
    if a == [] {
      assert a + b == b;
    } else {
      assert (a + b)[0] == a[0] && (a + b)[1..] == a[1..] + b;
      ScoreAdds(description, a[1..], b);
    }
  }

  predicate LetterOrDigit(c: char) { c in "abcdefghijklmnopqrstuvwxyz0123456789" }

  lemma LetterOrDigitIff(c: char)
    ensures IsWordChar(c) <==> LetterOrDigit(c)
  {
  }

  /** Normalised text holds the letters and digits of the text in lower case, and beside them
      only spaces. */
  lemma NormalizedCharacters(value: string, c: char)
    ensures c in NormalizeText(value) ==> c == ' ' || LetterOrDigit(c)
    ensures LetterOrDigit(c) ==> (c in NormalizeText(value) <==> c in Lower(value))
  {
    LetterOrDigitIff(c);
    NormalizedIsWords(value);
    SpacedCharacters(WordsIn(value), c);
    if IsWordChar(c) {
      WordCharacters(Lower(value), c);
    }
  }

  lemma {:induction false} SpacedCharacters(ws: seq<string>, c: char)
    requires AllWords(ws)
    ensures c in Spaced(ws) ==> c == ' ' || IsWordChar(c)
    ensures IsWordChar(c) ==> (c in Spaced(ws) <==> exists w :: w in ws && c in w)
  {
    if ws != [] {
      assert ws[0] in ws;
      assert ws == [ws[0]] + ws[1..];
      SpacedCharacters(ws[1..], c);
    }
  }

  lemma {:induction false} WordCharacters(t: string, c: char)
    requires IsWordChar(c)
    ensures c in t <==> exists w :: w in Words(t) && c in w
  {
    if t != "" {
      WordCharacters(t[1..], c);
      assert t == [t[0]] + t[1..];
      var rest := Words(t[1..]);
      if IsWordChar(t[0]) {
        if |t| > 1 && IsWordChar(t[1]) {
          assert rest == [rest[0]] + rest[1..];
        }
        assert Words(t)[0] in Words(t);
      }
    }
  }

  /** The match is by keyword exactly when no line of the id is found and some line in scope
      scores; it is then the earliest line in scope among those that score most. */
  lemma KeywordMatchMeans(rates: seq<Line>, lineId: Option<string>, scopeTag: string, uom: string, description: string)
    returns (k: nat)
    requires NormalizeId(lineId) == "" || forall l :: l in rates ==> !HasId(NormalizeId(lineId))(l)
    ensures var m := MatchOf(rates, lineId, scopeTag, uom, description);
      var points := LineScore(NormalizeText(description));
      var scoped := Filter(rates, InScope(scopeTag, uom));
      if m.None? then forall l :: l in rates && InScope(scopeTag, uom)(l) ==> points(l) == 0
      else (
        && k < |scoped| && m == Some(ByKeyword(scoped[k])) && points(scoped[k]) > 0
        && (forall j :: 0 <= j < |scoped| ==> points(scoped[j]) <= points(scoped[k]))
        && (forall j :: 0 <= j < k ==> points(scoped[j]) < points(scoped[k])))
  {
    var points, scoped := LineScore(NormalizeText(description)), Filter(rates, InScope(scopeTag, uom));
    k := BestIsEarliestMaximal(points, scoped);
    var j := ExactIdWins(rates, lineId, scopeTag, uom, description);
    if Best(points, scoped).None? {
      forall l | l in rates && InScope(scopeTag, uom)(l) ensures points(l) == 0 {
        var i :| 0 <= i < |scoped| && scoped[i] == l;
      }
    }
  }

  /** A line is in scope exactly when it is of the scope and its unit is the asked one, up to case
      and surrounding white space. */
  lemma ScopeMeans(l: Line, scopeTag: string, uom: string)
    ensures InScope(scopeTag, uom)(l) <==> l.scopeTag == scopeTag && SameToken(l.uom, uom)
  {
    assert Upper(Trim(l.uom)) == Upper(Trim(uom)) <==> SameToken(l.uom, uom) by { SameTokenIff(l.uom, uom); }
  }

  /** Letter by letter the same up to case, without the white space around. */
  predicate SameToken(a: string, b: string) {
    var x, y := Trim(a), Trim(b);
    |x| == |y| && forall i :: 0 <= i < |x| ==> UpperChar(x[i]) == UpperChar(y[i])
  }

  lemma SameTokenIff(a: string, b: string)
    ensures Upper(Trim(a)) == Upper(Trim(b)) <==> SameToken(a, b)
  {
    var x, y := Trim(a), Trim(b);
    if Upper(x) == Upper(y) {
      assert forall i :: 0 <= i < |x| ==> Upper(x)[i] == Upper(y)[i];
    }
  }

  /** A line has an id exactly when the two are the same up to case and surrounding white space. */
  lemma IdMeans(l: Line, id: string)
    ensures HasId(NormalizeId(Some(id)))(l) <==> SameToken(l.costCode, id)
    ensures NormalizeId(None) == "" && (NormalizeId(Some(id)) == "" <==> forall c :: c in id ==> IsSpace(c))
  {
    SameTokenIff(l.costCode, id);
    TrimBlank(id);
  }
}
