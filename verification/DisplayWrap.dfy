/** Wrapping a message to a display width: character widths, tokens, hard wrapping of tokens that
    are too wide, and filling lines with tokens. */
module DisplayWrap {
  import opened Options

  /** A character with the properties the Unicode database gives it; `letter` is general category
      L or N, `wide` is East Asian width F or W. */
  datatype Ch = Ch(code: nat, space: bool, combining: bool, wide: bool, letter: bool)

  type Text = seq<Ch>

  datatype Kind = Space | Ascii | Cjk | Punctuation

  function KindOf(c: Ch): Kind {
    if c.space then Space
    else if c.code < 128 then Ascii
    else if c.wide && c.letter then Cjk
    else Punctuation
  }

  // ----- Widths -----

  function CharWidth(c: Ch): nat {
    if c.combining then 0 else if c.wide then 2 else 1
  }

  function Width(s: Text): nat {
    if s == [] then 0 else Width(s[..|s| - 1]) + CharWidth(s[|s| - 1])
  }

  lemma {:induction false} WidthJoin(a: Text, b: Text)
    ensures Width(a + b) == Width(a) + Width(b)
    decreases |b|
  {
    if b == [] {
      assert a + b == a;
    } else {
      WidthJoin(a, b[..|b| - 1]);
      assert (a + b)[..|a + b| - 1] == a + b[..|b| - 1];
    }
  }

  lemma WidthOne(c: Ch)
    ensures Width([c]) == CharWidth(c)
  {
    assert [c][..0] == [];
  }

  /** No character is wider than the text it stands in. */
  lemma WidthOfMember(s: Text, c: Ch)
    requires c in s
    ensures CharWidth(c) <= Width(s)
  {
    var i :| 0 <= i < |s| && s[i] == c;
    WidthJoin(s[..i], [c]);
    WidthJoin(s[..i + 1], s[i + 1..]);
    WidthOne(c);
    assert s[..i] + [c] == s[..i + 1] && s[..i + 1] + s[i + 1..] == s;
  }

  /** One column for every character that does not combine with the one before, and one more for
      every such character that is wide. */
  lemma {:induction false} WidthCounts(s: Text)
    ensures Width(s) == |Spacing(s)| + |Spacing(Wide(s))|
  {
    if s != [] {
      WidthCounts(s[..|s| - 1]);
      var last := s[|s| - 1];
      if last.wide {
        SpacingMore(Wide(s[..|s| - 1]), last);
      } else {
        assert Wide(s) == Wide(s[..|s| - 1]);
      }
    }
  }

  function Spacing(s: Text): Text {
    if s == [] then [] else Spacing(s[..|s| - 1]) + if s[|s| - 1].combining then [] else [s[|s| - 1]]
  }

  function Wide(s: Text): Text {
    if s == [] then [] else Wide(s[..|s| - 1]) + if s[|s| - 1].wide then [s[|s| - 1]] else []
  }

  lemma SpacingMore(s: Text, c: Ch)
    ensures Spacing(s + [c]) == Spacing(s) + if c.combining then [] else [c]
  {
    assert (s + [c])[..|s|] == s;
  }

  method DisplayWidth(value: Text) returns (width: nat)
    ensures width == Width(value)
  {
    width := 0;
    for i := 0 to |value|
      invariant width == Width(value[..i])
    {
      assert value[..i + 1][..i] == value[..i];
      if value[i].combining {
        continue;
      }
      width := width + if value[i].wide then 2 else 1;
    }
    assert value[..|value|] == value;
  }

  // ----- White space -----

  predicate Blank(s: Text) {
    forall i :: 0 <= i < |s| ==> s[i].space
  }

  predicate NoSpace(s: Text) {
    forall i :: 0 <= i < |s| ==> !s[i].space
  }

  function RStrip(s: Text): (r: Text)
    ensures r <= s && Blank(s[|r|..]) && forall i :: |r| <= i < |s| ==> s[i].space
    ensures r != [] ==> !r[|r| - 1].space
  {
    if s != [] && s[|s| - 1].space then RStrip(s[..|s| - 1]) else s
  }

  lemma StripNarrows(s: Text)
    ensures Width(RStrip(s)) <= Width(s)
  {
    WidthJoin(RStrip(s), s[|RStrip(s)|..]);
    assert RStrip(s) + s[|RStrip(s)|..] == s;
  }

  // ----- Lines laid out over a text -----

  function Flat(pieces: seq<Text>): Text {
    if pieces == [] then [] else Flat(pieces[..|pieces| - 1]) + pieces[|pieces| - 1]
  }

  /** The lines with the gap before each. */
  function Laid(gaps: seq<Text>, lines: seq<Text>): Text
    requires |gaps| == |lines|
  {
    if lines == [] then []
    else Laid(gaps[..|gaps| - 1], lines[..|lines| - 1]) + gaps[|gaps| - 1] + lines[|lines| - 1]
  }

  /** Finished lines, the gap before each, and the gap before the line being filled. */
  datatype Page = Page(gaps: seq<Text>, lines: seq<Text>, gap: Text, current: Text)

  /** The lines are consecutive pieces of the text, and only white space is left out. */
  ghost predicate Covers(p: Page, text: Text) {
    && |p.gaps| == |p.lines|
    && (forall i :: 0 <= i < |p.gaps| ==> Blank(p.gaps[i]))
    && Blank(p.gap)
    && text == Laid(p.gaps, p.lines) + p.gap + p.current
  }

  function Grow(p: Page, t: Text): Page {
    p.(current := p.current + t)
  }

  function Skip(p: Page, t: Text): Page {
    p.(gap := p.gap + t)
  }

  function Break(p: Page): Page {
    Page(p.gaps + [p.gap], p.lines + [RStrip(p.current)], p.current[|RStrip(p.current)|..], [])
  }

  lemma GrowCovers(p: Page, text: Text, t: Text)
    requires Covers(p, text)
    ensures Covers(Grow(p, t), text + t)
  {
  }

  lemma SkipCovers(p: Page, text: Text, t: Text)
    requires Covers(p, text) && p.current == [] && Blank(t)
    ensures Covers(Skip(p, t), text + t)
  {
  }

  lemma BreakCovers(p: Page, text: Text)
    requires Covers(p, text)
    ensures Covers(Break(p), text)
  {
    hide Laid, RStrip, Blank;
    var kept := RStrip(p.current);
    LaidMore(p.gaps, p.lines, p.gap, kept);
    CutLine(Laid(p.gaps, p.lines) + p.gap, p.current, |kept|);
    assert kept == p.current[..|kept|];
  }

  lemma CutLine(before: Text, line: Text, n: nat)
    requires n <= |line|
    ensures before + line == before + line[..n] + line[n..] + []
  {
    assert line == line[..n] + line[n..];
  }

  /** One more line. */
  lemma LaidMore(gaps: seq<Text>, lines: seq<Text>, gap: Text, line: Text)
    requires |gaps| == |lines|
    ensures Laid(gaps + [gap], lines + [line]) == Laid(gaps, lines) + gap + line
  {
    assert (gaps + [gap])[..|gaps|] == gaps && (lines + [line])[..|lines|] == lines;
  }

  lemma FlatMore(pieces: seq<Text>, piece: Text)
    ensures Flat(pieces + [piece]) == Flat(pieces) + piece
  {
    assert (pieces + [piece])[..|pieces|] == pieces;
  }

  lemma {:induction false} FlatJoin(a: seq<Text>, b: seq<Text>)
    ensures Flat(a + b) == Flat(a) + Flat(b)
    decreases |b|
  {
    if b == [] {
      assert a + b == a;
    } else {
      hide Flat;
      var front, last := b[..|b| - 1], b[|b| - 1];
      FlatJoin(a, front);
      FlatMore(a + front, last);
      FlatMore(front, last);
      assert a + b == (a + front) + [last] && b == front + [last];
      assert (Flat(a) + Flat(front)) + last == Flat(a) + (Flat(front) + last);
    }
  }

  // ----- Tokens -----

  ghost predicate IsToken(t: Text) {
    && t != []
    && (forall i :: 0 <= i < |t| ==> KindOf(t[i]) == KindOf(t[0]))
    && (KindOf(t[0]) == Punctuation ==> |t| == 1)
  }

  /** Maximal runs of one kind, punctuation one by one. */
  ghost predicate AreTokens(ts: seq<Text>) {
    && (forall i :: 0 <= i < |ts| ==> IsToken(ts[i]))
    && (forall i :: 0 < i < |ts| ==> KindOf(ts[i - 1][0]) != KindOf(ts[i][0]) || KindOf(ts[i][0]) == Punctuation)
  }

  /** Neighbours stay together if both are white space, or both ASCII, or both wide letters or
      digits beyond ASCII; nothing else stays together. */
  lemma StaysTogether(x: Ch, y: Ch)
    ensures KindOf(x) == KindOf(y) != Punctuation <==>
            || (x.space && y.space)
            || (!x.space && !y.space && x.code < 128 && y.code < 128)
            || (!x.space && !y.space && x.code >= 128 && y.code >= 128 && x.wide && y.wide && x.letter && y.letter)
  {
  }

  function LastKind(ts: seq<Text>): Option<Kind> {
    if ts == [] || ts[|ts| - 1] == [] then None else Some(KindOf(ts[|ts| - 1][0]))
  }

  lemma TokensMore(ts: seq<Text>, t: Text)
    requires AreTokens(ts) && IsToken(t) && (LastKind(ts) != Some(KindOf(t[0])) || KindOf(t[0]) == Punctuation)
    ensures AreTokens(ts + [t]) && LastKind(ts + [t]) == Some(KindOf(t[0])) && Flat(ts + [t]) == Flat(ts) + t
  {
    hide KindOf, Flat;
    FlatMore(ts, t);
    assert ts != [] ==> IsToken(ts[|ts| - 1]);
  }

  lemma TokenGrows(t: Text, c: Ch)
    requires t != [] ==> IsToken(t) && KindOf(t[0]) == KindOf(c) != Punctuation
    ensures IsToken(t + [c]) && KindOf((t + [c])[0]) == KindOf(c)
  {
    hide KindOf;
  }

  method DisplayTokens(value: Text) returns (tokens: seq<Text>)
    ensures AreTokens(tokens) && Flat(tokens) == value
  {
    hide AreTokens, Flat, LastKind, IsToken, KindOf;
    NoTokensYet();
    tokens := [];
    var current: Text := [];
    var currentKind: Option<Kind> := None;
    for i := 0 to |value|
      invariant AreTokens(tokens) && Flat(tokens) + current == value[..i]
      invariant current == [] <==> currentKind.None?
      invariant current != [] ==> IsToken(current) && currentKind == Some(KindOf(current[0]))
      invariant current != [] ==> LastKind(tokens) != currentKind && currentKind != Some(Punctuation)
      invariant current == [] ==> LastKind(tokens).None? || LastKind(tokens) == Some(Punctuation)
    {
      var kind := KindOf(value[i]);
      assert value[..i + 1] == value[..i] + [value[i]];
      if currentKind.Some? && kind != currentKind.value {
        TokensMore(tokens, current);
        tokens, current, currentKind := tokens + [current], [], None;
      }
      TokenGrows(current, value[i]);
      current, currentKind := current + [value[i]], Some(kind);
      if kind == Punctuation {
        TokensMore(tokens, current);
        tokens, current, currentKind := tokens + [current], [], None;
      }
    }
    assert value[..|value|] == value;
    if current != [] {
      TokensMore(tokens, current);
      tokens := tokens + [current];
    }
  }

  lemma NoTokensYet()
    ensures AreTokens([]) && Flat([]) == [] && LastKind([]).None?
  {
  }

  lemma FlatHead(ts: seq<Text>)
    requires ts != []
    ensures Flat(ts) == ts[0] + Flat(ts[1..])
  {
    FlatJoin([ts[0]], ts[1..]);
    FlatMore([], ts[0]);
    assert [] + [ts[0]] == [ts[0]] && [ts[0]] + ts[1..] == ts;
  }

  lemma TokensOfNothing(ts: seq<Text>)
    requires AreTokens(ts)
    ensures Flat(ts) == [] <==> ts == []
  {
    if ts != [] {
      FlatHead(ts);
      assert IsToken(ts[0]);
    }
  }

  lemma WithinFirst(ts: seq<Text>, i: nat)
    requires AreTokens(ts) && ts != [] && i < |ts[0]|
    ensures |Flat(ts)| >= |ts[0]| && KindOf(Flat(ts)[i]) == KindOf(Flat(ts)[0])
    ensures KindOf(Flat(ts)[0]) == Punctuation ==> |ts[0]| == 1
  {
    FlatHead(ts);
    assert IsToken(ts[0]);
    assert Flat(ts)[0] == ts[0][0] && Flat(ts)[i] == ts[0][i];
  }

  lemma AfterFirst(ts: seq<Text>)
    requires AreTokens(ts) && ts != [] && |ts[0]| < |Flat(ts)|
    ensures ts[0] != []
    ensures var next := KindOf(Flat(ts)[|ts[0]|]); next != KindOf(Flat(ts)[0]) || next == Punctuation
  {
    FlatHead(ts);
    assert IsToken(ts[0]);
    var rest := ts[1..];
    assert Flat(ts)[|ts[0]|] == Flat(rest)[0];
    assert rest != [];
    FlatHead(rest);
    assert rest[0] == ts[1] && IsToken(ts[1]);
    assert KindOf(ts[1 - 1][0]) != KindOf(ts[1][0]) || KindOf(ts[1][0]) == Punctuation;
  }

  /** A first token cannot be shorter than another first token of the same text. */
  lemma FirstIsMaximal(a: seq<Text>, b: seq<Text>)
    requires AreTokens(a) && AreTokens(b) && a != [] && b != [] && Flat(a) == Flat(b)
    ensures |a[0]| >= |b[0]|
  {
    hide Flat, AreTokens, KindOf;
    FlatHead(b);
    if |a[0]| < |b[0]| {
      AfterFirst(a);
      WithinFirst(b, |a[0]|);
    }
  }

  /** The tokens of a text are determined by the text. */
  lemma {:induction false} TokensUnique(a: seq<Text>, b: seq<Text>)
    requires AreTokens(a) && AreTokens(b) && Flat(a) == Flat(b)
    ensures a == b
  {
    TokensOfNothing(a);
    TokensOfNothing(b);
    if a != [] {
      FirstIsMaximal(a, b);
      FirstIsMaximal(b, a);
      FlatHead(a);
      FlatHead(b);
      var s := Flat(a);
      assert a[0] == s[..|a[0]|] && b[0] == s[..|b[0]|];
      assert Flat(a[1..]) == s[|a[0]|..] && Flat(b[1..]) == s[|b[0]|..];
      assert AreTokens(a[1..]) && AreTokens(b[1..]) by {
        TailTokens(a);
        TailTokens(b);
      }
      TokensUnique(a[1..], b[1..]);
      assert a == [a[0]] + a[1..] && b == [b[0]] + b[1..];
    }
  }

  lemma TailTokens(ts: seq<Text>)
    requires AreTokens(ts) && ts != []
    ensures AreTokens(ts[1..])
  {
    forall i | 0 < i < |ts[1..]|
      ensures KindOf(ts[1..][i - 1][0]) != KindOf(ts[1..][i][0]) || KindOf(ts[1..][i][0]) == Punctuation
    {
      assert ts[1..][i - 1] == ts[i] && ts[1..][i] == ts[i + 1];
      assert KindOf(ts[(i + 1) - 1][0]) != KindOf(ts[i + 1][0]) || KindOf(ts[i + 1][0]) == Punctuation;
    }
  }

  // ----- Hard wrapping -----

  /** Within the width, or a single character that no line could hold. */
  predicate Fits(line: Text, width: int) {
    Width(line) <= width || |line| <= 1
  }

  lemma StripFits(s: Text, width: int)
    requires Fits(s, width)
    ensures Fits(RStrip(s), width)
  {
    StripNarrows(s);
  }

  lemma StripSolid(s: Text)
    requires s != [] && !s[|s| - 1].space
    ensures RStrip(s) == s
  {
  }

  /** A chunk of a text without white space ends only where the next character does not fit. */
  ghost predicate Chunks(lines: seq<Text>, width: int) {
    && (forall i :: 0 <= i < |lines| ==> lines[i] != [] && NoSpace(lines[i]))
    && (forall i :: 0 < i < |lines| ==> Width(lines[i - 1]) + CharWidth(lines[i][0]) > width)
  }

  method HardWrap(value: Text, width: int) returns (lines: seq<Text>, ghost page: Page)
    ensures lines != [] && lines == page.lines && page.current == [] && Covers(page, value)
    ensures forall i :: 0 <= i < |lines| ==> Fits(lines[i], width)
    ensures NoSpace(value) && value != [] ==> Chunks(lines, width) && Flat(lines) == value
  {
    hide Width, RStrip, Laid, Flat;
    NothingYet();
    lines, page := [], Page([], [], [], []);
    var current: Text := [];
    var currentWidth := 0;
    hide Covers, Chunks;
    for i := 0 to |value|
      invariant lines == page.lines && current == page.current && Covers(page, value[..i])
      invariant forall j :: 0 <= j < |lines| ==> Fits(lines[j], width)
      invariant currentWidth == Width(current) && Fits(current, width)
      invariant (current == [] <==> i == 0) && (i == 0 ==> lines == [])
      invariant NoSpace(value) && i > 0 ==> Chunks(lines + [current], width) && Flat(lines) + current == value[..i]
    {
      var c := value[i];
      var charWidth := CharWidth(c);
      assert value[..i + 1] == value[..i] + [c];
      if current != [] && currentWidth + charWidth > width {
        BreakCovers(page, value[..i]);
        StripFits(current, width);
        if NoSpace(value) {
          ChunkBreak(lines, current, c, width);
          assert [] + [c] == [c];
        }
        lines, page := lines + [RStrip(current)], Break(page);
        current, currentWidth := [], 0;
      } else if NoSpace(value) {
        ChunkGrow(lines, current, c, width);
      }
      WidthOne(c);
      WidthJoin(current, [c]);
      GrowCovers(page, value[..i], [c]);
      page := Grow(page, [c]);
      current, currentWidth := current + [c], currentWidth + charWidth;
    }
    assert value[..|value|] == value;
    BreakCovers(page, value);
    StripFits(current, width);
    if NoSpace(value) && value != [] {
      ChunkLast(lines, current, width);
    }
    lines, page := lines + [RStrip(current)], Break(page);
  }

  lemma NothingYet()
    ensures Width([]) == 0 && Flat([]) == [] && Covers(Page([], [], [], []), [])
  {
  }

  lemma ChunkLast(lines: seq<Text>, current: Text, width: int)
    requires Chunks(lines + [current], width)
    ensures RStrip(current) == current && Flat(lines + [current]) == Flat(lines) + current
  {
    assert (lines + [current])[|lines|] == current;
    StripSolid(current);
    FlatMore(lines, current);
  }

  lemma ChunkBreak(lines: seq<Text>, current: Text, c: Ch, width: int)
    requires Chunks(lines + [current], width) && !c.space && Width(current) + CharWidth(c) > width
    ensures Chunks(lines + [current] + [[c]], width) && RStrip(current) == current
    ensures Flat(lines + [current]) == Flat(lines) + current
  {
    ChunkLast(lines, current, width);
    ChunksMore(lines + [current], [c], width);
  }

  lemma ChunksMore(lines: seq<Text>, line: Text, width: int)
    requires Chunks(lines, width) && line != [] && NoSpace(line)
    requires lines != [] ==> Width(lines[|lines| - 1]) + CharWidth(line[0]) > width
    ensures Chunks(lines + [line], width)
  {
    hide Width, CharWidth, NoSpace;
    var now := lines + [line];
    forall i | 0 < i < |now|
      ensures Width(now[i - 1]) + CharWidth(now[i][0]) > width
    {
      assert now[i - 1] == lines[i - 1];
      if i < |lines| {
        assert now[i] == lines[i];
      }
    }
  }

  lemma ChunkGrow(lines: seq<Text>, current: Text, c: Ch, width: int)
    requires !c.space && if current == [] then lines == [] else Chunks(lines + [current], width)
    ensures Chunks(lines + [current + [c]], width)
  {
    if current != [] {
      var was, now := lines + [current], lines + [current + [c]];
      assert was[|lines|] == current;
      assert forall i :: 0 <= i < |lines| ==> was[i] == lines[i] && now[i] == lines[i];
    }
  }

  // ----- Filling lines -----

  /** A finished line: it fits, and neither starts nor ends with white space. */
  predicate Good(line: Text, width: int) {
    && line != [] && Fits(line, width)
    && !line[0].space && !line[|line| - 1].space
  }

  /** The next line starts in token j: at its start, because the token did not fit on the line
      before; or inside it, because the token is wider than a line and the next character of it did
      not fit. */
  ghost predicate CutInToken(tokens: seq<Text>, width: int, gaps: seq<Text>, lines: seq<Text>, gap: Text, j: int)
    requires |gaps| == |lines| && lines != []
  {
    && 0 <= j < |tokens|
    && var offset := |Laid(gaps, lines)| + |gap| - |Flat(tokens[..j])|;
    && var last := lines[|lines| - 1];
    && 0 <= offset < |tokens[j]|
    && if offset == 0 then Width(last) + Width(gap) + Width(tokens[j]) > width
       else gap == [] && Width(tokens[j]) > width && Width(last) + CharWidth(tokens[j][offset]) > width
  }

  ghost predicate CutNeeded(tokens: seq<Text>, width: int, gaps: seq<Text>, lines: seq<Text>, gap: Text)
    requires |gaps| == |lines|
  {
    lines != [] ==> exists j :: CutInToken(tokens, width, gaps, lines, gap, j)
  }

  ghost predicate AllCutsNeeded(tokens: seq<Text>, width: int, gaps: seq<Text>, lines: seq<Text>)
    requires |gaps| == |lines|
  {
    forall i :: 0 < i < |lines| ==> CutNeeded(tokens, width, gaps[..i], lines[..i], gaps[i])
  }

  lemma CutsMore(tokens: seq<Text>, width: int, gaps: seq<Text>, lines: seq<Text>, gap: Text, line: Text)
    requires |gaps| == |lines| && AllCutsNeeded(tokens, width, gaps, lines) && CutNeeded(tokens, width, gaps, lines, gap)
    ensures AllCutsNeeded(tokens, width, gaps + [gap], lines + [line])
  {
    hide CutNeeded;
    var gs, ls := gaps + [gap], lines + [line];
    forall i | 0 < i < |ls|
      ensures CutNeeded(tokens, width, gs[..i], ls[..i], gs[i])
    {
      if i < |lines| {
        assert gs[..i] == gaps[..i] && ls[..i] == lines[..i] && gs[i] == gaps[i];
      } else {
        assert gs[..i] == gaps && ls[..i] == lines && gs[i] == gap;
      }
    }
  }

  /** What holds of the page after k tokens. */
  ghost predicate Filling(p: Page, tokens: seq<Text>, k: nat, width: int)
    requires k <= |tokens|
  {
    && Covers(p, Flat(tokens[..k]))
    && (forall i :: 0 <= i < |p.lines| ==> Good(p.lines[i], width))
    && AllCutsNeeded(tokens, width, p.gaps, p.lines)
    && (p.current != [] ==> !p.current[0].space && Fits(p.current, width)
                            && CutNeeded(tokens, width, p.gaps, p.lines, p.gap))
  }

  /** Between lines, what is behind leaves no room for a token of the given width. */
  ghost predicate NoRoom(p: Page, more: nat, width: int) {
    p.lines != [] ==> Width(p.lines[|p.lines| - 1]) + Width(p.gap) + more > width
  }

  lemma TakeMore(tokens: seq<Text>, k: nat)
    requires k < |tokens|
    ensures Flat(tokens[..k + 1]) == Flat(tokens[..k]) + tokens[k]
  {
    assert tokens[..k + 1] == tokens[..k] + [tokens[k]];
    FlatMore(tokens[..k], tokens[k]);
  }

  lemma SkipFills(p: Page, tokens: seq<Text>, k: nat, width: int)
    requires k < |tokens| && Filling(p, tokens, k, width) && p.current == [] && Blank(tokens[k])
    ensures Filling(Skip(p, tokens[k]), tokens, k + 1, width)
    ensures NoRoom(p, Width(tokens[k]), width) ==> NoRoom(Skip(p, tokens[k]), 0, width)
  {
    hide CutNeeded, AllCutsNeeded, Good;
    TakeMore(tokens, k);
    SkipCovers(p, Flat(tokens[..k]), tokens[k]);
    WidthJoin(p.gap, tokens[k]);
  }

  lemma BreakFills(p: Page, tokens: seq<Text>, k: nat, width: int)
    requires k <= |tokens| && Filling(p, tokens, k, width) && p.current != []
    ensures Filling(Break(p), tokens, k, width)
    ensures forall more: nat :: Width(p.current) + more > width ==> NoRoom(Break(p), more, width)
  {
    hide CutNeeded, AllCutsNeeded, Covers;
    var kept := RStrip(p.current);
    BreakCovers(p, Flat(tokens[..k]));
    StripFits(p.current, width);
    CoversShape(p, Flat(tokens[..k]));
    CutsMore(tokens, width, p.gaps, p.lines, p.gap, kept);
    WidthJoin(kept, p.current[|kept|..]);
    assert kept + p.current[|kept|..] == p.current;
  }

  lemma CoversShape(p: Page, text: Text)
    requires Covers(p, text)
    ensures |p.gaps| == |p.lines|
  {
  }

  /** A line starts with a token that had no room before. */
  lemma StartFills(p: Page, tokens: seq<Text>, k: nat, width: int)
    requires k < |tokens| && Filling(p, tokens, k, width) && p.current == []
    requires NoRoom(p, Width(tokens[k]), width)
    requires IsToken(tokens[k]) && !tokens[k][0].space && Width(tokens[k]) <= width
    ensures Filling(Grow(p, tokens[k]), tokens, k + 1, width)
  {
    hide AllCutsNeeded, Good;
    TakeMore(tokens, k);
    GrowCovers(p, Flat(tokens[..k]), tokens[k]);
    assert p.current + tokens[k] == tokens[k];
    if p.lines != [] {
      assert CutInToken(tokens, width, p.gaps, p.lines, p.gap, k);
    }
  }

  lemma GrowFills(p: Page, tokens: seq<Text>, k: nat, width: int)
    requires k < |tokens| && Filling(p, tokens, k, width) && p.current != []
    requires Width(p.current) + Width(tokens[k]) <= width
    ensures Filling(Grow(p, tokens[k]), tokens, k + 1, width)
  {
    hide AllCutsNeeded, Good, CutNeeded;
    TakeMore(tokens, k);
    GrowCovers(p, Flat(tokens[..k]), tokens[k]);
    WidthJoin(p.current, tokens[k]);
  }

  /** The page while the chunks of token k, wider than a line, are being put on it. */
  ghost predicate Chunking(p: Page, tokens: seq<Text>, k: nat, width: int, chunks: seq<Text>, r: nat)
    requires k < |tokens| && r <= |chunks|
  {
    && p.current == []
    && Covers(p, Flat(tokens[..k]) + Flat(chunks[..r]))
    && (forall i :: 0 <= i < |p.lines| ==> Good(p.lines[i], width))
    && AllCutsNeeded(tokens, width, p.gaps, p.lines)
    && (r > 0 ==> p.gap == [] && p.lines != [] && p.lines[|p.lines| - 1] == chunks[r - 1])
  }

  lemma ChunkCut(p: Page, tokens: seq<Text>, k: nat, width: int, chunks: seq<Text>, r: nat)
    requires k < |tokens| && r < |chunks| && Chunking(p, tokens, k, width, chunks, r)
    requires Chunks(chunks, width) && Flat(chunks) == tokens[k] && Width(tokens[k]) > width
    ensures CutNeeded(tokens, width, p.gaps, p.lines, p.gap)
  {
    hide AllCutsNeeded, Good, Width, Covers, Laid, Flat, CharWidth;
    ChunkPosition(chunks, r);
    CoverLength(p, Flat(tokens[..k]) + Flat(chunks[..r]));
    if r == 0 {
      NoChunks(chunks);
    } else {
      ChunkStarts(chunks, r - 1, width);
      TakeMore(chunks, r - 1);
    }
    if p.lines != [] {
      assert CutInToken(tokens, width, p.gaps, p.lines, p.gap, k);
    }
  }

  lemma NoChunks(chunks: seq<Text>)
    ensures Flat(chunks[..0]) == []
  {
  }

  lemma CoverLength(p: Page, text: Text)
    requires Covers(p, text) && p.current == []
    ensures |p.gaps| == |p.lines| && |Laid(p.gaps, p.lines)| + |p.gap| == |text|
  {
  }

  lemma ChunkPosition(chunks: seq<Text>, r: nat)
    requires r < |chunks| && chunks[r] != []
    ensures |Flat(chunks[..r])| < |Flat(chunks)| && Flat(chunks)[|Flat(chunks[..r])|] == chunks[r][0]
  {
    TakeMore(chunks, r);
    FlatJoin(chunks[..r + 1], chunks[r + 1..]);
    assert chunks[..r + 1] + chunks[r + 1..] == chunks;
  }

  lemma ChunkStep(p: Page, tokens: seq<Text>, k: nat, width: int, chunks: seq<Text>, r: nat)
    requires k < |tokens| && r < |chunks| && Chunking(p, tokens, k, width, chunks, r)
    requires CutNeeded(tokens, width, p.gaps, p.lines, p.gap)
    requires Chunks(chunks, width) && Fits(chunks[r], width)
    ensures Chunking(Break(Grow(p, chunks[r])), tokens, k, width, chunks, r + 1)
  {
    hide CutNeeded, AllCutsNeeded, Width, RStrip, Laid, Flat, Covers, Chunks, Good, Fits;
    var c, before, seen := chunks[r], Flat(chunks[..r]), Flat(tokens[..k]);
    var q := Break(Grow(p, c));
    TakeMore(chunks, r);
    CoversShape(p, seen + before);
    ChunkIsGood(chunks, r, width);
    LastCovers(p, seen, before, c);
    BreakCovers(Grow(p, c), seen + (before + c));
    assert Grow(p, c).current == c;
    assert q.lines == p.lines + [c] && q.gaps == p.gaps + [p.gap] && q.gap == [];
    CutsMore(tokens, width, p.gaps, p.lines, p.gap, c);
  }

  lemma ChunkIsGood(chunks: seq<Text>, i: nat, width: int)
    requires Chunks(chunks, width) && i < |chunks| && Fits(chunks[i], width)
    ensures Good(chunks[i], width) && RStrip(chunks[i]) == chunks[i]
  {
    StripSolid(chunks[i]);
  }

  /** All chunks but the last become lines. */
  method ExtendLines(tokens: seq<Text>, k: nat, width: int, lines: seq<Text>, chunks: seq<Text>, ghost page: Page)
    returns (more: seq<Text>, ghost after: Page)
    requires k < |tokens| && Filling(page, tokens, k, width) && page.current == [] && page.lines == lines
    requires chunks != [] && Chunks(chunks, width) && Flat(chunks) == tokens[k] && Width(tokens[k]) > width
    requires forall i :: 0 <= i < |chunks| ==> Fits(chunks[i], width)
    ensures more == lines + chunks[..|chunks| - 1] && after.lines == more
    ensures after.current == chunks[|chunks| - 1] && Filling(after, tokens, k + 1, width)
  {
    hide CutNeeded, AllCutsNeeded, Good, Covers, Width, Flat, Laid, RStrip, Chunks, Fits, Chunking, Filling;
    more, after := lines, page;
    StartChunking(page, tokens, k, width, chunks);
    for r := 0 to |chunks| - 1
      invariant Chunking(after, tokens, k, width, chunks, r)
      invariant more == after.lines == lines + chunks[..r] && after.current == []
    {
      ChunkCut(after, tokens, k, width, chunks, r);
      ChunkStep(after, tokens, k, width, chunks, r);
      ChunkIsGood(chunks, r, width);
      assert [] + chunks[r] == chunks[r];
      assert lines + chunks[..r + 1] == (lines + chunks[..r]) + [chunks[r]];
      more, after := more + [chunks[r]], Break(Grow(after, chunks[r]));
    }
    ghost var n := |chunks| - 1;
    ChunkCut(after, tokens, k, width, chunks, n);
    LastChunk(after, tokens, k, width, chunks);
    assert [] + chunks[n] == chunks[n];
    after := Grow(after, chunks[n]);
  }

  lemma StartChunking(p: Page, tokens: seq<Text>, k: nat, width: int, chunks: seq<Text>)
    requires k < |tokens| && Filling(p, tokens, k, width) && p.current == []
    ensures Chunking(p, tokens, k, width, chunks, 0)
  {
    hide CutNeeded, AllCutsNeeded, Good, Covers;
    NoChunks(chunks);
    assert Flat(tokens[..k]) + [] == Flat(tokens[..k]);
  }

  lemma LastChunk(p: Page, tokens: seq<Text>, k: nat, width: int, chunks: seq<Text>)
    requires k < |tokens| && chunks != [] && Chunking(p, tokens, k, width, chunks, |chunks| - 1)
    requires CutNeeded(tokens, width, p.gaps, p.lines, p.gap)
    requires Chunks(chunks, width) && Flat(chunks) == tokens[k] && Fits(chunks[|chunks| - 1], width)
    ensures Filling(Grow(p, chunks[|chunks| - 1]), tokens, k + 1, width)
  {
    hide CutNeeded, AllCutsNeeded, Width, Laid, Flat, Good, Covers, Chunks, Filling, CutInToken, Fits;
    var n := |chunks| - 1;
    AllChunks(chunks);
    LastCovers(p, Flat(tokens[..k]), Flat(chunks[..n]), chunks[n]);
    TakeMore(tokens, k);
    ChunkStarts(chunks, n, width);
    FillsWith(p, tokens, k + 1, width, chunks[n]);
  }

  lemma AllChunks(chunks: seq<Text>)
    requires chunks != []
    ensures Flat(chunks) == Flat(chunks[..|chunks| - 1]) + chunks[|chunks| - 1]
  {
  }

  lemma LastCovers(p: Page, seen: Text, before: Text, c: Text)
    requires Covers(p, seen + before)
    ensures Covers(Grow(p, c), seen + (before + c))
  {
    hide Covers;
    GrowCovers(p, seen + before, c);
    assert (seen + before) + c == seen + (before + c);
  }

  lemma FillsWith(p: Page, tokens: seq<Text>, k: nat, width: int, c: Text)
    requires k <= |tokens| && p.current == [] && c != [] && !c[0].space && Fits(c, width)
    requires Covers(Grow(p, c), Flat(tokens[..k])) && AllCutsNeeded(tokens, width, p.gaps, p.lines)
    requires CutNeeded(tokens, width, p.gaps, p.lines, p.gap)
    requires forall i :: 0 <= i < |p.lines| ==> Good(p.lines[i], width)
    ensures Filling(Grow(p, c), tokens, k, width)
  {
    hide CutNeeded, AllCutsNeeded, Good;
    assert p.current + c == c;
  }

  lemma ChunkStarts(chunks: seq<Text>, i: nat, width: int)
    requires Chunks(chunks, width) && i < |chunks|
    ensures chunks[i] != [] && !chunks[i][0].space
  {
  }

  /** The result of wrapping. */
  ghost predicate Wrapped(value: Text, width: int, lines: seq<Text>, page: Page) {
    && page.lines == lines != [] && page.current == []
    && Covers(page, value)
    && (lines == [[]] || forall i :: 0 <= i < |lines| ==> Good(lines[i], width))
  }

  method FillLines(tokens: seq<Text>, width: int) returns (lines: seq<Text>, ghost page: Page)
    requires AreTokens(tokens)
    ensures Wrapped(Flat(tokens), width, lines, page) && AllCutsNeeded(tokens, width, page.gaps, lines)
  {
    hide CutNeeded, AllCutsNeeded, Good, Covers;
    lines, page := [], Page([], [], [], []);
    var current: Text := [];
    var currentWidth := 0;
    StartsFilling(tokens, width);
    for k := 0 to |tokens|
      invariant page.lines == lines && page.current == current && currentWidth == Width(current)
      invariant Filling(page, tokens, k, width)
      invariant current == [] ==> NoRoom(page, 0, width)
    {
      var token := tokens[k];
      var tokenWidth := DisplayWidth(token);
      var blank := token[0].space;
      TokenSpace(token);
      if blank && current == [] {
        SkipFills(page, tokens, k, width);
        page := Skip(page, token);
        continue;
      }
      if current != [] && currentWidth + tokenWidth > width {
        BreakFills(page, tokens, k, width);
        assert NoRoom(Break(page), tokenWidth, width);
        lines, page := lines + [RStrip(current)], Break(page);
        current, currentWidth := [], 0;
        if blank {
          SkipFills(page, tokens, k, width);
          page := Skip(page, token);
          continue;
        }
      }
      if tokenWidth > width {
        var chunks, _ := HardWrap(token, width);
        if current != [] {
          lines := lines + [RStrip(current)];
          current, currentWidth := [], 0;
        }
        lines, page := ExtendLines(tokens, k, width, lines, chunks, page);
        current := chunks[|chunks| - 1];
        currentWidth := DisplayWidth(current);
        continue;
      }
      if current == [] {
        StartFills(page, tokens, k, width);
        assert [] + token == token;
      } else {
        GrowFills(page, tokens, k, width);
        WidthJoin(current, token);
      }
      page := Grow(page, token);
      current, currentWidth := current + token, currentWidth + tokenWidth;
    }
    assert tokens[..|tokens|] == tokens;
    if current != [] {
      BreakFills(page, tokens, |tokens|, width);
      lines, page := lines + [RStrip(current)], Break(page);
    } else if lines == [] {
      EmptyLine(page, tokens, width);
      lines, page := lines + [RStrip(current)], Break(page);
    }
  }

  /** A token is white space as a whole or holds none. */
  lemma TokenSpace(t: Text)
    requires IsToken(t)
    ensures if t[0].space then Blank(t) else NoSpace(t)
  {
  }

  lemma StartsFilling(tokens: seq<Text>, width: int)
    ensures Filling(Page([], [], [], []), tokens, 0, width)
  {
  }

  lemma EmptyLine(p: Page, tokens: seq<Text>, width: int)
    requires Filling(p, tokens, |tokens|, width) && p.current == [] && p.lines == []
    ensures Wrapped(Flat(tokens), width, [[]], Break(p)) && AllCutsNeeded(tokens, width, Break(p).gaps, [[]])
  {
    assert tokens[..|tokens|] == tokens;
    BreakCovers(p, Flat(tokens));
  }

  // ----- Nothing but white space is lost -----

  /** The text without its white space. */
  function Solid(s: Text): Text {
    if s == [] then [] else Solid(s[..|s| - 1]) + if s[|s| - 1].space then [] else [s[|s| - 1]]
  }

  lemma {:induction false} SolidJoin(a: Text, b: Text)
    ensures Solid(a + b) == Solid(a) + Solid(b)
    decreases |b|
  {
    if b == [] {
      assert a + b == a;
    } else {
      SolidJoin(a, b[..|b| - 1]);
      assert (a + b)[..|a + b| - 1] == a + b[..|b| - 1];
    }
  }

  lemma {:induction false} SolidBlank(s: Text)
    requires Blank(s)
    ensures Solid(s) == []
  {
    if s != [] {
      SolidBlank(s[..|s| - 1]);
    }
  }

  lemma {:induction false} SolidLaid(gaps: seq<Text>, lines: seq<Text>)
    requires |gaps| == |lines| && forall i :: 0 <= i < |gaps| ==> Blank(gaps[i])
    ensures Solid(Laid(gaps, lines)) == Solid(Flat(lines))
    decreases |lines|
  {
    if lines != [] {
      hide Solid;
      var n := |lines| - 1;
      var before, text := Laid(gaps[..n], lines[..n]), Flat(lines[..n]);
      SolidLaid(gaps[..n], lines[..n]);
      SolidBlank(gaps[n]);
      SolidJoin(before, gaps[n]);
      SolidJoin(before + gaps[n], lines[n]);
      SolidJoin(text, lines[n]);
    }
  }

  lemma SameText(p: Page, value: Text)
    requires Covers(p, value) && p.current == []
    ensures Solid(Flat(p.lines)) == Solid(value)
  {
    hide Solid, Flat, Laid;
    SolidLaid(p.gaps, p.lines);
    SolidBlank(p.gap);
    SolidJoin(Laid(p.gaps, p.lines), p.gap);
    assert Laid(p.gaps, p.lines) + p.gap + [] == Laid(p.gaps, p.lines) + p.gap;
  }

  // ----- When every line fits -----

  lemma {:induction false} LineOfText(gaps: seq<Text>, lines: seq<Text>, i: nat, c: Ch)
    requires |gaps| == |lines| && i < |lines| && c in lines[i]
    ensures c in Laid(gaps, lines)
    decreases |lines|
  {
    var n := |lines| - 1;
    if i < n {
      LineOfText(gaps[..n], lines[..n], i, c);
    }
  }

  lemma {:induction false} TextInLines(gaps: seq<Text>, lines: seq<Text>, c: Ch) returns (i: nat)
    requires |gaps| == |lines| && (forall j :: 0 <= j < |gaps| ==> Blank(gaps[j]))
    requires c in Laid(gaps, lines) && !c.space
    ensures i < |lines| && c in lines[i]
    decreases |lines|
  {
    var n := |lines| - 1;
    if c in lines[n] {
      i := n;
    } else {
      assert c !in gaps[n];
      i := TextInLines(gaps[..n], lines[..n], c);
    }
  }

  /** Every line is within the width if and only if no character that is not white space is wider
      than it; no other message breaks the width. */
  lemma FitsIff(value: Text, width: int, lines: seq<Text>, page: Page)
    requires Wrapped(value, width, lines, page)
    ensures (forall i :: 0 <= i < |lines| ==> Width(lines[i]) <= width) <==>
              width >= 0 && forall c :: c in value && !c.space ==> CharWidth(c) <= width
  {
    if forall i :: 0 <= i < |lines| ==> Width(lines[i]) <= width {
      assert Width(lines[0]) <= width;
      forall c | c in value && !c.space
        ensures CharWidth(c) <= width
      {
        assert c !in page.gap;
        var i := TextInLines(page.gaps, lines, c);
        WidthOfMember(lines[i], c);
      }
    }
    if width >= 0 && forall c :: c in value && !c.space ==> CharWidth(c) <= width {
      forall i | 0 <= i < |lines|
        ensures Width(lines[i]) <= width
      {
        LineWithin(value, width, lines, page, i);
      }
    }
  }

  lemma LineWithin(value: Text, width: int, lines: seq<Text>, page: Page, i: nat)
    requires Wrapped(value, width, lines, page) && i < |lines| && width >= 0
    requires forall c :: c in value && !c.space ==> CharWidth(c) <= width
    ensures Width(lines[i]) <= width
  {
    var line := lines[i];
    if lines == [[]] {
      assert line == [];
    } else if |line| == 1 {
      assert Good(line, width);
      LineOfText(page.gaps, lines, i, line[0]);
      WidthOne(line[0]);
      assert line == [line[0]];
    } else {
      assert Good(line, width);
    }
  }

  /** The lines, the page that places them in the message, and the tokens of the message. */
  method WrapDisplay(value: Text, width: int) returns (lines: seq<Text>, ghost page: Page, ghost tokens: seq<Text>)
    ensures Wrapped(value, width, lines, page)
    ensures AreTokens(tokens) && Flat(tokens) == value
    ensures AllCutsNeeded(tokens, width, page.gaps, lines)
    ensures Solid(Flat(lines)) == Solid(value)
    ensures (forall i :: 0 <= i < |lines| ==> Width(lines[i]) <= width) <==>
              width >= 0 && forall c :: c in value && !c.space ==> CharWidth(c) <= width
  {
    var toks := DisplayTokens(value);
    tokens := toks;
    lines, page := FillLines(toks, width);
    assert toks[..|toks|] == toks;
    FitsIff(value, width, lines, page);
    SameText(page, value);
  }
}
