/** The preview text normaliser: lines are collapsed, empty lines dropped, and the
    text is cut to a number of characters. */
module Preview {

  /** The Unicode White_Space characters. */
  predicate Blank(c: char) {
    var code := c as int;
    || 0x9 <= code <= 0xD || code == 0x20 || code == 0x85 || code == 0xA0 || code == 0x1680
    || 0x2000 <= code <= 0x200A || code == 0x2028 || code == 0x2029 || code == 0x202F
    || code == 0x205F || code == 0x3000
  }

  const ELLIPSIS: char := '\U{2026}'

  function SplitLines(s: string): (lines: seq<string>)
    ensures lines != []
  {
    if s == [] then [[]]
    else
      var rest := SplitLines(s[1..]);
      if s[0] == '\n' then [[]] + rest else [[s[0]] + rest[0]] + rest[1..]
  }

  function Words(s: string): (words: seq<string>)
    ensures s != [] && !Blank(s[0]) ==> words != []
  {
    if s == [] then []
    else
      var rest := Words(s[1..]);
      if Blank(s[0]) then rest
      else if |s| == 1 || Blank(s[1]) then [[s[0]]] + rest
      else [[s[0]] + rest[0]] + rest[1..]
  }

  function Join(parts: seq<string>, separator: char): string {
    if parts == [] then []
    else if |parts| == 1 then parts[0]
    else parts[0] + [separator] + Join(parts[1..], separator)
  }

  function CollapseWhitespace(line: string): string {
    Join(Words(line), ' ')
  }

  function CollapsedLines(lines: seq<string>): seq<string> {
    if lines == [] then []
    else
      var line := CollapseWhitespace(lines[0]);
      (if line == [] then [] else [line]) + CollapsedLines(lines[1..])
  }

  function TrimEnd(s: string): string {
    if s != [] && Blank(s[|s| - 1]) then TrimEnd(s[..|s| - 1]) else s
  }

  function Truncate(value: string, limit: nat): string {
    if limit == 0 || |value| <= limit then value else TrimEnd(value[..limit - 1]) + [ELLIPSIS]
  }

  function NormalizeLines(value: string, limit: nat): string {
    Truncate(Join(CollapsedLines(SplitLines(value)), '\n'), limit)
  }

  // ---- A one-pass reference ------------------------------------------------------

  /** What the whitespace at the start of `s` becomes. */
  function Separator(s: string): char {
    if s == [] || !Blank(s[0]) then ' ' else if s[0] == '\n' then '\n' else Separator(s[1..])
  }

  /** Every run of whitespace becomes one newline or one space; outer runs go. */
  function Flow(s: string): string
    decreases |s|, 0
  {
    if s == [] then []
    else if Blank(s[0]) then Flow(s[1..])
    else [s[0]] + Gap(s[1..]) + Flow(s[1..])
  }

  function Gap(s: string): string
    decreases |s|, 1
  {
    if s == [] || !Blank(s[0]) || Flow(s) == [] then [] else [Separator(s)]
  }

  lemma WordsPrepend(c: char, line: string)
    requires !Blank(c)
    ensures CollapseWhitespace([c] + line) ==
            if line == [] || CollapseWhitespace(line) == [] then [c]
            else if Blank(line[0]) then [c, ' '] + CollapseWhitespace(line)
            else [c] + CollapseWhitespace(line)
  {
    var s := [c] + line;
    assert s[1..] == line;
    WordsVisible(line);
    if line != [] && !Blank(line[0]) {
      var words := Words(line);
      assert Words(s) == [[c] + words[0]] + words[1..];
      assert |words| > 1 ==> ([[c] + words[0]] + words[1..])[1..] == words[1..];
    } else {
      assert Words(s) == [[c]] + Words(line);
      assert ([[c]] + Words(line))[1..] == Words(line);
    }
  }

  lemma {:induction false} WordsVisible(s: string)
    ensures forall w :: w in Words(s) ==> w != []
    ensures CollapseWhitespace(s) == [] <==> Words(s) == []
    ensures s != [] && !Blank(s[0]) ==> CollapseWhitespace(s) != []
  {
    if s != [] {
      WordsVisible(s[1..]);
      assert forall w :: w in Words(s) ==> w in Words(s[1..]) || w == Words(s)[0];
      assert !Blank(s[0]) ==> Words(s)[0][0] == s[0];
    }
  }

  /** The first line decides the separator of a leading run. */
  lemma {:induction false} FirstLine(s: string)
    ensures CollapseWhitespace(SplitLines(s)[0]) != [] ==> Separator(s) == ' '
    ensures CollapseWhitespace(SplitLines(s)[0]) == [] && Flow(s) != [] ==> Separator(s) == '\n'
  {
    if s != [] {
      FirstLine(s[1..]);
      var first, rest := SplitLines(s)[0], SplitLines(s[1..])[0];
      WordsVisible(first);
      if s[0] != '\n' && Blank(s[0]) {
        assert first[1..] == rest;
        assert Words(first) == Words(rest);
      }
    }
  }

  /** The lines of a text, joined again after collapsing each. */
  function Collapsed(s: string): string {
    Join(CollapsedLines(SplitLines(s)), '\n')
  }

  lemma JoinFirst(line: string, rest: seq<string>)
    ensures Join([line] + rest, '\n') == if rest == [] then line else line + ['\n'] + Join(rest, '\n')
  {
    assert ([line] + rest)[1..] == rest;
  }

  lemma {:induction false} CollapsedVisible(lines: seq<string>)
    ensures forall l :: l in CollapsedLines(lines) ==> l != []
    ensures Join(CollapsedLines(lines), '\n') == [] <==> CollapsedLines(lines) == []
  {
    if lines != [] {
      CollapsedVisible(lines[1..]);
    }
  }

  /** The separator in front of a text, by its first line. */
  lemma GapByLine(s: string)
    requires Collapsed(s) == Flow(s)
    ensures var line := CollapseWhitespace(SplitLines(s)[0]);
            var first := SplitLines(s)[0];
            Gap(s) == if Flow(s) == [] then [] else if line == [] then ['\n']
                      else if Blank(first[0]) then [' '] else []
  {
    FirstLine(s);
    StartOfLine(s);
    WordsVisible(SplitLines(s)[0]);
  }

  lemma VisibleLine(c: char, s: string)
    requires !Blank(c)
    ensures CollapsedLines(SplitLines([c] + s)) ==
            [CollapseWhitespace([c] + SplitLines(s)[0])] + CollapsedLines(SplitLines(s)[1..])
  {
    var lines := SplitLines(s);
    assert ([c] + s)[1..] == s;
    assert SplitLines([c] + s) == [[c] + lines[0]] + lines[1..];
    assert ([[c] + lines[0]] + lines[1..])[1..] == lines[1..];
    WordsPrepend(c, lines[0]);
  }

  lemma Assembled(c: char, line: string, spaced: bool, more: bool, rest: string)
    requires more ==> rest != []
    ensures var first := if line == [] then [c] else if spaced then [c, ' '] + line else [c] + line;
            var flow := if line == [] then (if more then rest else []) else if more then line + ['\n'] + rest else line;
            var gap := if flow == [] then [] else if line == [] then ['\n'] else if spaced then [' '] else [];
            (if more then first + ['\n'] + rest else first) == [c] + gap + flow
  {
  }

  /** A visible character in front of a text that is already settled. */
  lemma VisibleStart(c: char, s: string)
    requires !Blank(c) && Collapsed(s) == Flow(s)
    ensures Collapsed([c] + s) == [c] + Gap(s) + Flow(s)
  {
    var lines := SplitLines(s);
    var line, others := CollapseWhitespace(lines[0]), CollapsedLines(lines[1..]);
    var spaced := lines[0] != [] && Blank(lines[0][0]);
    VisibleLine(c, s);
    WordsPrepend(c, lines[0]);
    GapByLine(s);
    CollapsedVisible(lines[1..]);
    JoinFirst(CollapseWhitespace([c] + lines[0]), others);
    JoinFirst(line, others);
    assert CollapsedLines(lines) == if line == [] then others else [line] + others;
    Assembled(c, line, spaced, others != [], Join(others, '\n'));
  }

  /** Collapsing line by line is the one-pass reference. */
  lemma {:induction false} CollapsedIsFlow(s: string)
    ensures Collapsed(s) == Flow(s)
  {
    if s != [] {
      var rest := SplitLines(s[1..]);
      CollapsedIsFlow(s[1..]);
      if s[0] == '\n' {
        assert SplitLines(s) == [[]] + rest && ([[]] + rest)[1..] == rest;
        assert CollapsedLines(SplitLines(s)) == CollapsedLines(rest);
      } else {
        var first := [s[0]] + rest[0];
        var others := CollapsedLines(rest[1..]);
        assert SplitLines(s) == [first] + rest[1..];
        assert ([first] + rest[1..])[1..] == rest[1..];
        var was := CollapseWhitespace(rest[0]);
        assert CollapsedLines(rest) == (if was == [] then [] else [was]) + others;
        JoinFirst(was, others);
        CollapsedVisible(rest[1..]);
        if Blank(s[0]) {
          assert first[1..] == rest[0];
          assert CollapseWhitespace(first) == was;
        } else {
          VisibleStart(s[0], s[1..]);
          assert s == [s[0]] + s[1..];
        }
      }
    }
  }

  lemma StartOfLine(s: string)
    ensures var line := SplitLines(s)[0];
            && (line == [] <==> s == [] || s[0] == '\n')
            && (line != [] ==> line[0] == s[0])
  {
  }

  // ---- What normalised text looks like ----------------------------------------------

  /** No outer whitespace, single spaces and newlines inside, none adjacent. */
  predicate Clean(s: string) {
    && (s != [] ==> !Blank(s[0]) && !Blank(s[|s| - 1]))
    && (forall i :: 0 <= i < |s| && Blank(s[i]) ==> s[i] == ' ' || s[i] == '\n')
    && (forall i :: 0 < i < |s| ==> !(Blank(s[i - 1]) && Blank(s[i])))
  }

  lemma {:induction false} FlowClean(s: string)
    ensures Clean(Flow(s))
  {
    if s != [] {
      FlowClean(s[1..]);
      SeparatorBlank(s[1..]);
    }
  }

  lemma {:induction false} SeparatorBlank(s: string)
    ensures Separator(s) == ' ' || Separator(s) == '\n'
  {
    if s != [] {
      SeparatorBlank(s[1..]);
    }
  }

  lemma CleanTail(s: string, k: nat)
    requires Clean(s) && k < |s| && !Blank(s[k])
    ensures Clean(s[k..])
  {
    var t := s[k..];
    assert forall i :: 0 <= i < |t| ==> t[i] == s[k + i];
  }

  lemma FlowVisible(c: char, s: string)
    requires !Blank(c) && s != [] && !Blank(s[0]) && Flow(s) == s
    ensures Flow([c] + s) == [c] + s
  {
    FlowHead(c, s);
    assert Gap(s) == [] && [c] + [] == [c];
  }

  lemma FlowHead(c: char, s: string)
    requires !Blank(c)
    ensures Flow([c] + s) == [c] + Gap(s) + Flow(s)
  {
    var t := [c] + s;
    assert t[0] == c && t[1..] == s;
  }

  lemma GapHead(gap: char, s: string)
    requires (gap == ' ' || gap == '\n') && s != [] && !Blank(s[0]) && Flow(s) == s
    ensures Flow([gap] + s) == s && Gap([gap] + s) == [gap]
  {
    var t := [gap] + s;
    assert t[0] == gap && t[1..] == s;
    assert Flow(t) == Flow(s);
    assert Separator(t) == if gap == '\n' then '\n' else Separator(s);
  }

  lemma {:induction false} CleanFlows(s: string)
    requires Clean(s)
    ensures Flow(s) == s
  {
    if |s| > 1 {
      if Blank(s[1]) {
        CleanTail(s, 2);
        CleanFlows(s[2..]);
        var rest := s[1..];
        assert rest == [s[1]] + s[2..] && s == [s[0]] + rest;
        GapHead(s[1], s[2..]);
        FlowHead(s[0], rest);
      } else {
        CleanTail(s, 1);
        CleanFlows(s[1..]);
        FlowVisible(s[0], s[1..]);
        assert s == [s[0]] + s[1..];
      }
    }
  }

  lemma {:induction false} TrimEndPrefix(s: string)
    ensures |TrimEnd(s)| <= |s| && TrimEnd(s) == s[..|TrimEnd(s)|]
    ensures TrimEnd(s) != [] ==> !Blank(TrimEnd(s)[|TrimEnd(s)| - 1])
    ensures forall i :: |TrimEnd(s)| <= i < |s| ==> Blank(s[i])
  {
    if s != [] && Blank(s[|s| - 1]) {
      TrimEndPrefix(s[..|s| - 1]);
    }
  }

  lemma TruncateClean(s: string, limit: nat)
    requires Clean(s)
    ensures Clean(Truncate(s, limit))
    ensures limit > 0 ==> |Truncate(s, limit)| <= limit
  {
    if limit != 0 && |s| > limit {
      TrimEndPrefix(s[..limit - 1]);
    }
  }

  /** The output has no outer, adjacent or unusual whitespace, so no empty line, and
      with a positive limit at most that many characters. */
  lemma NormalizedIsClean(value: string, limit: nat)
    ensures Clean(NormalizeLines(value, limit))
    ensures limit > 0 ==> |NormalizeLines(value, limit)| <= limit
  {
    CollapsedIsFlow(value);
    FlowClean(value);
    TruncateClean(Flow(value), limit);
  }

  /** Exactly the clean texts within the limit are left alone. */
  lemma UnchangedExactly(value: string, limit: nat)
    ensures NormalizeLines(value, limit) == value <==> Clean(value) && (limit == 0 || |value| <= limit)
  {
    NormalizedIsClean(value, limit);
    if Clean(value) {
      CollapsedIsFlow(value);
      CleanFlows(value);
    }
  }

  /** Normalising twice changes nothing, whatever the text and the limit. */
  lemma Idempotent(value: string, limit: nat)
    ensures NormalizeLines(NormalizeLines(value, limit), limit) == NormalizeLines(value, limit)
  {
    NormalizedIsClean(value, limit);
    UnchangedExactly(NormalizeLines(value, limit), limit);
  }

  lemma LinesPrepend(c: char, s: string)
    requires c != '\n' && forall i :: 0 < i < |SplitLines(s)| ==> SplitLines(s)[i] != []
    ensures forall i :: 0 <= i < |SplitLines([c] + s)| ==> SplitLines([c] + s)[i] != []
  {
    assert ([c] + s)[1..] == s;
  }

  /** Clean text has no empty line. */
  lemma {:induction false} CleanLines(s: string)
    requires Clean(s) && s != []
    ensures forall i :: 0 <= i < |SplitLines(s)| ==> SplitLines(s)[i] != []
  {
    assert s == [s[0]] + s[1..];
    if |s| > 1 {
      if Blank(s[1]) {
        CleanTail(s, 2);
        CleanLines(s[2..]);
        assert s[1..] == [s[1]] + s[2..];
        if s[1] != '\n' {
          LinesPrepend(s[1], s[2..]);
        }
      } else {
        CleanTail(s, 1);
        CleanLines(s[1..]);
      }
    }
    LinesPrepend(s[0], s[1..]);
  }

  // ---- Nothing visible is lost ----------------------------------------------------------

  function Visible(s: string): string {
    if s == [] then [] else (if Blank(s[0]) then [] else [s[0]]) + Visible(s[1..])
  }

  lemma VisibleHead(c: char, s: string)
    ensures Visible([c] + s) == (if Blank(c) then [] else [c]) + Visible(s)
  {
    assert ([c] + s)[1..] == s;
  }

  lemma {:induction false} VisibleJoin(a: string, b: string)
    ensures Visible(a + b) == Visible(a) + Visible(b)
  {
    if a == [] {
      assert a + b == b;
    } else {
      VisibleJoin(a[1..], b);
      VisibleHead(a[0], a[1..] + b);
      VisibleHead(a[0], a[1..]);
      assert a == [a[0]] + a[1..] && a + b == [a[0]] + (a[1..] + b);
    }
  }

  lemma {:induction false} FlowKeepsVisible(s: string)
    ensures Visible(Flow(s)) == Visible(s)
  {
    if s != [] {
      FlowKeepsVisible(s[1..]);
      if !Blank(s[0]) {
        SeparatorBlank(s[1..]);
        VisibleJoin([s[0]] + Gap(s[1..]), Flow(s[1..]));
        VisibleJoin([s[0]], Gap(s[1..]));
      }
    }
  }

  /** Up to the limit every visible character survives in order; beyond it the text
      is the longest trimmed beginning that leaves room for the ellipsis. */
  lemma NormalizedKeepsVisible(value: string, limit: nat)
    ensures var whole := NormalizeLines(value, 0);
            && Visible(whole) == Visible(value)
            && (limit == 0 || |whole| <= limit ==> NormalizeLines(value, limit) == whole)
            && (0 < limit < |whole| ==>
                  exists cut: nat :: cut < limit && NormalizeLines(value, limit) == whole[..cut] + [ELLIPSIS]
                    && forall i :: cut <= i < limit - 1 ==> Blank(whole[i]))
  {
    CollapsedIsFlow(value);
    FlowKeepsVisible(value);
    var whole := NormalizeLines(value, 0);
    if 0 < limit < |whole| {
      var kept := TrimEnd(whole[..limit - 1]);
      TrimEndPrefix(whole[..limit - 1]);
      assert kept == whole[..|kept|];
      assert NormalizeLines(value, limit) == whole[..|kept|] + [ELLIPSIS];
    }
  }

  // ---- What stands between two visible characters ----------------------------------

  predicate AllBlank(s: string) {
    forall i :: 0 <= i < |s| ==> Blank(s[i])
  }

  /** What whitespace between two visible characters becomes. */
  function Between(gap: string): string {
    if gap == [] then [] else if '\n' in gap then ['\n'] else [' ']
  }

  lemma {:induction false} FlowSkips(gap: string, s: string)
    requires AllBlank(gap) && s != [] && !Blank(s[0])
    ensures Flow(gap + s) == Flow(s) && Flow(s) != [] && Gap(gap + s) == Between(gap)
  {
    if gap == [] {
      assert gap + s == s;
    } else {
      var rest := gap[1..] + s;
      FlowSkips(gap[1..], s);
      assert (gap + s)[0] == gap[0] && (gap + s)[1..] == rest;
      assert gap == [gap[0]] + gap[1..];
      assert gap[1..] == [] ==> rest == s;
    }
  }

  lemma {:induction false} FlowEnds(s: string)
    requires AllBlank(s)
    ensures Flow(s) == []
  {
    if s != [] {
      FlowEnds(s[1..]);
    }
  }

  lemma {:induction false} FlowSplits(a: string, c: char, rest: string)
    requires !Blank(c)
    ensures Flow(a + [c] + rest) == Flow(a + [c]) + Gap(rest) + Flow(rest)
    ensures Gap(a + [c] + rest) == Gap(a + [c])
  {
    var whole, part := a + [c] + rest, a + [c];
    if a == [] {
      assert whole == [c] + rest && part == [c] + [];
      FlowHead(c, rest);
      FlowHead(c, []);
      assert Gap([]) == [] && Flow([]) == [];
    } else {
      var w, p := a[1..] + [c] + rest, a[1..] + [c];
      FlowSplits(a[1..], c, rest);
      assert whole[0] == a[0] && whole[1..] == w && part[0] == a[0] && part[1..] == p;
      SameSeparator(a, c, rest);
      FlowNotEmpty(p, |a| - 1);
      FlowNotEmpty(w, |a| - 1);
      if !Blank(a[0]) {
        assert Flow(whole) == [a[0]] + Gap(w) + Flow(w);
        assert Flow(part) == [a[0]] + Gap(p) + Flow(p);
        Regroup([a[0]] + Gap(p), Flow(p), Gap(rest), Flow(rest));
      }
    }
  }

  lemma Regroup(a: string, b: string, c: string, d: string)
    ensures a + (b + c + d) == a + b + c + d
  {
  }

  /** Text with a visible character does not vanish. */
  lemma {:induction false} FlowNotEmpty(s: string, i: nat)
    requires i < |s| && !Blank(s[i])
    ensures Flow(s) != []
  {
    if Blank(s[0]) {
      FlowNotEmpty(s[1..], i - 1);
    }
  }

  lemma {:induction false} SameSeparator(a: string, c: char, s: string)
    requires !Blank(c)
    ensures Separator(a + [c] + s) == Separator(a + [c])
  {
    if a == [] {
      assert (a + [c] + s)[0] == c && (a + [c])[0] == c;
    } else {
      SameSeparator(a[1..], c, s);
      assert (a + [c] + s)[0] == a[0] && (a + [c] + s)[1..] == a[1..] + [c] + s;
      assert (a + [c])[0] == a[0] && (a + [c])[1..] == a[1..] + [c];
    }
  }

  /** Without a limit, whitespace between two visible characters becomes one newline
      if it holds one and one space otherwise; nothing is put where there is none. */
  lemma WhitespaceBecomes(a: string, c: char, gap: string, s: string)
    requires !Blank(c) && AllBlank(gap) && s != [] && !Blank(s[0])
    ensures NormalizeLines(a + [c] + gap + s, 0) ==
            NormalizeLines(a + [c], 0)
            + (if gap == [] then [] else if '\n' in gap then ['\n'] else [' '])
            + NormalizeLines(s, 0)
  {
    CollapsedIsFlow(a + [c] + gap + s);
    CollapsedIsFlow(a + [c]);
    CollapsedIsFlow(s);
    FlowSplits(a, c, gap + s);
    FlowSkips(gap, s);
    assert a + [c] + (gap + s) == a + [c] + gap + s;
  }

  /** Whitespace at either end goes. */
  lemma OuterWhitespaceGoes(before: string, s: string, behind: string)
    requires AllBlank(before) && AllBlank(behind) && s != [] && !Blank(s[0]) && !Blank(s[|s| - 1])
    ensures NormalizeLines(before + s + behind, 0) == NormalizeLines(s, 0)
    ensures NormalizeLines(before, 0) == []
  {
    CollapsedIsFlow(before + s + behind);
    CollapsedIsFlow(s);
    CollapsedIsFlow(before);
    FlowEnds(before);
    FlowSkips(before, s + behind);
    assert before + s + behind == before + (s + behind);
    FlowDropsTail(s, behind);
  }

  lemma {:induction false} FlowDropsTail(s: string, behind: string)
    requires AllBlank(behind) && (s != [] ==> !Blank(s[|s| - 1]))
    ensures Flow(s + behind) == Flow(s) && Gap(s + behind) == Gap(s)
  {
    FlowEnds(behind);
    if s == [] {
      assert s + behind == behind;
    } else {
      FlowDropsTail(s[1..], behind);
      assert (s + behind)[0] == s[0] && (s + behind)[1..] == s[1..] + behind;
      var front, last := s[..|s| - 1], s[|s| - 1];
      assert s == front + [last];
      SameSeparator(front, last, behind);
    }
  }
}
