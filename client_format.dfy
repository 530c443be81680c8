/**
 * The chat page's rendering of a bot reply (`formatMessageText` in
 * frontend/static/script.js): `**bold**` spans become `<strong>` elements,
 * bullet lines become `<li>` items wrapped in `<ul>` … `</ul>`, and every
 * other line is kept as it is. Also the guard that keeps an empty input
 * from being sent.
 */
module ClientFormat {
  import opened Wrappers
  import opened Text

  // ---------------------------------------------------------------------------
  // Bold: the global replace of /\*\*([^\*\*]+)\*\*/ by <strong>$1</strong>
  // ---------------------------------------------------------------------------

  /** Length of the longest prefix of `s` without an asterisk. */
  function NonStarRun(s: string): (n: nat)
    ensures n <= |s| && (n == |s| || s[n] == '*')
    ensures forall i :: 0 <= i < n ==> s[i] != '*'
  {
    if s == [] || s[0] == '*' then 0 else 1 + NonStarRun(s[1..])
  }

  /** The regular expression matches at the start of `s` with a group of length `n`. */
  ghost predicate BoldMatch(s: string, n: nat)
  {
    0 < n && 4 + n <= |s| && s[..2] == "**" && s[2 + n..4 + n] == "**"
    && forall i :: 2 <= i < 2 + n ==> s[i] != '*'
  }

  /** The length of the bold text if a `**…**` span starts at the head of `s`. */
  function BoldSpan(s: string): (r: Option<nat>)
    ensures r.Some? ==> BoldMatch(s, r.value)
  {
    if |s| >= 2 && s[..2] == "**" then
      var n := NonStarRun(s[2..]);
      if n > 0 && 4 + n <= |s| && s[2 + n..4 + n] == "**" then Some(n) else None
    else None
  }

  /** A run of non-asterisks ended by an asterisk is the longest such prefix. */
  lemma {:induction false} NonStarRunIs(t: string, n: nat)
    requires n < |t| && t[n] == '*'
    requires forall i :: 0 <= i < n ==> t[i] != '*'
    ensures NonStarRun(t) == n
  {
    if n > 0 {
      NonStarRunIs(t[1..], n - 1);
    }
  }

  /** Every match of the regular expression at the head of `s` is found, with its one possible group length. */
  lemma BoldSpanComplete(s: string, n: nat)
    requires BoldMatch(s, n)
    ensures BoldSpan(s) == Some(n)
  {
    assert s[2..][n] == s[2 + n..4 + n][0];
    NonStarRunIs(s[2..], n);
  }

  /** Every `**x**` span, scanned left to right, becomes `<strong>x</strong>`. */
  function Bold(s: string): string
    decreases |s|
  {
    if s == [] then []
    else match BoldSpan(s)
      case Some(n) => "<strong>" + s[2..2 + n] + "</strong>" + Bold(s[4 + n..])
      case None => [s[0]] + Bold(s[1..])
  }

  /** A text without asterisks is left alone. */
  lemma {:induction false} BoldNoStars(s: string)
    requires '*' !in s
    ensures Bold(s) == s
  {
    if s != [] {
      assert s[0] in s;
      BoldNoStars(s[1..]);
    }
  }

  /** A span `**x**` with `x` non-empty and free of `*` is rewritten, and the scan goes on after it. */
  lemma BoldRewrites(x: string, rest: string)
    requires x != [] && '*' !in x
    ensures Bold("**" + x + "**" + rest) == "<strong>" + x + "</strong>" + Bold(rest)
  {
    var s := "**" + x + "**" + rest;
    assert s[2..] == x + ("**" + rest);
    assert BoldMatch(s, |x|) by {
      forall i | 2 <= i < 2 + |x| ensures s[i] != '*' { assert s[i] == x[i - 2]; }
    }
    BoldSpanComplete(s, |x|);
    assert s[2..2 + |x|] == x && s[4 + |x|..] == rest;
  }

  // ---------------------------------------------------------------------------
  // List lines: /^([\*\-])\s+(.+)/ and its replacement by <li>$2</li>
  // ---------------------------------------------------------------------------

  predicate IsBulletMark(c: char) { c == '*' || c == '-' }

  /** The pattern matches `line` with `\s+` covering `line[1..1 + k]` and `(.+)` starting at `1 + k`. */
  ghost predicate ListMatch(line: string, k: nat)
  {
    1 <= k && 1 + k < |line| && IsBulletMark(line[0])
    && (forall j :: 1 <= j <= k ==> JsIsSpace(line[j]))
    && !JsIsLineTerminator(line[1 + k])
  }

  /** Length of the run of white space at the head of `s`. */
  function SpaceRun(s: string): (n: nat)
    ensures n <= |s|
  {
    if s == [] || !JsIsSpace(s[0]) then 0 else 1 + SpaceRun(s[1..])
  }

  /** The run is white space only, and the character after it is not. */
  lemma {:induction false} SpaceRunFacts(s: string)
    ensures var n := SpaceRun(s);
            (n == |s| || !JsIsSpace(s[n])) && forall i :: 0 <= i < n ==> JsIsSpace(s[i])
  {
    if s != [] && JsIsSpace(s[0]) {
      SpaceRunFacts(s[1..]);
      var n := SpaceRun(s);
      forall i | 0 < i < n ensures JsIsSpace(s[i]) {
        assert s[i] == s[1..][i - 1];
      }
      if n < |s| {
        assert s[n] == s[1..][n - 1];
      }
    }
  }

  /** Length of the run of characters other than line terminators at the head of `s`: what `.+` takes. */
  function LineRun(s: string): (n: nat)
    ensures n <= |s|
  {
    if s == [] || JsIsLineTerminator(s[0]) then 0 else 1 + LineRun(s[1..])
  }

  /** The run holds no line terminator, and it stops only at one or at the end. */
  lemma {:induction false} LineRunFacts(s: string)
    ensures var n := LineRun(s);
            (n == |s| || JsIsLineTerminator(s[n])) && forall i :: 0 <= i < n ==> !JsIsLineTerminator(s[i])
  {
    if s != [] && !JsIsLineTerminator(s[0]) {
      LineRunFacts(s[1..]);
      var n := LineRun(s);
      forall i | 0 < i < n ensures !JsIsLineTerminator(s[i]) {
        assert s[i] == s[1..][i - 1];
      }
      if n < |s| {
        assert s[n] == s[1..][n - 1];
      }
    }
  }

  /** `(.+)` can match right after `\s+` has taken `line[1..1 + k]`. */
  predicate ItemFits(line: string, k: nat)
  {
    1 + k < |line| && !JsIsLineTerminator(line[1 + k])
  }

  /** Greedy `\s+` backing off one character at a time from `k` until `(.+)` can match after it. */
  function BackOff(line: string, k: nat): (r: Option<nat>)
    ensures r.Some? ==> 1 <= r.value <= k && ItemFits(line, r.value)
  {
    if k == 0 then None
    else if ItemFits(line, k) then Some(k)
    else BackOff(line, k - 1)
  }

  /** Backing off stops at the first extent, from `k` down, after which `(.+)` fits, and fails only when none does. */
  lemma {:induction false} BackOffFacts(line: string, k: nat)
    ensures var r := BackOff(line, k);
            (r.Some? ==> forall j: nat :: r.value < j <= k ==> !ItemFits(line, j))
            && (r.None? ==> forall j: nat :: 1 <= j <= k ==> !ItemFits(line, j))
  {
    if k > 0 && !ItemFits(line, k) {
      BackOffFacts(line, k - 1);
    }
  }

  /** The extent of `\s+` the regular expression settles on, if it matches at all. */
  function ItemStart(line: string): Option<nat>
  {
    if line == [] || !IsBulletMark(line[0]) then None else BackOff(line, SpaceRun(line[1..]))
  }

  predicate IsListLine(line: string)
  {
    ItemStart(line).Some?
  }

  /**
   * The computed match is the regular expression's: there is one exactly when
   * the pattern matches, and `\s+` takes the longest extent that still lets
   * `(.+)` match.
   */
  lemma ItemStartIsGreedyMatch(line: string)
    ensures IsListLine(line) <==> exists k :: ListMatch(line, k)
    ensures IsListLine(line) ==>
              ListMatch(line, ItemStart(line).value)
              && forall k: nat :: ListMatch(line, k) ==> k <= ItemStart(line).value
  {
    if line != [] && IsBulletMark(line[0]) {
      var m := SpaceRun(line[1..]);
      SpaceRunFacts(line[1..]);
      BackOffFacts(line, m);
      forall k: nat | ListMatch(line, k) ensures k <= m && ItemFits(line, k)
      {
      }
      if IsListLine(line) {
        var k := ItemStart(line).value;
        forall j | 1 <= j <= k ensures JsIsSpace(line[j]) { assert line[j] == line[1..][j - 1]; }
        assert ListMatch(line, k);
      }
    }
  }

  /** `line.replace(pattern, '<li>$2</li>')`: only the matched part is replaced; a line that does not match is kept. */
  function ListItem(line: string): (r: string)
  {
    match ItemStart(line)
      case None => line
      case Some(k) =>
        var b := 1 + k;
        var e := b + LineRun(line[b..]);
        "<li>" + line[b..e] + "</li>" + line[e..]
  }

  /** On a line without line terminators the item is everything after the bullet and the white space `\s+` took. */
  lemma ListItemPlain(line: string)
    requires IsListLine(line)
    requires forall i :: 0 <= i < |line| ==> !JsIsLineTerminator(line[i])
    ensures ListItem(line) == "<li>" + line[1 + ItemStart(line).value..] + "</li>"
    ensures |line[1 + ItemStart(line).value..]| > 0
  {
    var b := 1 + ItemStart(line).value;
    LineRunFacts(line[b..]);
    assert LineRun(line[b..]) == |line| - b;
  }

  // ---------------------------------------------------------------------------
  // Wrapping runs of list lines
  // ---------------------------------------------------------------------------

  /** What the loop pushes for one line, given whether a list is open. */
  function Emit(line: string, inList: bool): seq<string>
  {
    if IsListLine(line) then (if inList then [] else ["<ul>"]) + [ListItem(line)]
    else (if inList then ["</ul>"] else []) + [line]
  }

  /** The lines the loop pushes from `lines` on, given whether a list is open, including the final close. */
  function WrapFrom(lines: seq<string>, inList: bool): seq<string>
    decreases |lines|
  {
    if lines == [] then (if inList then ["</ul>"] else [])
    else Emit(lines[0], inList) + WrapFrom(lines[1..], IsListLine(lines[0]))
  }

  function Wrapped(lines: seq<string>): seq<string>
  {
    WrapFrom(lines, false)
  }

  /** The loop of `formatMessageText` over the lines, with its `inList` flag. */
  method WrapLists(lines: seq<string>) returns (processed: seq<string>)
    ensures processed == Wrapped(lines)
  {
    processed := [];
    var inList := false;
    for i := 0 to |lines|
      invariant processed + WrapFrom(lines[i..], inList) == Wrapped(lines)
    {
      var line := lines[i];
      ghost var before, wasInList := processed, inList;
      if IsListLine(line) {
        if !inList {
          processed := processed + ["<ul>"];
          inList := true;
        }
        processed := processed + [ListItem(line)];
      } else {
        if inList {
          processed := processed + ["</ul>"];
          inList := false;
        }
        processed := processed + [line];
      }
      assert processed == before + Emit(line, wasInList);
      WrapFromStep(lines, i, wasInList);
      AppendAssoc(before, Emit(line, wasInList), WrapFrom(lines[i + 1..], inList));
    }
    if inList {
      processed := processed + ["</ul>"];
    }
  }

  lemma WrapFromStep(lines: seq<string>, i: nat, inList: bool)
    requires i < |lines|
    ensures WrapFrom(lines[i..], inList) == Emit(lines[i], inList) + WrapFrom(lines[i + 1..], IsListLine(lines[i]))
  {
    assert lines[i..][0] == lines[i] && lines[i..][1..] == lines[i + 1..];
  }

  /** The whole of `formatMessageText`: bold first, then the list pass over the lines, joined again. */
  method FormatMessageText(text: string) returns (r: string)
    ensures r == Join(Wrapped(Split(Bold(text), '\n')), "\n")
  {
    var formatted := Bold(text);
    var lines := Split(formatted, '\n');
    var processed := WrapLists(lines);
    r := Join(processed, "\n");
  }

  // ---------------------------------------------------------------------------
  // What the wrapping means
  // ---------------------------------------------------------------------------

  /** Number of list lines at the head of `lines`. */
  function ListRun(lines: seq<string>): (n: nat)
    ensures n <= |lines|
  {
    if lines == [] || !IsListLine(lines[0]) then 0 else 1 + ListRun(lines[1..])
  }

  function Items(lines: seq<string>): (r: seq<string>)
    ensures |r| == |lines|
  {
    seq(|lines|, i requires 0 <= i < |lines| => ListItem(lines[i]))
  }

  /**
   * Reference rendering: each maximal run of list lines becomes `<ul>`, its
   * items and `</ul>`; every other line is kept.
   */
  function Rendered(lines: seq<string>): seq<string>
    decreases |lines|
  {
    if lines == [] then []
    else if IsListLine(lines[0]) then
      var n := ListRun(lines);
      ["<ul>"] + Items(lines[..n]) + ["</ul>"] + Rendered(lines[n..])
    else [lines[0]] + Rendered(lines[1..])
  }

  /** The loop emits the reference rendering. */
  lemma {:induction false} WrapIsRendered(lines: seq<string>)
    ensures Wrapped(lines) == Rendered(lines)
    decreases |lines|, 1
  {
    if lines != [] {
      if IsListLine(lines[0]) {
        WrapOpen(lines[1..]);
        OpenRunStep(lines);
        assert Wrapped(lines) == Emit(lines[0], false) + WrapFrom(lines[1..], true);
      } else {
        WrapIsRendered(lines[1..]);
      }
    }
  }

  /** With a list open, the loop finishes the current run of list lines, closes it, and renders the rest. */
  lemma {:induction false} WrapOpen(lines: seq<string>)
    ensures WrapFrom(lines, true) == Items(lines[..ListRun(lines)]) + ["</ul>"] + Rendered(lines[ListRun(lines)..])
    decreases |lines|, 0
  {
    if lines == [] {
      assert Items(lines[..0]) == [];
    } else if IsListLine(lines[0]) {
      WrapOpen(lines[1..]);
      OpenRunStep(lines);
    } else {
      WrapIsRendered(lines[1..]);
      ClosedRunStep(lines);
    }
  }

  /** One list line more at the head of a run: the run's items gain that line's item in front. */
  lemma OpenRunStep(lines: seq<string>)
    requires lines != [] && IsListLine(lines[0])
    requires var rest := lines[1..];
             WrapFrom(rest, true) == Items(rest[..ListRun(rest)]) + ["</ul>"] + Rendered(rest[ListRun(rest)..])
    ensures WrapFrom(lines, true) == Items(lines[..ListRun(lines)]) + ["</ul>"] + Rendered(lines[ListRun(lines)..])
    ensures Emit(lines[0], false) + WrapFrom(lines[1..], true) == Rendered(lines)
  {
    var rest := lines[1..];
    var n, m := ListRun(lines), ListRun(rest);
    OpenRunParts(lines);
    OpenRunUnfold(lines);
    RenderedUnfold(lines);
    OpenRunRegroup([ListItem(lines[0])], Items(rest[..m]), Rendered(rest[m..]), WrapFrom(rest, true));
  }

  /** How the run of list lines and its items unfold at a list line. */
  lemma OpenRunParts(lines: seq<string>)
    requires lines != [] && IsListLine(lines[0])
    ensures var rest, item := lines[1..], [ListItem(lines[0])];
            var n, m := ListRun(lines), ListRun(rest);
            && n == 1 + m && lines[n..] == rest[m..]
            && Items(lines[..n]) == item + Items(rest[..m])
  {
    RunHead(lines);
    ItemsCons(lines, ListRun(lines));
  }

  /** A run that starts at a list line is that line and the run after it. */
  lemma RunHead(lines: seq<string>)
    requires lines != [] && IsListLine(lines[0])
    ensures var rest := lines[1..];
            var n, m := ListRun(lines), ListRun(rest);
            n == 1 + m && rest[..m] == lines[1..n] && rest[m..] == lines[n..]
  {
  }

  /** How the loop unfolds at a list line, with a list open or not. */
  lemma OpenRunUnfold(lines: seq<string>)
    requires lines != [] && IsListLine(lines[0])
    ensures WrapFrom(lines, true) == [ListItem(lines[0])] + WrapFrom(lines[1..], true)
    ensures Emit(lines[0], false) == ["<ul>"] + [ListItem(lines[0])]
  {
  }

  /** How the reference rendering unfolds at a list line. */
  lemma RenderedUnfold(lines: seq<string>)
    requires lines != [] && IsListLine(lines[0])
    ensures var n := ListRun(lines);
            Rendered(lines) == ["<ul>"] + Items(lines[..n]) + ["</ul>"] + Rendered(lines[n..])
  {
  }

  /** The regrouping behind `OpenRunStep`: a run's items, its close and what follows, with one item more in front. */
  lemma OpenRunRegroup(item: seq<string>, items: seq<string>, after: seq<string>, w: seq<string>)
    requires w == items + ["</ul>"] + after
    ensures item + w == (item + items) + ["</ul>"] + after
    ensures (["<ul>"] + item) + w == ["<ul>"] + (item + items) + ["</ul>"] + after
  {
    AppendAssoc(item, items + ["</ul>"], after);
    AppendAssoc(item, items, ["</ul>"]);
    Regroup(["<ul>"], item, items, ["</ul>"], after);
  }

  lemma ItemsCons(lines: seq<string>, n: nat)
    requires 1 <= n <= |lines|
    ensures Items(lines[..n]) == [ListItem(lines[0])] + Items(lines[1..n])
  {
    assert forall i :: 1 <= i < n ==> lines[1..n][i - 1] == lines[..n][i];
  }

  lemma Regroup<T>(x: seq<T>, a: seq<T>, b: seq<T>, c: seq<T>, d: seq<T>)
    ensures (x + a) + ((b + c) + d) == ((x + (a + b)) + c) + d
  {
  }

  /** A line that is not a list line closes the open list and is kept. */
  lemma ClosedRunStep(lines: seq<string>)
    requires lines != [] && !IsListLine(lines[0])
    requires Wrapped(lines[1..]) == Rendered(lines[1..])
    ensures WrapFrom(lines, true) == Items(lines[..ListRun(lines)]) + ["</ul>"] + Rendered(lines[ListRun(lines)..])
  {
    var l, tail := lines[0], Rendered(lines[1..]);
    assert ListRun(lines) == 0;
    assert lines[0..] == lines;
    assert Rendered(lines) == [l] + tail;
    assert Emit(l, true) == ["</ul>", l];
    assert WrapFrom(lines, true) == ["</ul>", l] + tail;
    CloseThenKeep(Items(lines[..0]), "</ul>", l, tail);
  }

  lemma CloseThenKeep<T>(e: seq<T>, c: T, l: T, tail: seq<T>)
    requires |e| == 0
    ensures [c, l] + tail == e + [c] + ([l] + tail)
  {
  }

  /** Number of runs of list lines in `lines`, counting a leading run only if no list is already open. */
  function RunStarts(lines: seq<string>, inList: bool): nat
    decreases |lines|
  {
    if lines == [] then 0
    else
      var isList := IsListLine(lines[0]);
      (if isList && !inList then 1 else 0) + RunStarts(lines[1..], isList)
  }

  function Count(xs: seq<string>, x: string): nat
  {
    if xs == [] then 0 else (if xs[0] == x then 1 else 0) + Count(xs[1..], x)
  }

  lemma {:induction false} CountAppend(a: seq<string>, b: seq<string>, x: string)
    ensures Count(a + b, x) == Count(a, x) + Count(b, x)
  {
    if a == [] {
      assert a + b == b;
    } else {
      assert (a + b)[0] == a[0] && (a + b)[1..] == a[1..] + b;
      CountAppend(a[1..], b, x);
    }
  }

  /** Each run adds two lines, its `<ul>` and its `</ul>`; a list already open adds its close. */
  lemma {:induction false} WrapLength(lines: seq<string>, inList: bool)
    ensures |WrapFrom(lines, inList)| == |lines| + 2 * RunStarts(lines, inList) + (if inList then 1 else 0)
    decreases |lines|
  {
    if lines != [] {
      WrapLength(lines[1..], IsListLine(lines[0]));
    }
  }

  lemma CountOne(x: string, y: string)
    ensures Count([x], y) == if x == y then 1 else 0
  {
    assert [x][1..] == [];
  }

  lemma EmitCounts(line: string, inList: bool)
    requires line != "<ul>" && line != "</ul>"
    ensures Count(Emit(line, inList), "<ul>") == if IsListLine(line) && !inList then 1 else 0
    ensures Count(Emit(line, inList), "</ul>") == if !IsListLine(line) && inList then 1 else 0
  {
    var item := ListItem(line);
    var x := if IsListLine(line) then item else line;
    var pre := if IsListLine(line) then (if inList then [] else ["<ul>"]) else (if inList then ["</ul>"] else []);
    if IsListLine(line) {
      assert item[..4] == "<li>";
      assert item != "<ul>" && item != "</ul>";
    }
    assert Emit(line, inList) == pre + [x];
    CountAppend(pre, [x], "<ul>");
    CountAppend(pre, [x], "</ul>");
    CountOne(x, "<ul>");
    CountOne(x, "</ul>");
    if pre != [] {
      CountOne(pre[0], "<ul>");
      CountOne(pre[0], "</ul>");
    }
  }

  /**
   * When no input line is itself a marker, the output holds one `<ul>` per
   * run and as many `</ul>` (plus the close of a list already open).
   */
  lemma {:induction false} WrapCounts(lines: seq<string>, inList: bool)
    requires forall i :: 0 <= i < |lines| ==> lines[i] != "<ul>" && lines[i] != "</ul>"
    ensures Count(WrapFrom(lines, inList), "<ul>") == RunStarts(lines, inList)
    ensures Count(WrapFrom(lines, inList), "</ul>") == RunStarts(lines, inList) + (if inList then 1 else 0)
    decreases |lines|
  {
    if lines != [] {
      var l, rest := lines[0], lines[1..];
      assert forall i :: 0 <= i < |rest| ==> rest[i] == lines[i + 1];
      WrapCounts(rest, IsListLine(l));
      EmitCounts(l, inList);
      CountAppend(Emit(l, inList), WrapFrom(rest, IsListLine(l)), "<ul>");
      CountAppend(Emit(l, inList), WrapFrom(rest, IsListLine(l)), "</ul>");
    }
  }

  /** A line that is not a list line is emitted unchanged, so text without list lines and asterisks is unchanged. */
  lemma {:induction false} WrapNoLists(lines: seq<string>)
    requires forall i :: 0 <= i < |lines| ==> !IsListLine(lines[i])
    ensures Wrapped(lines) == lines
    decreases |lines|
  {
    if lines != [] {
      WrapNoLists(lines[1..]);
    }
  }

  lemma PlainTextUnchanged(text: string)
    requires '*' !in text
    requires forall i :: 0 <= i < |Split(text, '\n')| ==> !IsListLine(Split(text, '\n')[i])
    ensures Join(Wrapped(Split(Bold(text), '\n')), "\n") == text
  {
    BoldNoStars(text);
    WrapNoLists(Split(text, '\n'));
    JoinSplit(text, '\n');
  }

  /** A line that opens with a bold span: the whole text does, and its rewrite opens with `<strong>`. */
  lemma BoldFirstLine(s: string, x: string)
    requires x != [] && '*' !in x
    requires StartsWith(Split(s, '\n')[0], "**" + x + "**")
    ensures Split(Bold(s), '\n')[0] != [] && Split(Bold(s), '\n')[0][0] == '<'
  {
    SplitFirstIsPrefix(s, '\n');
    var rest := s[|x| + 4..];
    assert s[..|x| + 4] == Split(s, '\n')[0][..|x| + 4];
    assert s == "**" + x + "**" + rest;
    BoldRewrites(x, rest);
    var b := Bold(s);
    assert b[0] == '<';
  }

  /**
   * The lines of a text that opens with the span `**g**` (with `g` free of
   * `*`) against those of its rewrite, `<strong>g</strong>` followed by `r`:
   * a later line opening with `*` is either the one where the span closes,
   * which the rewrite opens with `</strong>`, or a line of what follows.
   */
  lemma SpanLines(g: string, t: string, r: string, k: nat)
    requires '*' !in g
    requires 1 <= k < |Split("**" + g + "**" + t, '\n')|
    requires Split("**" + g + "**" + t, '\n')[k] != [] && Split("**" + g + "**" + t, '\n')[k][0] == '*'
    ensures var G, L, R := Split(g, '\n'), Split("**" + g + "**" + t, '\n'), Split("<strong>" + g + "</strong>" + r, '\n');
            |L| == |G| + |Split(t, '\n')| - 1 && |R| == |G| + |Split(r, '\n')| - 1
            && k >= |G| - 1
            && (k == |G| - 1 ==> k < |R| && R[k] != [] && R[k][0] == '<')
            && (k > |G| - 1 ==> L[k] == Split(t, '\n')[k - |G| + 1]
                                && (k - |G| + 1 < |Split(r, '\n')| ==> k < |R| && R[k] == Split(r, '\n')[k - |G| + 1]))
  {
    var G := Split(g, '\n');
    SplitAround("**", g, "**", t, '\n');
    SplitAround("<strong>", g, "</strong>", r, '\n');
    GlueAround("**", G, "**", Split(t, '\n'));
    GlueAround("<strong>", G, "</strong>", Split(r, '\n'));
    SplitKeepsOut(g, '\n', '*');
    assert k >= |G| - 1;
  }

  /**
   * The bold pass keeps the line structure: a line of the text that opens
   * with a bold span opens, in the rewritten text, with a tag: `<strong>`, or
   * `</strong>` when a span from an earlier line closes where it starts.
   */
  lemma {:induction false} BoldLineOpensWithTag(s: string, k: nat, x: string)
    requires x != [] && '*' !in x
    requires k < |Split(s, '\n')| && StartsWith(Split(s, '\n')[k], "**" + x + "**")
    ensures k < |Split(Bold(s), '\n')|
    ensures Split(Bold(s), '\n')[k] != [] && Split(Bold(s), '\n')[k][0] == '<'
    decreases |s|, 1
  {
    if k == 0 {
      BoldFirstLine(s, x);
    } else {
      assert s != [];
      match BoldSpan(s)
      case None => BoldLineAfterChar(s, k, x);
      case Some(n) => BoldLineAfterSpan(s, n, k, x);
    }
  }

  /** The induction step when the scan copies one character. */
  lemma {:induction false} BoldLineAfterChar(s: string, k: nat, x: string)
    requires x != [] && '*' !in x
    requires s != [] && BoldSpan(s).None? && 1 <= k
    requires k < |Split(s, '\n')| && StartsWith(Split(s, '\n')[k], "**" + x + "**")
    ensures k < |Split(Bold(s), '\n')|
    ensures Split(Bold(s), '\n')[k] != [] && Split(Bold(s), '\n')[k][0] == '<'
    decreases |s|, 0
  {
    var t := s[1..];
    assert s == [s[0]] + t && Bold(s) == [s[0]] + Bold(t);
    SplitCons(s[0], t, '\n', k);
    SplitCons(s[0], Bold(t), '\n', k);
    BoldLineOpensWithTag(t, if s[0] == '\n' then k - 1 else k, x);
  }

  /** A text that opens with a span, cut into the span's text and what follows, before and after the bold pass. */
  lemma SpanParts(s: string, n: nat)
    requires BoldSpan(s) == Some(n)
    ensures var g, t := s[2..2 + n], s[4 + n..];
            s == "**" + g + "**" + t && '*' !in g && Bold(s) == "<strong>" + g + "</strong>" + Bold(t)
  {
    var g := s[2..2 + n];
    assert s == s[..2] + g + s[2 + n..4 + n] + s[4 + n..];
    assert forall i :: 0 <= i < n ==> g[i] == s[2 + i];
  }

  /** The induction step when the scan rewrites a span of `n` characters. */
  lemma {:induction false} BoldLineAfterSpan(s: string, n: nat, k: nat, x: string)
    requires x != [] && '*' !in x
    requires BoldSpan(s) == Some(n) && 1 <= k
    requires k < |Split(s, '\n')| && StartsWith(Split(s, '\n')[k], "**" + x + "**")
    ensures k < |Split(Bold(s), '\n')|
    ensures Split(Bold(s), '\n')[k] != [] && Split(Bold(s), '\n')[k][0] == '<'
    decreases |s|, 0
  {
    var g, t := s[2..2 + n], s[4 + n..];
    SpanParts(s, n);
    SpanLines(g, t, Bold(t), k);
    var m := |Split(g, '\n')|;
    if k > m - 1 {
      BoldLineOpensWithTag(t, k - m + 1, x);
    }
  }

  /** A line that opens with a bold span is never taken for a list line, whichever line of the text it is. */
  lemma BoldLineNotListed(text: string, k: nat, x: string)
    requires x != [] && '*' !in x
    requires k < |Split(text, '\n')| && StartsWith(Split(text, '\n')[k], "**" + x + "**")
    ensures k < |Split(Bold(text), '\n')|
    ensures Split(Bold(text), '\n')[k] != [] && Split(Bold(text), '\n')[k][0] == '<'
    ensures !IsListLine(Split(Bold(text), '\n')[k])
  {
    BoldLineOpensWithTag(text, k, x);
  }

  // ---------------------------------------------------------------------------
  // The send guard
  // ---------------------------------------------------------------------------

  /** `sendMessage`: the trimmed input is sent unless it is empty, that is unless the input is all white space. */
  function Outgoing(input: string): (r: Option<string>)
    ensures r.None? <==> forall i :: 0 <= i < |input| ==> JsIsSpace(input[i])
    ensures r.Some? ==> r.value == JsTrim(input) && r.value != []
    ensures r.Some? ==> !JsIsSpace(r.value[0]) && !JsIsSpace(r.value[|r.value| - 1])
  {
    StripWithEmpty(input, JsIsSpace);
    var t := JsTrim(input);
    if t == [] then None else Some(t)
  }
}
