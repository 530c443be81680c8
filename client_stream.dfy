/**
 * The chat page's reading of the reply stream (the loop inside `push` in
 * frontend/static/script.js): the received text is cut at blank-line
 * boundaries into frames, the JSON of each `data:` frame is parsed, and its
 * token, if any, is appended to the bot's reply text.
 */
module ClientStream {
  import opened Wrappers
  import opened Text
  import Json
  import Chat

  // ---------------------------------------------------------------------------
  // The boundary expression /\r\n\r\n|\n\n|\r\r|(\r\n|\n|\r){2,}/
  // ---------------------------------------------------------------------------

  /** A character the expression's `\r` or `\n` matches. */
  predicate IsBreak(c: char) { c == '\r' || c == '\n' }

  /** One `(\r\n|\n|\r)` of length `len` at `i`. */
  predicate LineBreakAt(s: string, i: int, len: int)
  {
    0 <= i && ((len == 2 && OccursAt(s, "\r\n", i)) || (len == 1 && i < |s| && IsBreak(s[i])))
  }

  /** Two `(\r\n|\n|\r)` in a row, of lengths `l1` and `l2`, start at `i`. */
  predicate TwoBreaksAt(s: string, i: int, l1: int, l2: int)
  {
    LineBreakAt(s, i, l1) && LineBreakAt(s, i + l1, l2)
  }

  /** Some alternative of the expression matches at `i`; the repetition needs two line breaks at least. */
  ghost predicate PatternAt(s: string, i: int)
  {
    OccursAt(s, "\r\n\r\n", i) || OccursAt(s, "\n\n", i) || OccursAt(s, "\r\r", i)
    || exists l1, l2 | 1 <= l1 <= 2 && 1 <= l2 <= 2 :: TwoBreaksAt(s, i, l1, l2)
  }

  /** Two line-break characters in a row start at `i`. */
  predicate BoundaryAt(s: string, i: int)
  {
    0 <= i && i + 1 < |s| && IsBreak(s[i]) && IsBreak(s[i + 1])
  }

  /** The expression matches at `i` exactly when two line-break characters start there. */
  lemma PatternIsBoundary(s: string, i: int)
    ensures PatternAt(s, i) <==> BoundaryAt(s, i)
  {
    if BoundaryAt(s, i) {
      assert TwoBreaksAt(s, i, 1, 1);
    }
    if OccursAt(s, "\r\n\r\n", i) {
      assert s[i] == s[i..i + 4][0] && s[i + 1] == s[i..i + 4][1];
    } else if OccursAt(s, "\n\n", i) || OccursAt(s, "\r\r", i) {
      assert s[i] == s[i..i + 2][0] && s[i + 1] == s[i..i + 2][1];
    } else if exists l1, l2 | 1 <= l1 <= 2 && 1 <= l2 <= 2 :: TwoBreaksAt(s, i, l1, l2) {
      var l1, l2 :| 1 <= l1 <= 2 && 1 <= l2 <= 2 && TwoBreaksAt(s, i, l1, l2);
      if l1 == 2 {
        assert s[i] == s[i..i + 2][0] && s[i + 1] == s[i..i + 2][1];
      } else if l2 == 2 {
        assert OccursAt(s, "\r\n", i + 1);
        assert s[i + 1] == s[i + 1..i + 3][0];
      }
    }
  }

  function BoundaryFrom(s: string, from: nat): (r: int)
    decreases |s| - from
    ensures r == -1 || (from <= r && BoundaryAt(s, r))
  {
    if from + 1 >= |s| then -1
    else if IsBreak(s[from]) && IsBreak(s[from + 1]) then from
    else BoundaryFrom(s, from + 1)
  }

  lemma {:induction false} BoundaryFromFirst(s: string, from: nat)
    ensures var r := BoundaryFrom(s, from);
            forall j :: from <= j && (r == -1 || j < r) ==> !BoundaryAt(s, j)
    decreases |s| - from
  {
    if from + 1 < |s| && !(IsBreak(s[from]) && IsBreak(s[from + 1])) {
      BoundaryFromFirst(s, from + 1);
    }
  }

  /** `buffer.search(sseBoundaryRegex)`: where the leftmost boundary starts, or -1. */
  function Search(s: string): (r: int)
    ensures r == -1 || BoundaryAt(s, r)
  {
    BoundaryFrom(s, 0)
  }

  /** The search finds the leftmost boundary, and -1 only when there is none. */
  lemma SearchFindsFirst(s: string)
    ensures Search(s) == -1 <==> forall j :: !BoundaryAt(s, j)
    ensures Search(s) != -1 ==> forall j :: j < Search(s) ==> !BoundaryAt(s, j)
  {
    BoundaryFromFirst(s, 0);
  }

  /** A boundary at `i` with none before it is what the search returns. */
  lemma SearchAt(s: string, i: int)
    requires BoundaryAt(s, i)
    requires forall j :: 0 <= j < i ==> !BoundaryAt(s, j)
    ensures Search(s) == i
  {
    SearchFindsFirst(s);
  }

  /** Length of the run of line-break characters at the head of `s`. */
  function BreakRun(s: string): (n: nat)
    ensures n <= |s| && (s != [] && IsBreak(s[0]) ==> n >= 1)
  {
    if s == [] || !IsBreak(s[0]) then 0 else 1 + BreakRun(s[1..])
  }

  /** The run holds line breaks only, and the character after it is not one. */
  lemma {:induction false} BreakRunFacts(s: string)
    ensures var n := BreakRun(s);
            (n == |s| || !IsBreak(s[n])) && forall k :: 0 <= k < n ==> IsBreak(s[k])
  {
    if s != [] && IsBreak(s[0]) {
      BreakRunFacts(s[1..]);
      var n := BreakRun(s);
      forall k | 0 < k < n ensures IsBreak(s[k]) {
        assert s[k] == s[1..][k - 1];
      }
      if n < |s| {
        assert s[n] == s[1..][n - 1];
      }
    }
  }

  /**
   * `boundaryMatch[0].length`: the first alternative that matches at `i`
   * decides; the greedy repetition, every line-break character being one
   * `(\r\n|\n|\r)`, takes the whole run.
   */
  function MatchLength(s: string, i: nat): (n: nat)
    requires BoundaryAt(s, i)
    ensures 2 <= n && i + n <= |s|
  {
    if OccursAt(s, "\r\n\r\n", i) then 4
    else if OccursAt(s, "\n\n", i) || OccursAt(s, "\r\r", i) then 2
    else
      assert s[i..][0] == s[i] && s[i..][1..][0] == s[i + 1];
      BreakRun(s[i..])
  }

  /** What the expression matches is line breaks only. */
  lemma MatchLengthBreaks(s: string, i: nat)
    requires BoundaryAt(s, i)
    ensures forall k :: i <= k < i + MatchLength(s, i) ==> IsBreak(s[k])
  {
    var n := MatchLength(s, i);
    if OccursAt(s, "\r\n\r\n", i) {
      forall k | i <= k < i + n ensures IsBreak(s[k]) {
        assert s[k] == s[i..i + 4][k - i];
      }
    } else if !(OccursAt(s, "\n\n", i) || OccursAt(s, "\r\r", i)) {
      BreakRunFacts(s[i..]);
      forall k | i <= k < i + n ensures IsBreak(s[k]) {
        assert s[k] == s[i..][k - i];
      }
    }
  }

  // ---------------------------------------------------------------------------
  // Cutting the buffer into frames
  // ---------------------------------------------------------------------------

  /** A frame's text and the boundary that ended it. */
  datatype Piece = Piece(message: string, boundary: string)

  /** One cut: the text before the leftmost boundary, that boundary, and the buffer after it. */
  function NextCut(buffer: string): (r: Option<(Piece, string)>)
    ensures r.Some? ==> |r.value.1| < |buffer|
  {
    var i := Search(buffer);
    if i == -1 then None
    else
      var n := MatchLength(buffer, i);
      Some((Piece(buffer[..i], buffer[i..i + n]), buffer[i + n..]))
  }

  /** A cut loses nothing: frame, boundary and rest spell the buffer, and the boundary is two or more line breaks. */
  lemma NextCutSplits(buffer: string)
    ensures var r := NextCut(buffer);
            r.Some? ==> r.value.0.message + r.value.0.boundary + r.value.1 == buffer
                        && IsBoundaryText(r.value.0.boundary)
  {
    var i := Search(buffer);
    if i != -1 {
      var n := MatchLength(buffer, i);
      assert buffer[..i] + buffer[i..i + n] + buffer[i + n..] == buffer;
      MatchLengthBreaks(buffer, i);
      var b := buffer[i..i + n];
      forall k | 0 <= k < |b| ensures IsBreak(b[k]) {
        assert b[k] == buffer[i + k];
      }
    }
  }

  /** No boundary anywhere in `s`. */
  predicate NoBoundary(s: string)
  {
    forall i | 0 <= i < |s| :: !BoundaryAt(s, i)
  }

  /** What the expression can match: two or more line-break characters. */
  predicate IsBoundaryText(b: string)
  {
    |b| >= 2 && forall k :: 0 <= k < |b| ==> IsBreak(b[k])
  }

  /** A cut happens exactly when the buffer holds a boundary, and the cut-off frame holds none. */
  lemma NextCutFacts(buffer: string)
    ensures NextCut(buffer).None? <==> NoBoundary(buffer)
    ensures NextCut(buffer).Some? ==> NoBoundary(NextCut(buffer).value.0.message)
  {
    SearchFindsFirst(buffer);
    var i := Search(buffer);
    if i != -1 {
      var message := buffer[..i];
      forall j | BoundaryAt(message, j) ensures false {
        assert BoundaryAt(buffer, j) && j < i;
      }
    }
  }

  /** The frames the loop cuts from `buffer`, in order. */
  function Pieces(buffer: string): seq<Piece>
    decreases |buffer|
  {
    match NextCut(buffer)
    case None => []
    case Some((p, rest)) => [p] + Pieces(rest)
  }

  /** What stays in the buffer when no boundary is left. */
  function Remainder(buffer: string): string
    decreases |buffer|
  {
    match NextCut(buffer)
    case None => buffer
    case Some((_, rest)) => Remainder(rest)
  }

  function Glue(ps: seq<Piece>): string
  {
    if ps == [] then "" else ps[0].message + ps[0].boundary + Glue(ps[1..])
  }

  /** Nothing is lost or reordered: the frames with their boundaries, then the remainder, spell the buffer. */
  lemma {:induction false} DrainReassembles(buffer: string)
    ensures Glue(Pieces(buffer)) + Remainder(buffer) == buffer
    decreases |buffer|
  {
    match NextCut(buffer)
    case None =>
    case Some((p, rest)) =>
      NextCutSplits(buffer);
      DrainReassembles(rest);
      var ps := Pieces(buffer);
      assert ps[0] == p && ps[1..] == Pieces(rest);
      AppendAssoc(p.message + p.boundary, Glue(Pieces(rest)), Remainder(rest));
  }

  /** The loop stops with no boundary left in the buffer. */
  lemma {:induction false} DrainLeavesNoBoundary(buffer: string)
    ensures NoBoundary(Remainder(buffer))
    decreases |buffer|
  {
    match NextCut(buffer)
    case None => NextCutFacts(buffer);
    case Some((_, rest)) => DrainLeavesNoBoundary(rest);
  }

  /** Every frame cut off holds no boundary, and every boundary cut is two or more line breaks. */
  lemma {:induction false} FramesWellCut(buffer: string)
    ensures var ps := Pieces(buffer);
            forall k :: 0 <= k < |ps| ==> NoBoundary(ps[k].message) && IsBoundaryText(ps[k].boundary)
    decreases |buffer|
  {
    match NextCut(buffer)
    case None =>
    case Some((p, rest)) =>
      NextCutFacts(buffer);
      NextCutSplits(buffer);
      FramesWellCut(rest);
      var ps := Pieces(buffer);
      forall k | 0 <= k < |ps| ensures NoBoundary(ps[k].message) && IsBoundaryText(ps[k].boundary) {
        if k > 0 {
          assert ps[k] == Pieces(rest)[k - 1];
        }
      }
  }

  // ---------------------------------------------------------------------------
  // What a frame contributes
  // ---------------------------------------------------------------------------

  /** A trimmed text that starts with `data:` comes from a text that contains `data:`. */
  lemma DataFound(message: string)
    requires StartsWith(JsTrim(message), "data:")
    ensures IndexOf(message, "data:") != -1
  {
    StripWithSlice(message, JsIsSpace);
    var t := JsTrim(message);
    var a := |message| - |LStripWith(message, JsIsSpace)|;
    assert message[a..a + 5] == t[..5];
    assert OccursAt(message, "data:", a);
  }

  /**
   * The token a frame adds to the reply: for a frame whose trimmed text starts
   * with `data:`, the text after the first `data:`, trimmed, is parsed; an
   * object with a non-empty `token` contributes it. Every other frame, an
   * empty `data:`, a parse failure, the `end` event and an error object add
   * nothing.
   */
  function FrameToken(message: string): (r: Option<string>)
    ensures r.Some? ==> r.value != [] && StartsWith(JsTrim(message), "data:")
  {
    if !StartsWith(JsTrim(message), "data:") then None
    else
      DataFound(message);
      var json := JsTrim(message[IndexOf(message, "data:") + 5..]);
      if json == [] then None
      else match Json.Parse(json)
        case Some(p) => if p.key == "token" && p.value != [] then Some(p.value) else None
        case None => None
  }

  function TokenOf(message: string): string
  {
    match FrameToken(message)
    case Some(t) => t
    case None => ""
  }

  /** The reply text the frames add, in frame order. */
  function Collected(ps: seq<Piece>): string
  {
    if ps == [] then "" else TokenOf(ps[0].message) + Collected(ps[1..])
  }

  // ---------------------------------------------------------------------------
  // The loop, with the search repeated after every frame
  // ---------------------------------------------------------------------------

  /**
   * The buffer-draining loop of `push`, searching again after every frame:
   * it leaves the remainder in the buffer and appends the frames' tokens to
   * the reply text.
   */
  method DrainBuffer(buffer: string, text: string) returns (rest: string, newText: string)
    ensures rest == Remainder(buffer) && newText == text + Collected(Pieces(buffer))
  {
    rest, newText := buffer, text;
    var searchResult := Search(rest);
    while searchResult != -1
      invariant searchResult == Search(rest)
      invariant Remainder(rest) == Remainder(buffer)
      invariant newText + Collected(Pieces(rest)) == text + Collected(Pieces(buffer))
      decreases |rest|
    {
      ghost var before, textBefore := rest, newText;
      var boundaryLength := MatchLength(rest, searchResult);
      var message := rest[..searchResult];
      rest := rest[searchResult + boundaryLength..];
      DrainStepText(before, searchResult, boundaryLength, textBefore);
      var token := FrameToken(message);
      if token.Some? {
        newText := newText + token.value;
      }
      assert newText == textBefore + TokenOf(message);
      searchResult := Search(rest);
    }
  }

  /** One pass of the loop takes the first frame off the drain. */
  lemma DrainStep(b: string, i: int, n: nat)
    requires i == Search(b) && i != -1 && n == MatchLength(b, i)
    ensures Pieces(b) == [Piece(b[..i], b[i..i + n])] + Pieces(b[i + n..])
    ensures Remainder(b) == Remainder(b[i + n..])
  {
    assert NextCut(b) == Some((Piece(b[..i], b[i..i + n]), b[i + n..]));
  }

  /** The drain's totals after one pass: the frame's token moves from the frames still to read into the text. */
  lemma DrainStepText(b: string, i: int, n: nat, t: string)
    requires i == Search(b) && i != -1 && n == MatchLength(b, i)
    ensures t + Collected(Pieces(b)) == (t + TokenOf(b[..i])) + Collected(Pieces(b[i + n..]))
    ensures Remainder(b) == Remainder(b[i + n..])
  {
    DrainStep(b, i, n);
    CollectedCons(Piece(b[..i], b[i..i + n]), Pieces(b[i + n..]));
    AppendAssoc(t, TokenOf(b[..i]), Collected(Pieces(b[i + n..])));
  }

  lemma CollectedCons(p: Piece, ps: seq<Piece>)
    ensures Collected([p] + ps) == TokenOf(p.message) + Collected(ps)
  {
    assert ([p] + ps)[1..] == ps;
  }

  // ---------------------------------------------------------------------------
  // The loop as written: the search is repeated only after a `data:` frame
  // ---------------------------------------------------------------------------

  function Clamp(x: int, len: nat): (r: nat)
    ensures r <= len
  {
    if x < 0 then 0 else if x > len then len else x
  }

  /** JavaScript's `s.substring(start, end)`: both ends clamped into the string and swapped when reversed. */
  function Substring(s: string, start: int, end: int): (r: string)
    ensures |r| <= |s|
  {
    var a, b := Clamp(start, |s|), Clamp(end, |s|);
    if a <= b then s[a..b] else s[b..a]
  }

  /** What the `while` loop carries from one pass to the next. */
  datatype LoopState = LoopState(buffer: string, searchResult: int)

  /**
   * One pass of the loop body as written: the boundary length is taken from
   * the current buffer, but `searchResult` is refreshed only inside the
   * `data:` branch, so after any other frame the next pass cuts the new
   * buffer at the old position.
   */
  function WrittenStep(st: LoopState): LoopState
    requires st.searchResult != -1
  {
    var found := Search(st.buffer);
    var boundaryLength := if found != -1 then MatchLength(st.buffer, found) else 2;
    var message := Substring(st.buffer, 0, st.searchResult);
    var buffer := Substring(st.buffer, st.searchResult + boundaryLength, |st.buffer|);
    if StartsWith(JsTrim(message), "data:") then LoopState(buffer, Search(buffer))
    else LoopState(buffer, st.searchResult)
  }

  /** On a `data:` frame the written pass is the corrected one: same cut, fresh search. */
  lemma WrittenStepOnDataFrame(buffer: string)
    requires NextCut(buffer).Some? && StartsWith(JsTrim(NextCut(buffer).value.0.message), "data:")
    ensures var rest := NextCut(buffer).value.1;
            WrittenStep(LoopState(buffer, Search(buffer))) == LoopState(rest, Search(rest))
  {
    var i := Search(buffer);
    var n := MatchLength(buffer, i);
    var message, rest := buffer[..i], buffer[i + n..];
    assert NextCut(buffer).value == (Piece(message, buffer[i..i + n]), rest);
    assert Substring(buffer, 0, i) == message;
    assert Substring(buffer, i + n, |buffer|) == rest;
    assert StartsWith(JsTrim(message), "data:");
  }

  /** A buffer that starts with a frame free of line breaks and a blank line is cut right after that frame. */
  lemma FrameCut(b: string, m: string)
    requires |m| + 2 <= |b| && b[..|m|] == m && b[|m|] == '\n' && b[|m| + 1] == '\n'
    requires forall i :: 0 <= i < |m| ==> !IsBreak(m[i])
    ensures Search(b) == |m| && MatchLength(b, |m|) == 2
    ensures NextCut(b) == Some((Piece(m, "\n\n"), b[|m| + 2..]))
  {
    assert BoundaryAt(b, |m|);
    forall j | 0 <= j < |m| ensures !BoundaryAt(b, j) {
      assert b[j] == b[..|m|][j];
    }
    SearchAt(b, |m|);
    assert !OccursAt(b, "\r\n\r\n", |m|) by {
      if |m| + 4 <= |b| {
        assert b[|m|..|m| + 4][0] == b[|m|];
      }
    }
    assert b[|m|..|m| + 2] == "\n\n";
  }

  /**
   * A buffer holding one frame that is not a `data:` frame (an SSE comment
   * such as `: ping`, say) empties the buffer but keeps the old position, and
   * from then on every pass leaves the state as it is: the loop never ends.
   */
  lemma WrittenLoopSpins(m: string)
    requires forall i :: 0 <= i < |m| ==> !IsBreak(m[i])
    requires !StartsWith(JsTrim(m), "data:")
    ensures var b := m + "\n\n";
            Search(b) == |m|
            && WrittenStep(LoopState(b, |m|)) == LoopState("", |m|)
            && WrittenStep(LoopState("", |m|)) == LoopState("", |m|)
  {
    var b := m + "\n\n";
    assert b[..|m|] == m;
    FrameCut(b, m);
    assert Substring(b, 0, |m|) == m;
    assert Substring(b, |m| + 2, |b|) == [];
    assert Substring([], 0, |m|) == [];
    StripWithEmpty([], JsIsSpace);
  }

  /** The comment frame `: ping` followed by a blank line sends the written loop into its endless pass. */
  lemma PingFrameSpins()
    ensures Search(": ping\n\n") == 6
    ensures WrittenStep(LoopState(": ping\n\n", 6)) == LoopState("", 6)
    ensures WrittenStep(LoopState("", 6)) == LoopState("", 6)
  {
    var m := ": ping";
    StripWithUnchanged(m, JsIsSpace);
    WrittenLoopSpins(m);
  }

  // ---------------------------------------------------------------------------
  // Reading what the server sends
  // ---------------------------------------------------------------------------

  function Concat(ss: seq<string>): string
  {
    if ss == [] then "" else ss[0] + Concat(ss[1..])
  }

  /** The text an event adds to the reply on the page. */
  function EventText(e: Chat.StreamEvent): string
  {
    if e.Token? then e.text else ""
  }

  function EventTexts(events: seq<Chat.StreamEvent>): seq<string>
  {
    seq(|events|, i requires 0 <= i < |events| => EventText(events[i]))
  }

  /** A white-space character in front of a string already stripped at both ends is what trimming removes. */
  lemma TrimLeading(c: char, j: string)
    requires JsIsSpace(c) && j != [] && !JsIsSpace(j[0]) && !JsIsSpace(j[|j| - 1])
    ensures JsTrim([c] + j) == j
  {
    assert ([c] + j)[1..] == j;
    assert LStripWith([c] + j, JsIsSpace) == j;
    StripWithUnchanged(j, JsIsSpace);
  }

  /** A frame `data: <j>` whose text has no line break, and a blank line, is cut off whole, whatever follows. */
  lemma DataFrameCut(j: string, rest: string)
    requires forall i :: 0 <= i < |j| ==> !IsBreak(j[i])
    ensures NextCut("data: " + j + "\n\n" + rest) == Some((Piece("data: " + j, "\n\n"), rest))
  {
    var m := "data: " + j;
    var b := m + "\n\n" + rest;
    assert b == m + ("\n\n" + rest);
    assert b[..|m|] == m && b[|m| + 2..] == rest;
    forall i | 0 <= i < |m| ensures !IsBreak(m[i]) {
      if i >= 6 { assert m[i] == j[i - 6]; }
    }
    FrameCut(b, m);
  }

  /** The client cuts a server frame off whole, whatever follows it. */
  lemma ServerFrameCut(e: Chat.StreamEvent, rest: string)
    ensures NextCut(Chat.Frame(e) + rest)
            == Some((Piece("data: " + Json.Encode(Chat.PayloadOf(e)), "\n\n"), rest))
  {
    var j := Json.Encode(Chat.PayloadOf(e));
    Json.EncodePrintable(Chat.PayloadOf(e));
    DataFrameCut(j, rest);
  }

  /** A `data:` frame carrying a JSON object adds its token when the object is a non-empty `token`, and nothing otherwise. */
  lemma DataFrameToken(j: string, p: Json.Payload)
    requires |j| >= 2 && j[0] == '{' && j[|j| - 1] == '}' && Json.Parse(j) == Some(p)
    ensures FrameToken("data: " + j) == if p.key == "token" && p.value != [] then Some(p.value) else None
  {
    DataFrameParts(j);
  }

  /** In a frame `data: <j>` with `j` stripped at both ends, the text after the field name trims down to `j`. */
  lemma DataFrameParts(j: string)
    requires j != [] && !JsIsSpace(j[0]) && !JsIsSpace(j[|j| - 1])
    ensures var m := "data: " + j;
            JsTrim(m) == m && StartsWith(m, "data:") && IndexOf(m, "data:") == 0 && JsTrim(m[5..]) == j
  {
    var m := "data: " + j;
    StripWithUnchanged(m, JsIsSpace);
    assert OccursAt(m, "data:", 0);
    assert m[5..] == [' '] + j;
    TrimLeading(' ', j);
  }

  /** A server frame adds its event's text: the token of a token event, nothing for the end or an error. */
  lemma ServerFrameToken(e: Chat.StreamEvent)
    ensures TokenOf("data: " + Json.Encode(Chat.PayloadOf(e))) == EventText(e)
  {
    var j := Json.Encode(Chat.PayloadOf(e));
    Chat.FrameLayout(e);
    Json.EncodePrintable(Chat.PayloadOf(e));
    DataFrameToken(j, Chat.PayloadOf(e));
  }

  /** The whole stream, read at once: every frame is taken, nothing remains, and the reply is the tokens in order. */
  lemma {:induction false} ReadServerStream(events: seq<Chat.StreamEvent>)
    ensures var stream := Concat(Chat.Frames(events));
            Remainder(stream) == "" && Collected(Pieces(stream)) == Concat(EventTexts(events))
    decreases |events|
  {
    if events == [] {
      assert Concat(Chat.Frames(events)) == "";
      assert NextCut("") == None;
    } else {
      var rest := Concat(Chat.Frames(events[1..]));
      FramesCons(events);
      TextsCons(events);
      ServerFrameCut(events[0], rest);
      ServerFrameToken(events[0]);
      CutStep(Chat.Frame(events[0]) + rest);
      CollectedCons(Piece("data: " + Json.Encode(Chat.PayloadOf(events[0])), "\n\n"), Pieces(rest));
      ReadServerStream(events[1..]);
    }
  }

  /** The reply of a non-empty run of events is the first event's text, then the rest's. */
  lemma TextsCons(events: seq<Chat.StreamEvent>)
    requires events != []
    ensures Concat(EventTexts(events)) == EventText(events[0]) + Concat(EventTexts(events[1..]))
  {
    assert EventTexts(events)[1..] == EventTexts(events[1..]);
  }

  /** The stream of a non-empty run of events is the first event's frame, then the rest's. */
  lemma FramesCons(events: seq<Chat.StreamEvent>)
    requires events != []
    ensures Concat(Chat.Frames(events)) == Chat.Frame(events[0]) + Concat(Chat.Frames(events[1..]))
  {
    var e, tail := events[0], events[1..];
    assert events == [e] + tail;
    Chat.FramesAppend([e], tail);
    assert Chat.Frames([e]) == [Chat.Frame(e)];
    ConcatFront(Chat.Frame(e), Chat.Frames(tail));
  }

  lemma ConcatFront(s: string, ss: seq<string>)
    ensures Concat([s] + ss) == s + Concat(ss)
  {
    assert ([s] + ss)[1..] == ss;
  }

  /** A cut takes its frame off the front of the drain. */
  lemma CutStep(b: string)
    requires NextCut(b).Some?
    ensures Pieces(b) == [NextCut(b).value.0] + Pieces(NextCut(b).value.1)
    ensures Remainder(b) == Remainder(NextCut(b).value.1)
  {
  }

  lemma {:induction false} ConcatAppend(a: seq<string>, b: seq<string>)
    ensures Concat(a + b) == Concat(a) + Concat(b)
  {
    if a == [] {
      assert a + b == b;
    } else {
      assert (a + b)[0] == a[0] && (a + b)[1..] == a[1..] + b;
      ConcatAppend(a[1..], b);
    }
  }

  /**
   * End to end: the page's reply text after reading a `/chat` response is
   * the upstream's displayable tokens joined in order, whether the stream
   * ended normally or with an error.
   */
  lemma ReplyIsTokens(up: Chat.Upstream)
    ensures var stream := Concat(Chat.Frames(Chat.Events(up)));
            Remainder(stream) == "" && Collected(Pieces(stream)) == Concat(Chat.Tokens(up.chunks))
  {
    var toks := Chat.Tokens(up.chunks);
    ReadServerStream(Chat.Events(up));
    EventTextsOfStream(up);
    ConcatAppend(toks, [""]);
    assert Concat([""]) == "";
  }

  /** A stream's events add its tokens, then nothing for the closing `end` or error event. */
  lemma EventTextsOfStream(up: Chat.Upstream)
    ensures EventTexts(Chat.Events(up)) == Chat.Tokens(up.chunks) + [""]
  {
  }
}
