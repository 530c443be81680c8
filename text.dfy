/**
 * Character classes and string operations of the two runtimes the system
 * runs on: Python (`str.isspace`, `str.strip`, `str.replace`, `str.join`)
 * and JavaScript (`String.prototype.trim`, the regular-expression class
 * `\s`, `indexOf`, `split`).  The two runtimes disagree on what counts as
 * white space, so both sets are written out.
 */
module Text {

  /** Python's `str.isspace`: bidirectional classes WS, B, S and category Zs. */
  predicate PyIsSpace(c: char) {
    c == ' ' || ('\t' <= c <= '\r') || ('\U{1C}' <= c <= '\U{1F}') || c == '\U{85}' || c == '\U{A0}'
    || c == '\U{1680}' || ('\U{2000}' <= c <= '\U{200A}') || c == '\U{2028}' || c == '\U{2029}'
    || c == '\U{202F}' || c == '\U{205F}' || c == '\U{3000}'
  }

  /** JavaScript line terminators (the characters `.` does not match). */
  predicate JsIsLineTerminator(c: char) {
    c == '\n' || c == '\r' || c == '\U{2028}' || c == '\U{2029}'
  }

  /** JavaScript WhiteSpace and LineTerminator: what `trim` removes and `\s` matches. */
  predicate JsIsSpace(c: char) {
    c == ' ' || ('\t' <= c <= '\r') || c == '\U{A0}' || c == '\U{FEFF}'
    || c == '\U{1680}' || ('\U{2000}' <= c <= '\U{200A}') || c == '\U{2028}' || c == '\U{2029}'
    || c == '\U{202F}' || c == '\U{205F}' || c == '\U{3000}'
  }

  predicate StartsWith(s: string, prefix: string) {
    |prefix| <= |s| && s[..|prefix|] == prefix
  }

  predicate EndsWith(s: string, suffix: string) {
    |suffix| <= |s| && s[|s| - |suffix|..] == suffix
  }

  /** `pat` occurs in `s` starting at index `i`. */
  predicate OccursAt(s: string, pat: string, i: int) {
    0 <= i && i + |pat| <= |s| && s[i..i + |pat|] == pat
  }

  predicate Contains(s: string, pat: string) {
    exists i | 0 <= i <= |s| :: OccursAt(s, pat, i)
  }

  /** Drops the leading characters for which `ws` holds. */
  function LStripWith(s: string, ws: char -> bool): (r: string)
    ensures |r| <= |s|
    ensures r == [] || !ws(r[0])
  {
    if s == [] || !ws(s[0]) then s else LStripWith(s[1..], ws)
  }

  /** What the left strip keeps is a suffix, and everything before it is white space. */
  lemma {:induction false} LStripFacts(s: string, ws: char -> bool)
    ensures var r := LStripWith(s, ws);
            r == s[|s| - |r|..] && forall i :: 0 <= i < |s| - |r| ==> ws(s[i])
  {
    if s != [] && ws(s[0]) {
      LStripFacts(s[1..], ws);
      var r := LStripWith(s, ws);
      forall i | 0 <= i < |s| - |r| ensures ws(s[i]) {
        if i > 0 { assert s[i] == s[1..][i - 1]; }
      }
    }
  }

  /** Drops the trailing characters for which `ws` holds. */
  function RStripWith(s: string, ws: char -> bool): (r: string)
    ensures |r| <= |s| && (r == [] || r[0] == s[0])
    ensures r == [] || !ws(r[|r| - 1])
  {
    if s == [] || !ws(s[|s| - 1]) then s else RStripWith(s[..|s| - 1], ws)
  }

  /** What the right strip keeps is a prefix, and everything after it is white space. */
  lemma {:induction false} RStripFacts(s: string, ws: char -> bool)
    ensures var r := RStripWith(s, ws);
            r == s[..|r|] && forall i :: |r| <= i < |s| ==> ws(s[i])
  {
    if s != [] && ws(s[|s| - 1]) {
      RStripFacts(s[..|s| - 1], ws);
      var r := RStripWith(s, ws);
      forall i | |r| <= i < |s| ensures ws(s[i]) {
        if i < |s| - 1 { assert s[i] == s[..|s| - 1][i]; }
      }
    }
  }

  /** Removes white space (as `ws` defines it) from both ends. */
  function StripWith(s: string, ws: char -> bool): (r: string)
    ensures |r| <= |s|
    ensures r == [] || (!ws(r[0]) && !ws(r[|r| - 1]))
  {
    RStripWith(LStripWith(s, ws), ws)
  }

  /** What stripping removed: white space before and after a contiguous middle. */
  lemma StripWithSlice(s: string, ws: char -> bool)
    ensures var r, a := StripWith(s, ws), |s| - |LStripWith(s, ws)|;
            a + |r| <= |s| && r == s[a..a + |r|]
            && (forall i :: 0 <= i < a ==> ws(s[i]))
            && (forall i :: a + |r| <= i < |s| ==> ws(s[i]))
  {
    var l := LStripWith(s, ws);
    var r := RStripWith(l, ws);
    var a := |s| - |l|;
    LStripFacts(s, ws);
    RStripFacts(l, ws);
    assert r == s[a..a + |r|] by { assert l == s[a..]; assert r == l[..|r|]; }
    forall i | a + |r| <= i < |s| ensures ws(s[i]) { assert s[i] == l[i - a]; }
  }

  /** Python's `str.strip()` with no argument. */
  function PyStrip(s: string): (r: string)
    ensures r == [] || (!PyIsSpace(r[0]) && !PyIsSpace(r[|r| - 1]))
  {
    StripWith(s, PyIsSpace)
  }

  /** JavaScript's `String.prototype.trim()`. */
  function JsTrim(s: string): (r: string)
    ensures r == [] || (!JsIsSpace(r[0]) && !JsIsSpace(r[|r| - 1]))
  {
    StripWith(s, JsIsSpace)
  }

  /** A string that already has no white space at either end is its own strip. */
  lemma {:induction false} StripWithUnchanged(s: string, ws: char -> bool)
    requires s == [] || (!ws(s[0]) && !ws(s[|s| - 1]))
    ensures StripWith(s, ws) == s
  {
    assert LStripWith(s, ws) == s;
    assert RStripWith(s, ws) == s;
  }

  /** Stripping is idempotent. */
  lemma StripWithIdempotent(s: string, ws: char -> bool)
    ensures StripWith(StripWith(s, ws), ws) == StripWith(s, ws)
  {
    StripWithUnchanged(StripWith(s, ws), ws);
  }

  /** Stripping yields the empty string exactly when every character is white space. */
  lemma StripWithEmpty(s: string, ws: char -> bool)
    ensures StripWith(s, ws) == [] <==> forall i :: 0 <= i < |s| ==> ws(s[i])
  {
    var r := StripWith(s, ws);
    var a := |s| - |LStripWith(s, ws)|;
    StripWithSlice(s, ws);
    if r != [] {
      assert !ws(s[a]);
    }
  }

  lemma AppendAssoc<T>(a: seq<T>, b: seq<T>, c: seq<T>)
    ensures a + (b + c) == (a + b) + c
  {
  }

  /** Python's `sep.join(parts)`. */
  function Join(parts: seq<string>, sep: string): (r: string)
    ensures |parts| == 1 ==> r == parts[0]
  {
    if parts == [] then "" else if |parts| == 1 then parts[0] else parts[0] + sep + Join(parts[1..], sep)
  }

  /** Joining two non-empty lists is joining each and putting one separator between them. */
  lemma {:induction false} JoinAppend(a: seq<string>, b: seq<string>, sep: string)
    requires a != [] && b != []
    ensures Join(a + b, sep) == Join(a, sep) + sep + Join(b, sep)
  {
    if |a| == 1 {
      assert (a + b)[1..] == b;
    } else {
      JoinAppend(a[1..], b, sep);
      assert (a + b)[1..] == a[1..] + b;
    }
  }

  /** Every part occurs in the joined text. */
  lemma {:induction false} JoinContainsPart(parts: seq<string>, sep: string, i: nat)
    requires i < |parts|
    ensures Contains(Join(parts, sep), parts[i])
  {
    var j := Join(parts, sep);
    if i == 0 {
      assert OccursAt(j, parts[0], 0);
    } else {
      JoinContainsPart(parts[1..], sep, i - 1);
      var rest := Join(parts[1..], sep);
      var k :| 0 <= k <= |rest| && OccursAt(rest, parts[i], k);
      var off := |parts[0]| + |sep|;
      assert j == parts[0] + sep + rest;
      assert j[off + k..off + k + |parts[i]|] == rest[k..k + |parts[i]|];
      assert OccursAt(j, parts[i], off + k);
    }
  }

  /** `s.split(c)` for a one-character separator (Python and JavaScript agree here). */
  function Split(s: string, c: char): (r: seq<string>)
    ensures |r| >= 1
    decreases |s|
  {
    if s == [] then [[]]
    else
      var rest := Split(s[1..], c);
      if s[0] == c then [[]] + rest else [[s[0]] + rest[0]] + rest[1..]
  }

  /** Splitting and joining back with the same separator gives the text back. */
  lemma {:induction false} JoinSplit(s: string, c: char)
    ensures Join(Split(s, c), [c]) == s
    decreases |s|
  {
    if s != [] {
      var rest := Split(s[1..], c);
      JoinSplit(s[1..], c);
      if s[0] == c {
        assert ([[]] + rest)[1..] == rest;
        assert s == [c] + s[1..];
      } else if |rest| == 1 {
        assert s == [s[0]] + s[1..];
      } else {
        var parts := [[s[0]] + rest[0]] + rest[1..];
        assert parts[1..] == rest[1..];
        assert s == [s[0]] + s[1..];
      }
    }
  }

  /** A part without the separator, followed by the separator, splits off as one piece. */
  lemma {:induction false} SplitPiece(p: string, c: char, t: string)
    requires c !in p
    ensures Split(p + [c] + t, c) == [p] + Split(t, c)
    decreases |p|
  {
    if p == [] {
      assert [] + [c] + t == [c] + t;
      assert ([c] + t)[1..] == t;
    } else {
      SplitPiece(p[1..], c, t);
      assert (p + [c] + t)[1..] == p[1..] + [c] + t;
      assert [p[0]] + p[1..] == p;
    }
  }

  /** A text without the separator splits into itself. */
  lemma {:induction false} SplitNone(p: string, c: char)
    requires c !in p
    ensures Split(p, c) == [p]
    decreases |p|
  {
    if p != [] {
      SplitNone(p[1..], c);
      assert [p[0]] + p[1..] == p;
    }
  }

  /** Joining parts that do not contain the separator and splitting again gives the parts back. */
  lemma {:induction false} SplitJoin(parts: seq<string>, c: char)
    requires parts != []
    requires forall i :: 0 <= i < |parts| ==> c !in parts[i]
    ensures Split(Join(parts, [c]), c) == parts
  {
    if |parts| == 1 {
      SplitNone(parts[0], c);
    } else {
      SplitJoin(parts[1..], c);
      SplitPiece(parts[0], c, Join(parts[1..], [c]));
      assert [parts[0]] + parts[1..] == parts;
    }
  }

  /** The pieces of `a + t` from those of `a` and `t`: the last piece of `a` runs on into the first of `t`. */
  function Glue(A: seq<string>, T: seq<string>): seq<string>
    requires A != [] && T != []
  {
    A[..|A| - 1] + [A[|A| - 1] + T[0]] + T[1..]
  }

  /** Splitting a concatenation glues the pieces of both halves. */
  lemma {:induction false} SplitAppend(a: string, t: string, c: char)
    ensures Split(a + t, c) == Glue(Split(a, c), Split(t, c))
    decreases |a|
  {
    if a == [] {
      var A: seq<string>, T := [[]], Split(t, c);
      assert [] + t == t && A[..0] == [] && A[0] + T[0] == T[0] && [T[0]] + T[1..] == T;
    } else {
      SplitAppend(a[1..], t, c);
      assert a == [a[0]] + a[1..];
      SplitConsGlue(a[0], a[1..], t, c);
    }
  }

  /** One more leading character keeps the pieces of a concatenation glued. */
  lemma SplitConsGlue(x: char, a: string, t: string, c: char)
    requires Split(a + t, c) == Glue(Split(a, c), Split(t, c))
    ensures Split([x] + a + t, c) == Glue(Split([x] + a, c), Split(t, c))
  {
    var A, T, R := Split(a, c), Split(t, c), Split(a + t, c);
    assert ([x] + a + t)[1..] == a + t;
    assert ([x] + a)[1..] == a;
    if x == c {
      GlueSeparator(A, T);
    } else {
      GlueChar(x, A, T);
    }
  }

  lemma GlueSeparator(A: seq<string>, T: seq<string>)
    requires A != [] && T != []
    ensures [[]] + Glue(A, T) == Glue([[]] + A, T)
  {
    assert ([[]] + A)[..|A|] == [[]] + A[..|A| - 1];
  }

  lemma GlueChar(x: char, A: seq<string>, T: seq<string>)
    requires A != [] && T != []
    ensures var R := Glue(A, T); [[x] + R[0]] + R[1..] == Glue([[x] + A[0]] + A[1..], T)
  {
    var R := Glue(A, T);
    if |A| == 1 {
      assert R == [A[0] + T[0]] + T[1..];
      assert [x] + (A[0] + T[0]) == [x] + A[0] + T[0];
    } else {
      var A0 := [[x] + A[0]] + A[1..];
      assert A0[..|A0| - 1] == [[x] + A[0]] + A[1..|A| - 1];
      assert R[1..] == A[1..|A| - 1] + [A[|A| - 1] + T[0]] + T[1..];
    }
  }

  /** A character missing from the text is missing from each of its pieces. */
  lemma {:induction false} SplitKeepsOut(s: string, c: char, d: char)
    requires d !in s
    ensures forall j :: 0 <= j < |Split(s, c)| ==> d !in Split(s, c)[j]
    decreases |s|
  {
    if s != [] {
      assert s == [s[0]] + s[1..];
      SplitKeepsOut(s[1..], c, d);
    }
  }

  /** The first piece is a prefix of the text. */
  lemma {:induction false} SplitFirstIsPrefix(s: string, c: char)
    ensures StartsWith(s, Split(s, c)[0])
    decreases |s|
  {
    if s != [] {
      SplitFirstIsPrefix(s[1..], c);
    }
  }

  /** Where each piece of a glued list comes from. */
  lemma GlueAt(A: seq<string>, T: seq<string>)
    requires A != [] && T != []
    ensures var L := Glue(A, T);
            |L| == |A| + |T| - 1
            && (forall j :: 0 <= j < |A| - 1 ==> L[j] == A[j])
            && L[|A| - 1] == A[|A| - 1] + T[0]
            && (forall j :: |A| <= j < |L| ==> L[j] == T[j - |A| + 1])
  {
  }

  /** A prefix without the separator joins the first piece. */
  lemma SplitPrefixed(p: string, g: string, c: char)
    requires c !in p
    ensures var G := Split(g, c); Split(p + g, c) == [p + G[0]] + G[1..]
  {
    SplitNone(p, c);
    SplitAppend(p, g, c);
    GlueOne(p, Split(g, c));
  }

  lemma GlueOne(p: string, T: seq<string>)
    requires T != []
    ensures Glue([p], T) == [p + T[0]] + T[1..]
  {
    assert [p][..0] == [];
  }

  /**
   * The pieces of `p + g + q + t`, where `p` and `q` hold no separator: the
   * inner pieces of `g`, then the piece where `g` ends and `t` starts, then
   * the later pieces of `t`.
   */
  lemma SplitAround(p: string, g: string, q: string, t: string, c: char)
    requires c !in p && c !in q
    ensures var G, T := Split(g, c), Split(t, c);
            Split(p + g + q + t, c) == Glue([p + G[0]] + G[1..], [q + T[0]] + T[1..])
  {
    var a, b := p + g, q + t;
    SplitPrefixed(p, g, c);
    SplitPrefixed(q, t, c);
    SplitAppend(a, b, c);
    AppendAssoc(a, q, t);
  }

  /** Where each piece of `SplitAround`'s result comes from. */
  lemma GlueAround(p: string, G: seq<string>, q: string, T: seq<string>)
    requires G != [] && T != []
    ensures var L := Glue([p + G[0]] + G[1..], [q + T[0]] + T[1..]);
            |L| == |G| + |T| - 1
            && (forall j :: 1 <= j < |G| - 1 ==> L[j] == G[j])
            && (|G| >= 2 ==> L[|G| - 1] == G[|G| - 1] + q + T[0])
            && (forall j :: |G| <= j < |L| ==> L[j] == T[j - |G| + 1])
  {
    var P, Q := [p + G[0]] + G[1..], [q + T[0]] + T[1..];
    GlueAt(P, Q);
    if |G| >= 2 {
      assert P[|G| - 1] + Q[0] == G[|G| - 1] + q + T[0];
    }
  }

  /** A leading character: a separator starts a new first piece, any other character joins the first piece. */
  lemma SplitCons(x: char, t: string, c: char, k: nat)
    requires 1 <= k
    ensures var d := if x == c then 1 else 0;
            |Split([x] + t, c)| == |Split(t, c)| + d
            && (k < |Split([x] + t, c)| ==> Split([x] + t, c)[k] == Split(t, c)[k - d])
  {
    assert ([x] + t)[1..] == t;
  }

  /** Leftmost index at or after `from` where `pat` occurs, if any. */
  function FindFrom(s: string, pat: string, from: nat): (r: int)
    requires |pat| > 0
    decreases |s| - from
    ensures r == -1 || (from <= r && OccursAt(s, pat, r))
    ensures forall j :: from <= j && (r == -1 || j < r) ==> !OccursAt(s, pat, j)
  {
    if from + |pat| > |s| then -1
    else if s[from..from + |pat|] == pat then from
    else FindFrom(s, pat, from + 1)
  }

  /** JavaScript's `s.indexOf(pat)`: the leftmost occurrence, or -1. */
  function IndexOf(s: string, pat: string): (r: int)
    requires |pat| > 0
    ensures r == -1 <==> !Contains(s, pat)
    ensures r != -1 ==> OccursAt(s, pat, r) && forall j :: 0 <= j < r ==> !OccursAt(s, pat, j)
  {
    FindFrom(s, pat, 0)
  }

  /**
   * Python's `s.replace(pat, rep)`: every occurrence, scanned left to right
   * and without overlap, is replaced.
   */
  function ReplaceAll(s: string, pat: string, rep: string): (r: string)
    requires |pat| > 0
    decreases |s|
  {
    if |s| < |pat| then s
    else if s[..|pat|] == pat then rep + ReplaceAll(s[|pat|..], pat, rep)
    else [s[0]] + ReplaceAll(s[1..], pat, rep)
  }

  /** A replacement is the identity on a string that does not contain the pattern. */
  lemma {:induction false} ReplaceAllAbsent(s: string, pat: string, rep: string)
    requires |pat| > 0 && !Contains(s, pat)
    ensures ReplaceAll(s, pat, rep) == s
  {
    if |s| >= |pat| {
      assert !OccursAt(s, pat, 0);
      if !Contains(s[1..], pat) {
        ReplaceAllAbsent(s[1..], pat, rep);
        assert [s[0]] + s[1..] == s;
      } else {
        var i :| 0 <= i <= |s[1..]| && OccursAt(s[1..], pat, i);
        assert 0 <= i && i + |pat| <= |s| - 1;
        assert s[i + 1..i + 1 + |pat|] == s[1..][i..i + |pat|];
        assert OccursAt(s, pat, i + 1);
      }
    }
  }

  /** Replacing a single character `c` by `rep` maps each character independently. */
  function MapChar(s: string, c: char, rep: string): (r: string)
  {
    if s == [] then [] else (if s[0] == c then rep else [s[0]]) + MapChar(s[1..], c, rep)
  }

  lemma MapCharOne(x: char, c: char, rep: string)
    ensures MapChar([x], c, rep) == if x == c then rep else [x]
  {
    assert [x][1..] == [];
  }

  /** The character-wise map distributes over concatenation. */
  lemma {:induction false} MapCharAppend(a: string, b: string, c: char, rep: string)
    ensures MapChar(a + b, c, rep) == MapChar(a, c, rep) + MapChar(b, c, rep)
  {
    if a != [] {
      MapCharAppend(a[1..], b, c, rep);
      assert (a + b)[1..] == a[1..] + b;
    } else {
      assert [] + b == b;
    }
  }

  /** For a one-character pattern, Python's `replace` is the character-wise map. */
  lemma {:induction false} ReplaceOneCharIsMap(s: string, c: char, rep: string)
    ensures ReplaceAll(s, [c], rep) == MapChar(s, c, rep)
  {
    if s != [] {
      ReplaceOneCharIsMap(s[1..], c, rep);
      assert s[..1] == [s[0]];
    }
  }

  /** Decimal digits of `n`, as Python's `str` of a non-negative int writes them. */
  function NatToDecimal(n: nat): (r: string)
    ensures |r| >= 1 && forall i :: 0 <= i < |r| ==> '0' <= r[i] <= '9'
    ensures r[0] == '0' ==> n == 0
  {
    if n < 10 then [(('0' as int) + n) as char]
    else NatToDecimal(n / 10) + [(('0' as int) + n % 10) as char]
  }

  predicate AllDigits(d: string) {
    forall i :: 0 <= i < |d| ==> '0' <= d[i] <= '9'
  }

  /** The number a string of decimal digits denotes. */
  function DecimalValue(d: string): nat
    requires AllDigits(d)
  {
    if d == [] then 0 else DecimalValue(d[..|d| - 1]) * 10 + (d[|d| - 1] as int - '0' as int)
  }

  /** Reading back the decimal digits of `n` gives `n`. */
  lemma {:induction false} DecimalRoundTrip(n: nat)
    ensures DecimalValue(NatToDecimal(n)) == n
  {
    var d := NatToDecimal(n);
    if n >= 10 {
      DecimalRoundTrip(n / 10);
      assert d[..|d| - 1] == NatToDecimal(n / 10);
    }
  }
}
