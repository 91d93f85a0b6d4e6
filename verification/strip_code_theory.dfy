/** What the lexemes of `StripCode` are, told by grammars instead of cursors, and what stripping does to line numbers. */
module StripCodeTheory {
  import opened StripCode

  // ---------------------------------------------------------------- nested block comments

  const OPEN: string := "/*"
  const CLOSE: string := "*/"

  /** The inside of a block comment. */
  datatype Body = Done | Text(c: char, rest: Body) | Nested(inner: Body, rest: Body)

  function Unparse(b: Body): string
  {
    match b
    case Done => ""
    case Text(c, rest) => [c] + Unparse(rest)
    case Nested(inner, rest) => OPEN + (Unparse(inner) + (CLOSE + Unparse(rest)))
  }

  function Comment(b: Body): string
  {
    OPEN + (Unparse(b) + CLOSE)
  }

  lemma {:induction false} Assoc(a: string, b: string, c: string)
    ensures (a + b) + c == a + (b + c)
  {
  }

  lemma {:induction false} NestedText(inner: Body, rest: Body, tail: string)
    ensures Unparse(Nested(inner, rest)) + tail == OPEN + (Unparse(inner) + (CLOSE + (Unparse(rest) + tail)))
  {
    Assoc(OPEN, Unparse(inner) + (CLOSE + Unparse(rest)), tail);
    Assoc(Unparse(inner), CLOSE + Unparse(rest), tail);
    Assoc(CLOSE, Unparse(rest), tail);
  }

  lemma {:induction false} CommentText(b: Body, tail: string)
    ensures Comment(b) + tail == OPEN + (Unparse(b) + (CLOSE + tail))
  {
    Assoc(OPEN, Unparse(b) + CLOSE, tail);
    Assoc(Unparse(b), CLOSE, tail);
  }

  predicate OpensOrCloses(t: string)
  {
    Pair(t, 0, '/', '*') || Pair(t, 0, '*', '/')
  }

  /** No plain character of the comment, read with what follows it, opens or closes a comment. */
  predicate WellFormed(b: Body, tail: string)
  {
    match b
    case Done => true
    case Text(c, rest) => !OpensOrCloses([c] + (Unparse(rest) + tail)) && WellFormed(rest, tail)
    case Nested(inner, rest) => WellFormed(inner, CLOSE + (Unparse(rest) + tail)) && WellFormed(rest, tail)
  }

  /** Splits a known text off the front of a suffix. */
  lemma {:induction false} Peel(s: string, j: nat, w: string, t: string)
    requires j <= |s| && s[j..] == w + t
    ensures j + |w| <= |s| && s[j + |w|..] == t
    ensures forall k :: 0 <= k < |w| ==> s[j + k] == w[k]
  {
    assert s[j + |w|..] == s[j..][|w|..];
    forall k | 0 <= k < |w| ensures s[j + k] == w[k] { assert s[j + k] == s[j..][k]; }
  }

  lemma {:induction false} ScanSkipsBody(s: string, j: nat, b: Body, tail: string, depth: nat)
    requires depth > 0 && j <= |s| && s[j..] == Unparse(b) + tail && WellFormed(b, tail)
    ensures j + |Unparse(b)| <= |s|
    ensures BlockEnd(s, j, depth) == BlockEnd(s, j + |Unparse(b)|, depth)
    decreases b
  {
    match b
    case Done =>
    case Text(c, rest) =>
      var t := Unparse(rest) + tail;
      assert s[j..] == [c] + t;
      Peel(s, j, [c], t);
      assert s[j..] == [c] + t && (t != "" ==> ([c] + t)[1] == s[j + 1]);
      ScanSkipsBody(s, j + 1, rest, tail, depth);
    case Nested(inner, rest) =>
      ScanSkipsNested(s, j, inner, rest, tail, depth);
  }

  lemma {:induction false} ScanSkipsNested(s: string, j: nat, inner: Body, rest: Body, tail: string, depth: nat)
    requires depth > 0 && j <= |s| && s[j..] == Unparse(Nested(inner, rest)) + tail
    requires WellFormed(Nested(inner, rest), tail)
    ensures j + |Unparse(Nested(inner, rest))| <= |s|
    ensures BlockEnd(s, j, depth) == BlockEnd(s, j + |Unparse(Nested(inner, rest))|, depth)
    decreases Nested(inner, rest), 0
  {
    NestedLayout(s, j, inner, rest, tail);
    var k := j + 2 + |Unparse(inner)|;
    ScanSkipsBody(s, j + 2, inner, CLOSE + (Unparse(rest) + tail), depth + 1);
    ScanSkipsBody(s, k + 2, rest, tail, depth);
  }

  /** Where the parts of a nested comment stand. */
  lemma {:induction false} NestedLayout(s: string, j: nat, inner: Body, rest: Body, tail: string)
    requires j <= |s| && s[j..] == Unparse(Nested(inner, rest)) + tail
    ensures Pair(s, j, '/', '*') && s[j + 2..] == Unparse(inner) + (CLOSE + (Unparse(rest) + tail))
    ensures var k := j + 2 + |Unparse(inner)|;
            && Pair(s, k, '*', '/') && s[k + 2..] == Unparse(rest) + tail
            && k + 2 + |Unparse(rest)| == j + |Unparse(Nested(inner, rest))|
  {
    var t := CLOSE + (Unparse(rest) + tail);
    NestedText(inner, rest, tail);
    PeelOpen(s, j, Unparse(inner) + t);
    Peel(s, j + 2, Unparse(inner), t);
    PeelClose(s, j + 2 + |Unparse(inner)|, Unparse(rest) + tail);
  }

  lemma {:induction false} PeelOpen(s: string, j: nat, t: string)
    requires j <= |s| && s[j..] == OPEN + t
    ensures Pair(s, j, '/', '*') && s[j + 2..] == t
  {
    Peel(s, j, OPEN, t);
  }

  lemma {:induction false} PeelClose(s: string, j: nat, t: string)
    requires j <= |s| && s[j..] == CLOSE + t
    ensures Pair(s, j, '*', '/') && s[j + 2..] == t
  {
    Peel(s, j, CLOSE, t);
  }

  /** The scan from `j` finds a close for every comment open there. */
  predicate Closes(s: string, j: nat, depth: nat)
    requires j <= |s|
    decreases |s| - j
  {
    if depth == 0 then true
    else if j == |s| then false
    else if Pair(s, j, '/', '*') then Closes(s, j + 2, depth + 1)
    else if Pair(s, j, '*', '/') then Closes(s, j + 2, depth - 1)
    else Closes(s, j + 1, depth)
  }

  lemma {:induction false} ScanThatFailsReachesTheEnd(s: string, j: nat, depth: nat)
    requires j <= |s| && !Closes(s, j, depth)
    ensures BlockEnd(s, j, depth) == |s|
    decreases |s| - j
  {
    if j < |s| {
      if Pair(s, j, '/', '*') { ScanThatFailsReachesTheEnd(s, j + 2, depth + 1); }
      else if Pair(s, j, '*', '/') { ScanThatFailsReachesTheEnd(s, j + 2, depth - 1); }
      else { ScanThatFailsReachesTheEnd(s, j + 1, depth); }
    }
  }

  /** Reads back the comment body that the scan skips until one of the open comments closes. */
  lemma {:induction false} BodyUpToClose(s: string, j: nat, depth: nat) returns (b: Body, m: nat)
    requires depth > 0 && j <= |s| && Closes(s, j, depth)
    ensures j < m <= |s|
    ensures s[j..] == Unparse(b) + (CLOSE + s[m..]) && WellFormed(b, CLOSE + s[m..])
    ensures Closes(s, m, depth - 1) && BlockEnd(s, j, depth) == BlockEnd(s, m, depth - 1)
    decreases |s| - j
  {
    if Pair(s, j, '/', '*') {
      var inner, k := BodyUpToClose(s, j + 2, depth + 1);
      var rest, m' := BodyUpToClose(s, k, depth);
      b, m := Nested(inner, rest), m';
      assert s[j..] == OPEN + s[j + 2..];
      NestedText(inner, rest, CLOSE + s[m..]);
    } else if Pair(s, j, '*', '/') {
      b, m := Done, j + 2;
      assert s[j..] == CLOSE + s[m..];
    } else {
      var rest, m' := BodyUpToClose(s, j + 1, depth);
      b, m := Text(s[j], rest), m';
      assert s[j..] == [s[j]] + s[j + 1..];
      Assoc([s[j]], Unparse(rest), CLOSE + s[m..]);
      assert !OpensOrCloses(s[j..]);
    }
  }

  ghost predicate MatchingClose(s: string, i: nat, e: nat)
  {
    i <= e <= |s| && exists b :: s[i..e] == Comment(b) && WellFormed(b, CLOSE + s[e..])
  }

  /** A block comment is blanked up to its matching close, and that close is the only one; without one, to the end. */
  lemma {:induction false} BlockCommentsEndAtTheirMatchingClose(s: string, i: nat, alnum: char -> bool)
    requires Pair(s, i, '/', '*')
    ensures var e := LexemeEnd(s, i, alnum);
            && (MatchingClose(s, i, e) || e == |s|)
            && (forall k: nat :: MatchingClose(s, i, k) ==> k == e)
  {
    var e := LexemeEnd(s, i, alnum);
    if Closes(s, i + 2, 1) {
      var b, m := BodyUpToClose(s, i + 2, 1);
      assert m == e;
      assert s[i..] == OPEN + s[i + 2..];
      CommentText(b, s[e..]);
      Peel(s, i, Comment(b), s[e..]);
      assert s[i..e] == Comment(b);
    } else {
      ScanThatFailsReachesTheEnd(s, i + 2, 1);
    }
    forall k: nat | MatchingClose(s, i, k) ensures k == e {
      MatchingCloseIsWhereTheScanStops(s, i, k);
    }
  }

  lemma {:induction false} MatchingCloseIsWhereTheScanStops(s: string, i: nat, k: nat)
    requires Pair(s, i, '/', '*') && MatchingClose(s, i, k)
    ensures BlockEnd(s, i + 2, 1) == k
  {
    var b :| s[i..k] == Comment(b) && WellFormed(b, CLOSE + s[k..]);
    var tail := CLOSE + s[k..];
    assert s[i..] == s[i..k] + s[k..];
    CommentText(b, s[k..]);
    PeelOpen(s, i, Unparse(b) + tail);
    ScanSkipsBody(s, i + 2, b, tail, 1);
    var c := i + 2 + |Unparse(b)|;
    assert s[c..] == tail by { Peel(s, i + 2, Unparse(b), tail); }
    PeelClose(s, c, s[k..]);
  }

  // ---------------------------------------------------------------- string literals

  /** A character of a string literal: a plain one, or a backslash and any character. */
  datatype Piece = Plain(c: char) | Escaped(c: char)

  function Written(ps: seq<Piece>): string
  {
    if ps == [] then "" else (if ps[0].Plain? then [ps[0].c] else [BACKSLASH, ps[0].c]) + Written(ps[1..])
  }

  predicate Literal(ps: seq<Piece>)
  {
    forall k :: 0 <= k < |ps| && ps[k].Plain? ==> ps[k].c != QUOTE && ps[k].c != BACKSLASH
  }

  lemma {:induction false} ScanSkipsPieces(s: string, j: nat, ps: seq<Piece>, tail: string)
    requires j <= |s| && Literal(ps) && s[j..] == Written(ps) + tail
    ensures StringEnd(s, j) == StringEnd(s, j + |Written(ps)|)
    decreases |ps|
  {
    if ps != [] {
      var w := if ps[0].Plain? then [ps[0].c] else [BACKSLASH, ps[0].c];
      assert s[j..] == w + (Written(ps[1..]) + tail);
      assert s[j] == s[j..][0];
      assert s[j + |w|..] == s[j..][|w|..] == Written(ps[1..]) + tail;
      ScanSkipsPieces(s, j + |w|, ps[1..], tail);
    }
  }

  lemma {:induction false} PiecesUpToQuote(s: string, j: nat) returns (ps: seq<Piece>)
    requires j <= |s| && StringEnd(s, j) < |s|
    ensures Literal(ps) && s[StringEnd(s, j)] == QUOTE && s[j..StringEnd(s, j)] == Written(ps)
    decreases |s| - j
  {
    if s[j] == QUOTE {
      ps := [];
    } else {
      var p := if s[j] == BACKSLASH then Escaped(s[j + 1]) else Plain(s[j]);
      var w := if p.Plain? then [p.c] else [BACKSLASH, p.c];
      var rest := PiecesUpToQuote(s, j + |w|);
      ps := [p] + rest;
      assert ps[1..] == rest;
      assert s[j..StringEnd(s, j)] == s[j..j + |w|] + s[j + |w|..StringEnd(s, j)];
    }
  }

  /** `s[j..e]` is the body of a string literal and a quote closes it at `e`. */
  ghost predicate ClosingQuote(s: string, j: nat, e: nat)
  {
    j <= e < |s| && s[e] == QUOTE && exists ps :: Literal(ps) && s[j..e] == Written(ps)
  }

  /** A string literal is blanked up to its one unescaped closing quote, and to the end of the text when it has none. */
  lemma {:induction false} StringsEndAtTheirClosingQuote(s: string, i: nat, alnum: char -> bool)
    requires i < |s| && s[i] == QUOTE
    ensures var e, start := LexemeEnd(s, i, alnum), i + 1;
            && (ClosingQuote(s, start, e - 1) || e == |s|)
            && (forall k: nat :: ClosingQuote(s, start, k) ==> k == e - 1)
  {
    var start := i + 1;
    if StringEnd(s, i + 1) < |s| {
      var ps := PiecesUpToQuote(s, i + 1);
    }
    forall k: nat | ClosingQuote(s, start, k) ensures k == StringEnd(s, start) {
      var ps :| Literal(ps) && s[i + 1..k] == Written(ps);
      assert s[i + 1..] == s[i + 1..k] + s[k..];
      ScanSkipsPieces(s, i + 1, ps, s[k..]);
    }
  }

  lemma {:induction false} RawEndIsFirstDelimiter(s: string, j: nat, hashes: nat)
    requires j <= |s|
    ensures var e := RawEnd(s, j, hashes);
            if exists k :: j <= k && ClosesRaw(s, k, hashes)
            then e >= j + 1 + hashes && ClosesRaw(s, e - 1 - hashes, hashes)
                 && forall k :: j <= k && ClosesRaw(s, k, hashes) ==> e - 1 - hashes <= k
            else e == |s|
    decreases |s| - j
  {
    if j < |s| && !ClosesRaw(s, j, hashes) {
      RawEndIsFirstDelimiter(s, j + 1, hashes);
    }
  }

  // ---------------------------------------------------------------- line numbers

  /** How many of the first `p` positions hold a mark. */
  function Count(marks: seq<bool>, p: nat): nat
    requires p <= |marks|
  {
    if p == 0 then 0 else Count(marks, p - 1) + if marks[p - 1] then 1 else 0
  }

  lemma {:induction false} CountMonotone(a: seq<bool>, b: seq<bool>, p: nat)
    requires |a| == |b| && p <= |a|
    requires forall k :: 0 <= k < |a| && a[k] ==> b[k]
    ensures Count(a, p) <= Count(b, p)
  {
    if p > 0 { CountMonotone(a, b, p - 1); }
  }

  /** The line number that `check_env_reads.py` computes for an offset: newlines before it, plus one. */
  function NewlineLine(s: string, p: nat): nat
    requires p <= |s|
  {
    1 + Count(seq(|s|, k requires 0 <= k < |s| => s[k] == NEWLINE), p)
  }

  /** A match found at an offset of the stripped text is reported on the line that offset has in the source. */
  lemma {:induction false} NewlineLinesSurvive(s: string, alnum: char -> bool, p: nat)
    requires p <= |s|
    ensures |Strip(s, 0, alnum)| == |s|
    ensures NewlineLine(Strip(s, 0, alnum), p) == NewlineLine(s, p)
  {
    StripCovers(s, 0, alnum);
    var r := Strip(s, 0, alnum);
    assert seq(|r|, k requires 0 <= k < |r| => r[k] == NEWLINE) == seq(|s|, k requires 0 <= k < |s| => s[k] == NEWLINE);
  }

  /** `violations` of check_env_reads.py, the offsets of its pattern matches being given. */
  function Violations(source: string, alnum: char -> bool, matches: set<nat>): (lines: set<nat>)
    requires forall p :: p in matches ==> p <= |source|
    ensures lines == set p | p in matches :: NewlineLine(source, p)
  {
    StripCovers(source, 0, alnum);
    var code := Strip(source, 0, alnum);
    assert forall p :: p in matches ==> NewlineLine(code, p) == NewlineLine(source, p) by {
      forall p | p in matches { NewlineLinesSurvive(source, alnum, p); }
    }
    set p | p in matches :: NewlineLine(code, p)
  }

  /** The parts joined by newlines. */
  function Joined(parts: seq<string>): string
    requires parts != []
  {
    if |parts| == 1 then parts[0] else Joined(parts[..|parts| - 1]) + "\n" + parts[|parts| - 1]
  }

  lemma {:induction false} CountSkips(marks: seq<bool>, p: nat, q: nat)
    requires p <= q <= |marks| && forall k :: p <= k < q ==> !marks[k]
    ensures Count(marks, q) == Count(marks, p)
  {
    if p < q { CountSkips(marks, p, q - 1); }
  }

  /** An offset after `n` full lines is on line `n + 1`: the text before it is `n + 1` parts without newlines, joined. */
  lemma {:induction false} LinesAreCountedFromOne(s: string, p: nat, parts: seq<string>)
    requires p <= |s| && parts != [] && s[..p] == Joined(parts)
    requires forall k, m :: 0 <= k < |parts| && 0 <= m < |parts[k]| ==> parts[k][m] != '\n'
    ensures NewlineLine(s, p) == |parts|
    decreases |parts|
  {
    var n := |parts| - 1;
    var q := p - |parts[n]|;
    var marks := seq(|s|, k requires 0 <= k < |s| => s[k] == NEWLINE);
    forall k | q <= k < p ensures !marks[k] {
      assert s[k] == s[..p][k] == parts[n][k - q];
    }
    CountSkips(marks, q, p);
    if n > 0 {
      var init := parts[..n];
      assert s[..q] == Joined(init) + "\n";
      assert s[q - 1] == s[..q][q - 1] == '\n';
      assert s[..q - 1] == Joined(init);
      LinesAreCountedFromOne(s, q - 1, init);
    }
  }

  const LINE_TABULATION: char := '\U{00000B}'
  const FORM_FEED: char := '\U{00000C}'
  const CARRIAGE_RETURN: char := '\r'

  /** The characters at which Python's `splitlines` ends a line. */
  predicate LineSeparator(c: char)
  {
    || c == NEWLINE || c == CARRIAGE_RETURN || c == LINE_TABULATION || c == FORM_FEED
    || '\U{00001C}' <= c <= '\U{00001E}' || c == '\U{000085}' || c == '\U{002028}' || c == '\U{002029}'
  }

  /** A line of `splitlines` ends with the character at `k`; a carriage return and newline end one line together. */
  predicate EndsLine(s: string, k: nat)
    requires k < |s|
  {
    LineSeparator(s[k]) && !Pair(s, k, CARRIAGE_RETURN, NEWLINE)
  }

  function LineEnds(s: string): seq<bool>
  {
    seq(|s|, k requires 0 <= k < |s| => EndsLine(s, k))
  }

  /** The number `scan` gives to the line of `splitlines` that holds offset `p`. */
  function SplitLine(s: string, p: nat): nat
    requires p <= |s|
  {
    1 + Count(LineEnds(s), p)
  }

  /** The line breaks of `splitlines`: a carriage return and newline together are one, and so is any other of these by itself. */
  lemma {:induction false} SplitLinesBreaksAre(s: string, k: nat)
    requires k < |s|
    ensures LineSeparator(s[k]) <==> s[k] as int in {0x0A, 0x0B, 0x0C, 0x0D, 0x1C, 0x1D, 0x1E, 0x85, 0x2028, 0x2029}
    ensures SplitLine(s, 0) == 1
    ensures SplitLine(s, k + 1) == SplitLine(s, k) +
              if s[k] == '\r' && k + 1 < |s| && s[k + 1] == '\n' then 0
              else if s[k] as int in {0x0A, 0x0B, 0x0C, 0x0D, 0x1C, 0x1D, 0x1E, 0x85, 0x2028, 0x2029} then 1 else 0
  {
    assert LineEnds(s)[k] == EndsLine(s, k);
  }

  /** Position `k` lies in a comment or literal, as the cursor walk from `i` meets them. */
  predicate InLexeme(s: string, i: nat, k: nat, alnum: char -> bool)
    requires i <= |s|
    decreases |s| - i
  {
    i < |s| && i <= k &&
    var e := LexemeEnd(s, i, alnum);
    var next := if e == 0 then i + 1 else e;
    if k < next then e != 0 else InLexeme(s, next, k, alnum)
  }

  lemma {:induction false} IndexOfJoin(a: string, b: string, k: nat)
    requires k < |a| + |b|
    ensures (a + b)[k] == if k < |a| then a[k] else b[k - |a|]
  {
  }

  /** What the blanker makes of each character: outside comments and literals it stays, inside only newlines do. */
  lemma {:induction false} StripBlanksExactlyTheLexemes(s: string, i: nat, k: nat, alnum: char -> bool)
    requires i <= k < |s|
    ensures |Strip(s, i, alnum)| == |s| - i
    ensures Strip(s, i, alnum)[k - i] == if InLexeme(s, i, k, alnum) && s[k] != NEWLINE then ' ' else s[k]
    decreases |s| - i
  {
    var e := LexemeEnd(s, i, alnum);
    var next := if e == 0 then i + 1 else e;
    var head, rest := if e == 0 then [s[i]] else Blank(s[i..e]), Strip(s, next, alnum);
    StripCovers(s, next, alnum);
    assert |rest| == |s| - next;
    if next <= k { StripBlanksExactlyTheLexemes(s, next, k, alnum); }
    IndexOfJoin(head, rest, k - i);
  }

  /** A comment or literal holds a line break at `k` that is neither a newline nor the carriage return before one. */
  predicate HidesBreak(s: string, k: nat, alnum: char -> bool)
    requires k < |s|
  {
    InLexeme(s, 0, k, alnum) && LineSeparator(s[k]) && s[k] != NEWLINE && !Pair(s, k, CARRIAGE_RETURN, NEWLINE)
  }

  /** A line ends in the stripped text where one ends in the source, unless the break is hidden. */
  lemma {:induction false} BreaksThatSurvive(s: string, alnum: char -> bool, k: nat)
    requires k < |s|
    ensures |Strip(s, 0, alnum)| == |s|
    ensures EndsLine(Strip(s, 0, alnum), k) <==> EndsLine(s, k) && !HidesBreak(s, k, alnum)
  {
    StripBlanksExactlyTheLexemes(s, 0, k, alnum);
    if k + 1 < |s| { StripBlanksExactlyTheLexemes(s, 0, k + 1, alnum); }
  }

  /** The stripped text never has more lines than the source before any offset, so `lines[number - 1]` is in range. */
  lemma {:induction false} SplitLinesOnlyFall(s: string, alnum: char -> bool, p: nat)
    requires p <= |s|
    ensures |Strip(s, 0, alnum)| == |s|
    ensures SplitLine(Strip(s, 0, alnum), p) <= SplitLine(s, p)
  {
    StripCovers(s, 0, alnum);
    forall k | 0 <= k < |s| { BreaksThatSurvive(s, alnum, k); }
    CountMonotone(LineEnds(Strip(s, 0, alnum)), LineEnds(s), p);
  }

  lemma {:induction false} EqualCountsMeanEqualMarks(a: seq<bool>, b: seq<bool>, p: nat)
    requires |a| == |b| && p < |a|
    requires Count(a, p) == Count(b, p) && Count(a, p + 1) == Count(b, p + 1)
    ensures a[p] == b[p]
  {
    assert Count(a, p + 1) == Count(a, p) + if a[p] then 1 else 0;
    assert Count(b, p + 1) == Count(b, p) + if b[p] then 1 else 0;
  }

  /** The line numbers of `scan` agree with the source at every offset exactly when no comment or literal of the source
      holds a line break other than a newline, or the carriage return directly before one. */
  lemma {:induction false} SplitLinesSurviveExactlyWhen(s: string, alnum: char -> bool)
    ensures |Strip(s, 0, alnum)| == |s|
    ensures (forall p :: 0 <= p <= |s| ==> SplitLine(Strip(s, 0, alnum), p) == SplitLine(s, p))
       <==> (forall k :: 0 <= k < |s| ==> !HidesBreak(s, k, alnum))
  {
    StripCovers(s, 0, alnum);
    var r := Strip(s, 0, alnum);
    forall k | 0 <= k < |s| ensures EndsLine(r, k) <==> EndsLine(s, k) && !HidesBreak(s, k, alnum) {
      BreaksThatSurvive(s, alnum, k);
    }
    if forall p :: 0 <= p <= |s| ==> SplitLine(r, p) == SplitLine(s, p) {
      forall k | 0 <= k < |s| ensures !HidesBreak(s, k, alnum) {
        assert SplitLine(r, k) == SplitLine(s, k) && SplitLine(r, k + 1) == SplitLine(s, k + 1);
        EqualCountsMeanEqualMarks(LineEnds(r), LineEnds(s), k);
      }
    }
    if forall k :: 0 <= k < |s| ==> !HidesBreak(s, k, alnum) {
      assert LineEnds(r) == LineEnds(s);
    }
  }

  /** A form feed inside a comment moves every later finding up one line. */
  lemma {:induction false} FormFeedInACommentShiftsLines(alnum: char -> bool)
    ensures var s := "/*" + [FORM_FEED] + "*/e";
            |Strip(s, 0, alnum)| == |s| && SplitLine(s, 5) == 2 && SplitLine(Strip(s, 0, alnum), 5) == 1
  {
    var s := "/*" + [FORM_FEED] + "*/e";
    assert BlockEnd(s, 2, 1) == BlockEnd(s, 3, 1) == BlockEnd(s, 5, 0) == 5;
    assert LexemeEnd(s, 0, alnum) == 5 && LexemeEnd(s, 5, alnum) == 0;
    assert Strip(s, 5, alnum) == "e" + Strip(s, 6, alnum) == "e";
    var r := Strip(s, 0, alnum);
    assert r == Blank(s[0..5]) + "e";
    StripCovers(s, 0, alnum);
    assert LineEnds(s) == [false, false, true, false, false, false];
    assert LineEnds(r) == [false, false, false, false, false, false];
    assert Count(LineEnds(s), 1) == 0 == Count(LineEnds(r), 1);
    assert Count(LineEnds(s), 3) == 1 && Count(LineEnds(r), 3) == 0;
    assert Count(LineEnds(s), 4) == 1 && Count(LineEnds(r), 4) == 0;
  }
}
