/** The Rust comment and literal blanker of scripts/check_edition_boundary.py.

    `Strip` gives the meaning of the cursor loop as a function of the text and a cursor;
    method `StripCode` is the loop itself, with its inner cursors, proved against it.
    Python's `str.isalnum` is a parameter: nothing below depends on which characters it accepts. */
module StripCode {

  const NEWLINE: char := '\n'
  const SPACE: char := ' '
  const QUOTE: char := '\"'
  const TICK: char := '\''
  const BACKSLASH: char := '\\'

  // ---------------------------------------------------------------- lexemes

  /** The two characters at `i` are `a` and `b`. */
  predicate Pair(s: string, i: nat, a: char, b: char)
  {
    i + 1 < |s| && s[i] == a && s[i + 1] == b
  }

  /** Where a line comment starting at or before `i` ends: the next newline or the end of the text. */
  function LineEnd(s: string, i: nat): (j: nat)
    requires i <= |s|
    ensures i <= j <= |s|
    decreases |s| - i
  {
    if i == |s| || s[i] == NEWLINE then i else LineEnd(s, i + 1)
  }

  /** Where the scan for the end of nested block comments stops, `depth` comments being open at `j`. */
  function BlockEnd(s: string, j: nat, depth: nat): (e: nat)
    requires j <= |s|
    ensures j <= e <= |s|
    decreases |s| - j
  {
    if depth == 0 || j == |s| then j
    else if Pair(s, j, '/', '*') then BlockEnd(s, j + 2, depth + 1)
    else if Pair(s, j, '*', '/') then BlockEnd(s, j + 2, depth - 1)
    else BlockEnd(s, j + 1, depth)
  }

  /** The first index at or after `i` that does not hold a hash sign. */
  function HashEnd(s: string, i: nat): (j: nat)
    requires i <= |s|
    ensures i <= j <= |s|
    decreases |s| - i
  {
    if i < |s| && s[i] == '#' then HashEnd(s, i + 1) else i
  }

  /** Where the hashes of a raw string prefix `r` or `br` at `i` would start, and 0 where there is no such prefix. */
  function RawPrefix(s: string, i: nat): (h: nat)
    requires i < |s|
    ensures h == 0 || i < h <= |s|
  {
    if s[i] == 'r' then i + 1
    else if Pair(s, i, 'b', 'r') then i + 2
    else 0
  }

  predicate OpensRaw(s: string, i: nat, alnum: char -> bool)
    requires i < |s|
  {
    && (i == 0 || !(alnum(s[i - 1]) || s[i - 1] == '_'))
    && RawPrefix(s, i) != 0
    && HashEnd(s, RawPrefix(s, i)) < |s|
    && s[HashEnd(s, RawPrefix(s, i))] == QUOTE
  }

  /** A quote followed by `hashes` hash signs stands at `j`. */
  predicate ClosesRaw(s: string, j: nat, hashes: nat)
  {
    && j + hashes < |s|
    && s[j] == QUOTE
    && forall k :: j < k <= j + hashes ==> s[k] == '#'
  }

  /** The end of a raw string whose body starts at `j`: after the first closing delimiter, else the end of the text. */
  function RawEnd(s: string, j: nat, hashes: nat): (e: nat)
    requires j <= |s|
    ensures j <= e <= |s|
    decreases |s| - j
  {
    if j == |s| then j
    else if ClosesRaw(s, j, hashes) then j + 1 + hashes
    else RawEnd(s, j + 1, hashes)
  }

  /** The index of the quote that closes a string whose body starts at `j`; at least |s| when none does. */
  function StringEnd(s: string, j: nat): (e: nat)
    ensures j <= e
    decreases |s| - j
  {
    if j >= |s| || s[j] == QUOTE then j
    else if s[j] == BACKSLASH then StringEnd(s, j + 2)
    else StringEnd(s, j + 1)
  }

  predicate HexDigit(c: char)
  {
    '0' <= c <= '9' || 'a' <= c <= 'f' || 'A' <= c <= 'F'
  }

  function HexRunEnd(s: string, i: nat): (j: nat)
    requires i <= |s|
    ensures i <= j <= |s|
    ensures forall k :: i <= k < j ==> HexDigit(s[k]) || s[k] == '_'
    decreases |s| - i
  {
    if i < |s| && (HexDigit(s[i]) || s[i] == '_') then HexRunEnd(s, i + 1) else i
  }

  /** A tick, a backslash and `u{...}` with a nonempty run of hex digits, closed by a tick. */
  predicate UnicodeLiteral(s: string, i: nat)
  {
    && i + 4 < |s| && s[i] == TICK && s[i + 1] == BACKSLASH && s[i + 2] == 'u' && s[i + 3] == '{'
    && i + 4 < HexRunEnd(s, i + 4)
    && Pair(s, HexRunEnd(s, i + 4), '}', TICK)
  }

  predicate ByteLiteral(s: string, i: nat)
  {
    && i + 5 < |s| && s[i] == TICK && s[i + 1] == BACKSLASH && s[i + 2] == 'x'
    && HexDigit(s[i + 3]) && HexDigit(s[i + 4]) && s[i + 5] == TICK
  }

  predicate EscapeLiteral(s: string, i: nat)
  {
    && i + 3 < |s| && s[i] == TICK && s[i + 1] == BACKSLASH && s[i + 2] != NEWLINE && s[i + 3] == TICK
  }

  predicate PlainLiteral(s: string, i: nat)
  {
    && i + 2 < |s| && s[i] == TICK && s[i + 1] != BACKSLASH && s[i + 1] != TICK && s[i + 2] == TICK
  }

  /** The end of the character literal at `i`, trying the alternatives of the pattern in order; 0 when none matches. */
  function CharEnd(s: string, i: nat): (e: nat)
    requires i < |s|
    ensures e == 0 || i + 3 <= e <= |s|
  {
    if UnicodeLiteral(s, i) then HexRunEnd(s, i + 4) + 2
    else if ByteLiteral(s, i) then i + 6
    else if EscapeLiteral(s, i) then i + 4
    else if PlainLiteral(s, i) then i + 3
    else 0
  }

  /** The end of the comment or literal that starts at `i`, and 0 where the character at `i` is code. */
  function LexemeEnd(s: string, i: nat, alnum: char -> bool): (e: nat)
    requires i < |s|
    ensures e == 0 || i < e <= |s|
  {
    if Pair(s, i, '/', '/') then LineEnd(s, i + 2)
    else if Pair(s, i, '/', '*') then BlockEnd(s, i + 2, 1)
    else if OpensRaw(s, i, alnum) then
      var h := RawPrefix(s, i);
      var q := HashEnd(s, h);
      RawEnd(s, q + 1, q - h)
    else if s[i] == QUOTE then
      var q := StringEnd(s, i + 1);
      if q < |s| then q + 1 else |s|
    else CharEnd(s, i)
  }

  /** Spaces in place of everything but newlines. */
  function Blank(text: string): (r: string)
    ensures |r| == |text|
    ensures forall k :: 0 <= k < |text| ==> r[k] == if text[k] == NEWLINE then NEWLINE else SPACE
  {
    if text == "" then "" else [if text[0] == NEWLINE then NEWLINE else SPACE] + Blank(text[1..])
  }

  /** What the loop still has to write when its cursor is at `i`. */
  function Strip(s: string, i: nat, alnum: char -> bool): string
    requires i <= |s|
    decreases |s| - i
  {
    if i == |s| then ""
    else
      var e := LexemeEnd(s, i, alnum);
      if e == 0 then [s[i]] + Strip(s, i + 1, alnum)
      else Blank(s[i..e]) + Strip(s, e, alnum)
  }

  // ---------------------------------------------------------------- the loops

  method ScanLine(source: string, start: nat) returns (j: nat)
    requires start <= |source|
    ensures j == LineEnd(source, start)
  {
    j := start;
    while j < |source| && source[j] != NEWLINE
      invariant start <= j <= |source|
      invariant LineEnd(source, start) == LineEnd(source, j)
    { j := j + 1; }
  }

  /** The inner loop over `j` and `depth`. */
  method ScanBlock(source: string, start: nat) returns (j: nat)
    requires start <= |source|
    ensures j == BlockEnd(source, start, 1)
  {
    var depth: nat := 1;
    j := start;
    while j < |source| && depth > 0
      invariant start <= j <= |source|
      invariant BlockEnd(source, start, 1) == BlockEnd(source, j, depth)
      decreases |source| - j
    {
      if Pair(source, j, '/', '*') { depth, j := depth + 1, j + 2; }
      else if Pair(source, j, '*', '/') { depth, j := depth - 1, j + 2; }
      else { j := j + 1; }
    }
  }

  /** `find` for the closing delimiter, then the step past it. */
  method ScanRaw(source: string, start: nat, hashes: nat) returns (j: nat)
    requires start <= |source|
    ensures j == RawEnd(source, start, hashes)
  {
    j := start;
    while j < |source| && !ClosesRaw(source, j, hashes)
      invariant start <= j <= |source|
      invariant RawEnd(source, start, hashes) == RawEnd(source, j, hashes)
    { j := j + 1; }
    if j < |source| { j := j + 1 + hashes; }
  }

  /** The loop that steps over an escaped character in one go, possibly past the end of the text. */
  method ScanString(source: string, start: nat) returns (j: nat)
    ensures j == StringEnd(source, start)
  {
    j := start;
    while j < |source| && source[j] != QUOTE
      invariant start <= j
      invariant StringEnd(source, start) == StringEnd(source, j)
      decreases |source| - j
    { j := if source[j] == BACKSLASH then j + 2 else j + 1; }
  }

  /** The branches of the loop body: the end of the lexeme at the cursor, 0 where the character is code. */
  method ScanLexeme(source: string, i: nat, alnum: char -> bool) returns (j: nat)
    requires i < |source|
    ensures j == LexemeEnd(source, i, alnum)
  {
    if Pair(source, i, '/', '/') {
      j := ScanLine(source, i + 2);
    } else if Pair(source, i, '/', '*') {
      j := ScanBlock(source, i + 2);
    } else if OpensRaw(source, i, alnum) {
      var h := RawPrefix(source, i);
      var q := HashEnd(source, h);
      j := ScanRaw(source, q + 1, q - h);
    } else if source[i] == QUOTE {
      j := ScanString(source, i + 1);
      j := if j < |source| then j + 1 else |source|;
    } else {
      j := CharEnd(source, i);
    }
  }

  /** The loop of `strip_code`: a cursor and an output list, one lexeme or one character at a time. */
  method StripCode(source: string, alnum: char -> bool) returns (out: string)
    ensures out == Strip(source, 0, alnum)
  {
    out := "";
    var i: nat := 0;
    while i < |source|
      invariant i <= |source|
      invariant Strip(source, 0, alnum) == out + Strip(source, i, alnum)
      decreases |source| - i
    {
      var j := ScanLexeme(source, i, alnum);
      var piece, next := [source[i]], i + 1;
      if j != 0 {
        piece, next := Blank(source[i..j]), j;
      }
      assert out + (piece + Strip(source, next, alnum)) == (out + piece) + Strip(source, next, alnum);
      out, i := out + piece, next;
    }
  }

  // ---------------------------------------------------------------- shape

  /** Every character is the source character or a space, and newlines stay where they are. */
  ghost predicate Covers(s: string, i: nat, r: string)
    requires i <= |s|
  {
    && |r| == |s| - i
    && forall k :: 0 <= k < |r| ==>
         && (r[k] == s[i + k] || r[k] == SPACE)
         && (r[k] == NEWLINE <==> s[i + k] == NEWLINE)
  }

  lemma {:induction false} CoversJoin(s: string, i: nat, head: string, rest: string)
    requires i + |head| <= |s| && Covers(s, i + |head|, rest)
    requires forall k :: 0 <= k < |head| ==>
               (head[k] == s[i + k] || head[k] == SPACE) && (head[k] == NEWLINE <==> s[i + k] == NEWLINE)
    ensures Covers(s, i, head + rest)
  {
    var r := head + rest;
    forall k | 0 <= k < |r|
      ensures (r[k] == s[i + k] || r[k] == SPACE) && (r[k] == NEWLINE <==> s[i + k] == NEWLINE)
    {
      if k >= |head| {
        var m := k - |head|;
        assert r[k] == rest[m] && s[i + k] == s[i + |head| + m];
      }
    }
  }

  lemma {:induction false} StripCovers(s: string, i: nat, alnum: char -> bool)
    requires i <= |s|
    ensures Covers(s, i, Strip(s, i, alnum))
    decreases |s| - i
  {
    if i < |s| {
      var e := LexemeEnd(s, i, alnum);
      var next := if e == 0 then i + 1 else e;
      StripCovers(s, next, alnum);
      CoversJoin(s, i, if e == 0 then [s[i]] else Blank(s[i..e]), Strip(s, next, alnum));
    }
  }

  /** No quote and no comment opener: nothing but character literals could be read as a lexeme again. */
  ghost predicate Inert(r: string)
  {
    && (forall k :: 0 <= k < |r| ==> r[k] != QUOTE)
    && (forall k :: 0 <= k < |r| ==> !Pair(r, k, '/', '/') && !Pair(r, k, '/', '*'))
  }

  lemma {:induction false} InertAfterBlank(text: string, rest: string)
    requires Inert(rest)
    ensures Inert(Blank(text) + rest)
  {
    var head := Blank(text);
    var r := head + rest;
    forall k | 0 <= k < |r| ensures r[k] != QUOTE && !Pair(r, k, '/', '/') && !Pair(r, k, '/', '*') {
      if k < |head| {
        assert r[k] == head[k];
      } else {
        assert r[k] == rest[k - |head|];
        assert !Pair(rest, k - |head|, '/', '/') && !Pair(rest, k - |head|, '/', '*');
      }
    }
  }

  lemma {:induction false} InertAfterKept(c: char, rest: string)
    requires Inert(rest) && c != QUOTE && (c == '/' && rest != "" ==> rest[0] != '/' && rest[0] != '*')
    ensures Inert([c] + rest)
  {
    var r := [c] + rest;
    forall k | 0 <= k < |r| ensures r[k] != QUOTE && !Pair(r, k, '/', '/') && !Pair(r, k, '/', '*') {
      if k > 0 {
        assert r[k] == rest[k - 1];
        assert !Pair(rest, k - 1, '/', '/') && !Pair(rest, k - 1, '/', '*');
      }
    }
  }

  lemma {:induction false} StripIsInert(s: string, i: nat, alnum: char -> bool)
    requires i <= |s|
    ensures Inert(Strip(s, i, alnum))
    decreases |s| - i
  {
    if i < |s| {
      var e := LexemeEnd(s, i, alnum);
      var next := if e == 0 then i + 1 else e;
      var rest := Strip(s, next, alnum);
      StripIsInert(s, next, alnum);
      if e == 0 {
        // The neighbour of a kept slash is the source's own character, and the lexer looked at it.
        StripCovers(s, next, alnum);
        assert rest != "" ==> rest[0] == s[i + 1] || rest[0] == SPACE;
        InertAfterKept(s[i], rest);
      } else {
        InertAfterBlank(s[i..e], rest);
      }
    }
  }

  // ---------------------------------------------------------------- idempotence

  /** A blanked lexeme is at least two characters long, except a lone quote that ends the text. */
  lemma {:induction false} LexemesAreLong(s: string, i: nat, alnum: char -> bool)
    requires i < |s| && LexemeEnd(s, i, alnum) != 0
    ensures i + 2 <= LexemeEnd(s, i, alnum) || LexemeEnd(s, i, alnum) == |s|
  {
  }

  /** What can be read as an escaped literal in text that covers the source was one in the source already. */
  lemma {:induction false} EscapesComeFromTheSource(r: string, s: string, i: nat)
    requires i <= |s| && Covers(s, i, r) && |r| > 0
    ensures UnicodeLiteral(r, 0) ==> UnicodeLiteral(s, i)
    ensures ByteLiteral(r, 0) ==> ByteLiteral(s, i)
    ensures EscapeLiteral(r, 0) ==> EscapeLiteral(s, i)
  {
    if UnicodeLiteral(r, 0) {
      HexRunTransfers(r, s, i, 4);
      assert HexDigit(r[4]) || r[4] == '_';
    }
  }

  /** A plain literal cannot appear either: a blanked lexeme after the tick reaches past the closing tick. */
  lemma {:induction false} PlainComesFromTheSource(s: string, i: nat, alnum: char -> bool)
    requires i < |s|
    requires PlainLiteral([s[i]] + Strip(s, i + 1, alnum), 0)
    ensures PlainLiteral(s, i)
  {
    var rest := Strip(s, i + 1, alnum);
    var r := [s[i]] + rest;
    assert r[1] == rest[0] && r[2] == rest[1];
    StripCovers(s, i + 1, alnum);
    var e := LexemeEnd(s, i + 1, alnum);
    if e == 0 {
      assert rest[0] == s[i + 1];
    } else {
      LexemesAreLong(s, i + 1, alnum);
      assert false;
    }
  }

  lemma {:induction false} NoLiteralAppears(s: string, i: nat, alnum: char -> bool)
    requires i < |s| && CharEnd(s, i) == 0
    ensures CharEnd([s[i]] + Strip(s, i + 1, alnum), 0) == 0
  {
    var r := [s[i]] + Strip(s, i + 1, alnum);
    StripCovers(s, i + 1, alnum);
    CoversJoin(s, i, [s[i]], Strip(s, i + 1, alnum));
    EscapesComeFromTheSource(r, s, i);
    if PlainLiteral(r, 0) { PlainComesFromTheSource(s, i, alnum); }
  }

  lemma {:induction false} HexRunTransfers(r: string, s: string, i: nat, k: nat)
    requires i + |r| <= |s| && k <= |r|
    requires forall m :: 0 <= m < |r| ==> r[m] == s[i + m] || r[m] == SPACE
    requires HexRunEnd(r, k) < |r| && r[HexRunEnd(r, k)] == '}'
    ensures HexRunEnd(s, i + k) == i + HexRunEnd(r, k)
    decreases |r| - k
  {
    if HexDigit(r[k]) || r[k] == '_' {
      HexRunTransfers(r, s, i, k + 1);
    }
  }

  /** Reading a literal looks only forward, so dropping a prefix changes nothing. */
  lemma {:induction false} CharEndOfSuffix(r: string, k: nat)
    requires k < |r|
    ensures CharEnd(r, k) == 0 <==> CharEnd(r[k..], 0) == 0
  {
    var t := r[k..];
    assert forall m :: 0 <= m < |t| ==> t[m] == r[k + m];
    if k + 4 <= |r| { HexRunOfSuffix(r, k, 4); }
  }

  lemma {:induction false} HexRunOfSuffix(r: string, k: nat, m: nat)
    requires k + m <= |r|
    ensures HexRunEnd(r, k + m) == k + HexRunEnd(r[k..], m)
    decreases |r| - m
  {
    if k + m < |r| { HexRunOfSuffix(r, k, m + 1); }
  }

  lemma {:induction false} StripHasNoLiterals(s: string, i: nat, alnum: char -> bool)
    requires i <= |s|
    ensures forall k :: 0 <= k < |Strip(s, i, alnum)| ==> CharEnd(Strip(s, i, alnum), k) == 0
    decreases |s| - i
  {
    if i < |s| {
      var e := LexemeEnd(s, i, alnum);
      var next := if e == 0 then i + 1 else e;
      StripHasNoLiterals(s, next, alnum);
      var head := if e == 0 then [s[i]] else Blank(s[i..e]);
      var rest := Strip(s, next, alnum);
      var r := head + rest;
      forall k | 0 <= k < |r| ensures CharEnd(r, k) == 0 {
        if k >= |head| {
          assert r[k..] == rest[k - |head|..];
          CharEndOfSuffix(r, k);
          CharEndOfSuffix(rest, k - |head|);
        } else if e == 0 {
          NoLiteralAppears(s, i, alnum);
        } else {
          assert r[k] == head[k] && r[k] != TICK;
        }
      }
    }
  }

  /** A text without quotes, comment openers and character literals is its own stripped form. */
  lemma {:induction false} StripOfInert(r: string, i: nat, alnum: char -> bool)
    requires i <= |r| && Inert(r)
    requires forall k :: 0 <= k < |r| ==> CharEnd(r, k) == 0
    ensures Strip(r, i, alnum) == r[i..]
    decreases |r| - i
  {
    if i < |r| {
      assert LexemeEnd(r, i, alnum) == 0;
      StripOfInert(r, i + 1, alnum);
      assert [r[i]] + r[i + 1..] == r[i..];
    }
  }

  /** Stripping twice is stripping once, on every text and even when the two passes classify letters differently. */
  lemma {:induction false} StripIsIdempotent(s: string, alnum: char -> bool, alnum': char -> bool)
    ensures Strip(Strip(s, 0, alnum), 0, alnum') == Strip(s, 0, alnum)
    ensures Inert(Strip(s, 0, alnum))
  {
    var r := Strip(s, 0, alnum);
    StripIsInert(s, 0, alnum);
    StripHasNoLiterals(s, 0, alnum);
    StripOfInert(r, 0, alnum');
    assert r[0..] == r;
  }
}
