/** Which texts start a comment or literal of scripts/check_edition_boundary.py, and where line comments, raw strings and
    character literals end, stated on the characters alone. */
module LexemeTheory {
  import opened StripCode

  /** The text `t` stands at `i`. */
  predicate StandsAt(s: string, i: nat, t: string)
  {
    i + |t| <= |s| && s[i..i + |t|] == t
  }

  /** A line comment is blanked up to the next newline, which stays, or to the end of the text. */
  lemma {:induction false} LineCommentsEndAtTheirNewline(s: string, i: nat, alnum: char -> bool)
    requires StandsAt(s, i, "//")
    ensures var e := LexemeEnd(s, i, alnum);
            i + 2 <= e <= |s| && (forall k :: i <= k < e ==> s[k] != '\n') && (e == |s| || s[e] == '\n')
  {
    assert s[i] == s[i..i + 2][0] && s[i + 1] == s[i..i + 2][1];
    LineEndIsFirstNewline(s, i + 2);
  }

  lemma {:induction false} LineEndIsFirstNewline(s: string, j: nat)
    requires j <= |s|
    ensures var e := LineEnd(s, j); (forall k :: j <= k < e ==> s[k] != '\n') && (e == |s| || s[e] == '\n')
    decreases |s| - j
  {
    if j < |s| && s[j] != '\n' { LineEndIsFirstNewline(s, j + 1); }
  }

  // ---------------------------------------------------------------- raw strings

  function Hashes(n: nat): (t: string)
    ensures |t| == n && forall k :: 0 <= k < n ==> t[k] == '#'
  {
    if n == 0 then "" else "#" + Hashes(n - 1)
  }

  /** A raw string opens at `i`: `r` or `br`, some hashes and a quote. */
  ghost predicate RawOpener(s: string, i: nat, prefix: string, hashes: nat)
  {
    prefix in {"r", "br"} && StandsAt(s, i, prefix + Hashes(hashes) + "\"")
  }

  /** No letter, digit or underscore stands directly before `i`. */
  predicate AfterBoundary(s: string, i: nat, alnum: char -> bool)
    requires i <= |s|
  {
    i == 0 || !(alnum(s[i - 1]) || s[i - 1] == '_')
  }

  lemma {:induction false} HashesRun(s: string, h: nat, n: nat)
    requires h + n < |s| && (forall k :: h <= k < h + n ==> s[k] == '#') && s[h + n] != '#'
    ensures HashEnd(s, h) == h + n
    decreases n
  {
    if n > 0 { HashesRun(s, h + 1, n - 1); }
  }

  lemma {:induction false} HashEndIsARun(s: string, h: nat)
    requires h <= |s|
    ensures forall k :: h <= k < HashEnd(s, h) ==> s[k] == '#'
    decreases |s| - h
  {
    if h < |s| && s[h] == '#' { HashEndIsARun(s, h + 1); }
  }

  lemma {:induction false} OpenerText(s: string, i: nat, prefix: string, hashes: nat)
    requires prefix in {"r", "br"}
    ensures RawOpener(s, i, prefix, hashes) <==>
              && i + |prefix| + hashes < |s| && s[i + |prefix| + hashes] == '\"'
              && s[i..i + |prefix|] == prefix && forall k :: i + |prefix| <= k < i + |prefix| + hashes ==> s[k] == '#'
  {
    var t, n := prefix + Hashes(hashes) + "\"", |prefix|;
    if i + n + hashes < |s| {
      var u := s[i..i + |t|];
      assert |t| == n + hashes + 1 && t[n + hashes] == '\"' && t[..n] == prefix;
      if u == t {
        assert u[n + hashes] == s[i + n + hashes] && u[..n] == s[i..i + n];
        forall k | i + n <= k < i + n + hashes ensures s[k] == '#' { assert u[k - i] == s[k] && t[k - i] == '#'; }
      }
      if s[i + n + hashes] == '\"' && s[i..i + n] == prefix && forall k :: i + n <= k < i + n + hashes ==> s[k] == '#' {
        forall k | 0 <= k < |t| ensures u[k] == t[k] {
          if k < n { assert u[k] == s[i..i + n][k]; }
        }
        assert u == t;
      }
    }
  }

  /** The scan finds a raw string exactly where one opens after a boundary; and it reads its prefix and hashes right. */
  lemma {:induction false} RawStringsOpenExactlyWhere(s: string, i: nat, alnum: char -> bool)
    requires i < |s|
    ensures OpensRaw(s, i, alnum) <==> AfterBoundary(s, i, alnum) && exists prefix, hashes :: RawOpener(s, i, prefix, hashes)
    ensures forall prefix, hashes :: RawOpener(s, i, prefix, hashes) ==>
              RawPrefix(s, i) == i + |prefix| && HashEnd(s, RawPrefix(s, i)) == i + |prefix| + hashes
  {
    forall prefix, hashes | RawOpener(s, i, prefix, hashes)
      ensures RawPrefix(s, i) == i + |prefix| && HashEnd(s, RawPrefix(s, i)) == i + |prefix| + hashes
      ensures s[i + |prefix| + hashes] == '\"' && i + |prefix| + hashes < |s|
    {
      OpenerText(s, i, prefix, hashes);
      assert s[i] == s[i..i + |prefix|][0];
      if prefix == "br" { assert s[i + 1] == s[i..i + 2][1]; }
      HashesRun(s, i + |prefix|, hashes);
    }
    if OpensRaw(s, i, alnum) {
      var h := RawPrefix(s, i);
      var prefix := if s[i] == 'r' then "r" else "br";
      assert s[i..h] == prefix;
      HashEndIsARun(s, h);
      OpenerText(s, i, prefix, HashEnd(s, h) - h);
    }
  }

  /** A raw string is blanked up to its first quote with the opening number of hashes, or to the end of the text. */
  lemma {:induction false} RawStringsEndAtTheirDelimiter(s: string, i: nat, alnum: char -> bool, prefix: string, hashes: nat)
    requires i < |s| && AfterBoundary(s, i, alnum) && RawOpener(s, i, prefix, hashes)
    ensures IsFirstEnd(s, i + |prefix| + hashes + 1, "\"" + Hashes(hashes), LexemeEnd(s, i, alnum))
  {
    RawStringsOpenExactlyWhere(s, i, alnum);
    OpenerText(s, i, prefix, hashes);
    assert s[i] == s[i..i + |prefix|][0];
    RawEndIsFirst(s, i + |prefix| + hashes + 1, hashes);
  }

  lemma {:induction false} CloserText(s: string, k: nat, hashes: nat)
    ensures ClosesRaw(s, k, hashes) <==> StandsAt(s, k, "\"" + Hashes(hashes))
  {
    var t := "\"" + Hashes(hashes);
    if k + |t| <= |s| {
      var u := s[k..k + |t|];
      forall m | 0 <= m < |t| ensures u[m] == s[k + m] { }
      if ClosesRaw(s, k, hashes) { assert u == t; }
      if u == t {
        assert s[k] == u[0];
        forall m | k < m <= k + hashes ensures s[m] == '#' { assert u[m - k] == t[m - k]; }
      }
    }
  }

  /** `e` is the end of the first closing text at or after `j`, or of the whole text if there is none. */
  ghost predicate IsFirstEnd(s: string, j: nat, close: string, e: nat)
  {
    if exists k :: j <= k && StandsAt(s, k, close)
    then j + |close| <= e && StandsAt(s, e - |close|, close) && forall k :: j <= k && StandsAt(s, k, close) ==> e - |close| <= k
    else e == |s|
  }

  lemma {:induction false} RawEndIsFirst(s: string, j: nat, hashes: nat)
    requires j <= |s|
    ensures IsFirstEnd(s, j, "\"" + Hashes(hashes), RawEnd(s, j, hashes))
    decreases |s| - j
  {
    var close := "\"" + Hashes(hashes);
    CloserText(s, j, hashes);
    if j < |s| && !ClosesRaw(s, j, hashes) {
      RawEndIsFirst(s, j + 1, hashes);
      assert forall k :: j <= k && StandsAt(s, k, close) ==> j + 1 <= k;
    }
  }

  // ---------------------------------------------------------------- character literals

  predicate HexOrUnderscore(c: char, underscore: bool)
  {
    c in "0123456789abcdefABCDEF" || (underscore && c == '_')
  }

  /** The whole text is a character literal: a plain character, an escaped one, `\x` with two hex digits, or `\u{...}`. */
  predicate IsCharLiteral(t: string)
  {
    && |t| >= 3 && t[0] == '\'' && t[|t| - 1] == '\''
    && if t[1] != '\\' then |t| == 3 && t[1] != '\''
       else
         || (|t| == 4 && t[2] != '\n')
         || (|t| == 6 && t[2] == 'x' && HexOrUnderscore(t[3], false) && HexOrUnderscore(t[4], false))
         || (|t| >= 7 && t[2] == 'u' && t[3] == '{' && t[|t| - 2] == '}'
             && forall k :: 4 <= k < |t| - 2 ==> HexOrUnderscore(t[k], true))
  }

  lemma {:induction false} HexIsHex(c: char)
    ensures HexDigit(c) <==> HexOrUnderscore(c, false)
  {
    var hex := "0123456789abcdefABCDEF";
    assert HexDigit(c) ==> c in hex by {
      if '0' <= c <= '9' { assert hex[c as int - '0' as int] == c; }
      if 'a' <= c <= 'f' { assert hex[10 + c as int - 'a' as int] == c; }
      if 'A' <= c <= 'F' { assert hex[16 + c as int - 'A' as int] == c; }
    }
  }

  lemma {:induction false} HexRunIsRun(s: string, j: nat, n: nat)
    requires j + n < |s| && (forall k :: j <= k < j + n ==> HexDigit(s[k]) || s[k] == '_') && s[j + n] == '}'
    ensures HexRunEnd(s, j) == j + n
    decreases n
  {
    if n > 0 { HexRunIsRun(s, j + 1, n - 1); }
  }

  lemma {:induction false} SliceAt(s: string, i: nat, k: nat, m: nat)
    requires i <= k <= |s| && m < k - i
    ensures s[i..k][m] == s[i + m]
  {
  }

  lemma {:induction false} FoundIsALiteral(s: string, i: nat)
    requires i < |s| && CharEnd(s, i) != 0
    ensures IsCharLiteral(s[i..CharEnd(s, i)])
  {
    var k := CharEnd(s, i);
    var t := s[i..k];
    forall m | 0 <= m < |t| ensures t[m] == s[i + m] && (HexDigit(t[m]) <==> HexOrUnderscore(t[m], false)) {
      SliceAt(s, i, k, m);
      HexIsHex(t[m]);
    }
  }

  lemma {:induction false} BracedLiteralIsFound(s: string, i: nat, k: nat)
    requires i + 7 <= k <= |s| && IsCharLiteral(s[i..k]) && s[i + 1] == '\\'
    ensures CharEnd(s, i) == k
  {
    var t := s[i..k];
    forall m | 0 <= m < |t| ensures t[m] == s[i + m] && (HexDigit(t[m]) <==> HexOrUnderscore(t[m], false)) {
      SliceAt(s, i, k, m);
      HexIsHex(t[m]);
    }
    assert t[1] == s[i + 1];
    forall m | i + 4 <= m < k - 2 ensures HexDigit(s[m]) || s[m] == '_' { assert t[m - i] == s[m]; }
    assert s[i] == t[0] && s[i + 2] == t[2] && s[i + 3] == t[3] && s[k - 2] == t[|t| - 2] && s[k - 1] == t[|t| - 1];
    HexRunIsRun(s, i + 4, k - 2 - (i + 4));
  }

  lemma {:induction false} ShortLiteralIsFound(s: string, i: nat, k: nat)
    requires i < k <= |s| && IsCharLiteral(s[i..k]) && (k < i + 7 || s[i + 1] != '\\')
    ensures CharEnd(s, i) == k
  {
    var t := s[i..k];
    assert s[i] == t[0] && s[i + 1] == t[1] && s[i + 2] == t[2] && s[k - 1] == t[|t| - 1];
    if |t| > 3 {
      assert s[i + 3] == t[3];
      if |t| == 6 {
        assert s[i + 4] == t[4];
        HexIsHex(t[3]);
        HexIsHex(t[4]);
      }
    }
  }

  /** The scan finds a character literal exactly where one stands, and its end is the literal's end. */
  lemma {:induction false} CharLiteralsAreFound(s: string, i: nat, k: nat)
    requires i < k <= |s|
    ensures IsCharLiteral(s[i..k]) <==> CharEnd(s, i) == k
  {
    if CharEnd(s, i) == k { FoundIsALiteral(s, i); }
    if IsCharLiteral(s[i..k]) {
      SliceAt(s, i, k, 1);
      if i + 7 <= k && s[i + 1] == '\\' { BracedLiteralIsFound(s, i, k); } else { ShortLiteralIsFound(s, i, k); }
    }
  }

  // ---------------------------------------------------------------- what starts a lexeme

  /** A comment or literal starts exactly at a comment opener, a raw string after a boundary, a quote or a character literal. */
  lemma {:induction false} LexemesStartExactlyWhere(s: string, i: nat, alnum: char -> bool)
    requires i < |s|
    ensures LexemeEnd(s, i, alnum) != 0 <==>
              || StandsAt(s, i, "//") || StandsAt(s, i, "/*") || s[i] == '\"'
              || (AfterBoundary(s, i, alnum) && exists prefix, hashes :: RawOpener(s, i, prefix, hashes))
              || exists k :: i < k <= |s| && IsCharLiteral(s[i..k])
  {
    PairStands(s, i, "//");
    PairStands(s, i, "/*");
    RawStringsOpenExactlyWhere(s, i, alnum);
    if k :| i < k <= |s| && IsCharLiteral(s[i..k]) { CharLiteralsAreFound(s, i, k); }
    if CharEnd(s, i) != 0 { CharLiteralsAreFound(s, i, CharEnd(s, i)); }
  }

  lemma {:induction false} PairStands(s: string, i: nat, t: string)
    requires |t| == 2
    ensures Pair(s, i, t[0], t[1]) <==> StandsAt(s, i, t)
  {
    if i + 2 <= |s| {
      assert s[i..i + 2][0] == s[i] && s[i..i + 2][1] == s[i + 1];
      if Pair(s, i, t[0], t[1]) { assert s[i..i + 2] == t; }
    }
  }

  /** The end of a character literal that no other lexeme hides. */
  lemma {:induction false} CharLiteralsEndAtTheirTick(s: string, i: nat, k: nat, alnum: char -> bool)
    requires i < k <= |s| && IsCharLiteral(s[i..k])
    ensures LexemeEnd(s, i, alnum) == k
  {
    assert s[i] == s[i..k][0];
    CharLiteralsAreFound(s, i, k);
  }
}
