/**
 Searching for a text literally with SQL LIKE (app/cases/services.py, app/evidence/services.py,
 app/users/services.py, app/search/services.py): escape the wildcards, and match with ESCAPE '!'.
 */
module LikePattern {

  /** str.replace of one character. */
  function Replace(s: string, c: char, put: string): string {
    if s == "" then "" else (if s[0] == c then put else [s[0]]) + Replace(s[1..], c, put)
  }

  /** The three passes, one after the other, each over the output of the one before. */
  function Escaped(text: string): string {
    Replace(Replace(Replace(text, '!', "!!"), '%', "!%"), '_', "!_")
  }

  function LikePattern(text: string): string {
    "%" + Escaped(text) + "%"
  }

  // ---------------------------------------------------------------------------
  // LIKE: ISO/IEC 9075:1992, section 8.5
  // ---------------------------------------------------------------------------

  /**
   Does s match the pattern? `%` is any string, `_` any one character, and a character after the
   escape character stands for itself. Characters are compared by `same`, so the result holds for any
   collation that compares character by character.
   */
  predicate Like(same: (char, char) -> bool, esc: char, pattern: string, s: string)
    decreases |pattern|, |s|
  {
    if pattern == "" then s == ""
    else if pattern[0] == esc && |pattern| > 1 then
      s != "" && same(pattern[1], s[0]) && Like(same, esc, pattern[2..], s[1..])
    else if pattern[0] == '%' then
      Like(same, esc, pattern[1..], s) || (s != "" && Like(same, esc, pattern, s[1..]))
    else if pattern[0] == '_' then s != "" && Like(same, esc, pattern[1..], s[1..])
    else s != "" && same(pattern[0], s[0]) && Like(same, esc, pattern[1..], s[1..])
  }

  predicate StartsWith(same: (char, char) -> bool, s: string, text: string) {
    |text| <= |s| && forall k | 0 <= k < |text| :: same(text[k], s[k])
  }

  /** s contains text somewhere. */
  predicate Contains(same: (char, char) -> bool, s: string, text: string) {
    exists i | 0 <= i <= |s| :: StartsWith(same, s[i..], text)
  }

  // ---------------------------------------------------------------------------
  // Three passes are one
  // ---------------------------------------------------------------------------

  predicate Special(c: char) {
    c == '!' || c == '%' || c == '_'
  }

  function EscapedOnce(text: string): string {
    if text == "" then ""
    else (if Special(text[0]) then ['!', text[0]] else [text[0]]) + EscapedOnce(text[1..])
  }

  lemma {:induction false} ReplaceConcat(s: string, t: string, c: char, put: string)
    ensures Replace(s + t, c, put) == Replace(s, c, put) + Replace(t, c, put)
  {
    if s == "" {
      assert s + t == t;
    } else {
      var head := if s[0] == c then put else [s[0]];
      var x, y := Replace(s[1..], c, put), Replace(t, c, put);
      assert Replace(s + t, c, put) == head + Replace(s[1..] + t, c, put) by {
        assert (s + t)[0] == s[0] && (s + t)[1..] == s[1..] + t;
      }
      assert Replace(s[1..] + t, c, put) == x + y by { ReplaceConcat(s[1..], t, c, put); }
      assert head + (x + y) == (head + x) + y;
    }
  }

  lemma ReplaceOne(x: char, c: char, put: string)
    ensures Replace([x], c, put) == if x == c then put else [x]
  {
    assert [x][1..] == "";
  }

  lemma ReplaceTwo(x: char, y: char, c: char, put: string)
    ensures Replace([x, y], c, put) == (if x == c then put else [x]) + (if y == c then put else [y])
  {
    assert [x, y] == [x] + [y];
    ReplaceConcat([x], [y], c, put);
    ReplaceOne(x, c, put);
    ReplaceOne(y, c, put);
  }

  lemma EscapedChar(x: char)
    ensures Escaped([x]) == if Special(x) then ['!', x] else [x]
  {
    ReplaceOne(x, '!', "!!");
    if x == '!' {
      ReplaceTwo('!', '!', '%', "!%");
      ReplaceTwo('!', '!', '_', "!_");
    } else {
      ReplaceOne(x, '%', "!%");
      ReplaceTwo('!', '%', '_', "!_");
      ReplaceOne(x, '_', "!_");
    }
  }

  lemma EscapedConcat(s: string, t: string)
    ensures Escaped(s + t) == Escaped(s) + Escaped(t)
  {
    ReplaceConcat(s, t, '!', "!!");
    var s1, t1 := Replace(s, '!', "!!"), Replace(t, '!', "!!");
    ReplaceConcat(s1, t1, '%', "!%");
    ReplaceConcat(Replace(s1, '%', "!%"), Replace(t1, '%', "!%"), '_', "!_");
  }

  /** The order of the passes matters, and this one is right: the text is escaped exactly once. */
  lemma {:induction false} ThreePassesAreOne(text: string)
    ensures Escaped(text) == EscapedOnce(text)
  {
    if text != "" {
      assert text == [text[0]] + text[1..];
      EscapedConcat([text[0]], text[1..]);
      EscapedChar(text[0]);
      ThreePassesAreOne(text[1..]);
    }
  }

  /** Escaping '!' last instead would escape the escapes: '%' then comes out as three characters. */
  lemma OrderMatters()
    ensures Replace(Replace("%", '%', "!%"), '!', "!!") == "!!%" != Escaped("%")
  {
    EscapedChar('%');
    ReplaceOne('%', '%', "!%");
    ReplaceTwo('!', '%', '!', "!!");
  }

  // ---------------------------------------------------------------------------
  // The matcher reads the escape back as literal characters
  // ---------------------------------------------------------------------------

  lemma StartsWithCons(same: (char, char) -> bool, s: string, text: string)
    requires text != ""
    ensures StartsWith(same, s, text) <==> s != "" && same(text[0], s[0]) && StartsWith(same, s[1..], text[1..])
  {
    if s != "" && same(text[0], s[0]) && StartsWith(same, s[1..], text[1..]) {
      forall k | 0 <= k < |text| ensures same(text[k], s[k]) {
        if k > 0 { assert same(text[1..][k - 1], s[1..][k - 1]); }
      }
    }
    if StartsWith(same, s, text) {
      forall k | 0 <= k < |text[1..]| ensures same(text[1..][k], s[1..][k]) {
        assert same(text[k + 1], s[k + 1]);
      }
    }
  }

  /** An escaped text followed by any pattern: the text literally, then the pattern on the rest. */
  lemma {:induction false} EscapedIsLiteral(same: (char, char) -> bool, text: string, rest: string, s: string)
    ensures Like(same, '!', EscapedOnce(text) + rest, s)
       <==> StartsWith(same, s, text) && Like(same, '!', rest, s[|text|..])
  {
    if text == "" {
      assert EscapedOnce(text) + rest == rest && s[0..] == s;
    } else {
      var p := EscapedOnce(text) + rest;
      var tail := EscapedOnce(text[1..]) + rest;
      StartsWithCons(same, s, text);
      if Special(text[0]) {
        assert p[0] == '!' && p[1] == text[0] && p[2..] == tail;
      } else {
        assert p[0] == text[0] && p[1..] == tail;
      }
      if s != "" {
        EscapedIsLiteral(same, text[1..], rest, s[1..]);
        if |text| <= |s| { assert s[1..][|text| - 1..] == s[|text|..]; }
      }
    }
  }

  lemma {:induction false} PercentIsAnySuffix(same: (char, char) -> bool, esc: char, p: string, s: string)
    requires esc != '%'
    ensures Like(same, esc, "%" + p, s) <==> exists i | 0 <= i <= |s| :: Like(same, esc, p, s[i..])
    decreases |s|
  {
    var q := "%" + p;
    assert q[1..] == p && s[0..] == s;
    if s != "" {
      PercentIsAnySuffix(same, esc, p, s[1..]);
      forall i | 0 <= i < |s| ensures s[1..][i..] == s[i + 1..] {
      }
      if i :| 0 < i <= |s| && Like(same, esc, p, s[i..]) {
        assert s[1..][i - 1..] == s[i..];
      }
    }
  }

  lemma PercentMatchesAll(same: (char, char) -> bool, esc: char, s: string)
    requires esc != '%'
    ensures Like(same, esc, "%", s)
  {
    PercentIsAnySuffix(same, esc, "", s);
    assert "%" + "" == "%" && s[|s|..] == "";
  }

  /**
   For every text and every string: the pattern matches exactly the strings that contain the text.
   */
  lemma LikeMeansContains(same: (char, char) -> bool, text: string, s: string)
    ensures Like(same, '!', LikePattern(text), s) <==> Contains(same, s, text)
  {
    ThreePassesAreOne(text);
    var e := EscapedOnce(text) + "%";
    assert LikePattern(text) == "%" + e;
    PercentIsAnySuffix(same, '!', e, s);
    forall i | 0 <= i <= |s| ensures Like(same, '!', e, s[i..]) <==> StartsWith(same, s[i..], text) {
      EscapedIsLiteral(same, text, "%", s[i..]);
      if |text| <= |s[i..]| {
        PercentMatchesAll(same, '!', s[i..][|text|..]);
      }
    }
  }

  // ---------------------------------------------------------------------------
  // The hash-prefix search: no escaping, because the text is hexadecimal
  // ---------------------------------------------------------------------------

  predicate IsHex(c: char) {
    '0' <= c <= '9' || 'a' <= c <= 'f'
  }

  function Lower(s: string): string {
    seq(|s|, i requires 0 <= i < |s| => if 'A' <= s[i] <= 'Z' then s[i] - 'A' + 'a' else s[i])
  }

  /** HEX_RE on the lower-cased query. */
  predicate LooksLikeHash(q: string) {
    8 <= |q| <= 64 && forall i | 0 <= i < |q| :: IsHex(Lower(q)[i])
  }

  /** Which queries are searched as hashes: 8 to 64 hexadecimal digits, in either case. */
  lemma LooksLikeHashIff(q: string)
    ensures LooksLikeHash(q) <==> 8 <= |q| <= 64 && forall c | c in q :: c in "0123456789abcdefABCDEF"
  {
    forall c ensures IsHex(Lower([c])[0]) <==> c in "0123456789abcdefABCDEF" {
      HexDigit(c);
    }
    forall i | 0 <= i < |q| ensures IsHex(Lower(q)[i]) <==> q[i] in "0123456789abcdefABCDEF" {
      assert Lower(q)[i] == Lower([q[i]])[0];
    }
  }

  lemma HexDigit(c: char)
    ensures IsHex(Lower([c])[0]) <==> c in "0123456789abcdefABCDEF"
  {
    var digits := "0123456789abcdefABCDEF";
    if '0' <= c <= '9' { assert digits[(c - '0') as int] == c; }
    if 'a' <= c <= 'f' { assert digits[10 + (c - 'a') as int] == c; }
    if 'A' <= c <= 'F' { assert digits[16 + (c - 'A') as int] == c; }
    if c in digits {
      var i :| 0 <= i < |digits| && digits[i] == c;
    }
  }

  lemma {:induction false} PlainThenPercent(same: (char, char) -> bool, esc: char, text: string, s: string)
    requires esc != '%' && forall i | 0 <= i < |text| :: text[i] != esc && text[i] != '%' && text[i] != '_'
    ensures Like(same, esc, text + "%", s) <==> StartsWith(same, s, text)
  {
    if text == "" {
      assert text + "%" == "%";
      PercentMatchesAll(same, esc, s);
    } else {
      assert (text + "%")[1..] == text[1..] + "%";
      StartsWithCons(same, s, text);
      if s != "" {
        PlainThenPercent(same, esc, text[1..], s[1..]);
      }
    }
  }

  /** What `q.lower() + "%"` finds, under LIKE's default escape: the hashes that start with the query. */
  lemma HashSearchIsPrefix(same: (char, char) -> bool, q: string, hash: string)
    requires LooksLikeHash(q)
    ensures Like(same, '\\', Lower(q) + "%", hash) <==> StartsWith(same, hash, Lower(q))
  {
    forall i | 0 <= i < |Lower(q)| ensures Lower(q)[i] != '\\' && Lower(q)[i] != '%' && Lower(q)[i] != '_' {
      assert IsHex(Lower(q)[i]);
    }
    PlainThenPercent(same, '\\', Lower(q), hash);
  }
}
