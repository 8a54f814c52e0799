/** SQL LIKE (PostgreSQL 16 manual, section 9.7.1) and the escaping that makes a literal pattern. */
module LikePattern {
  import opened Text

  /** `s LIKE p` with the default escape character. */
  predicate Like(s: string, p: string)
    decreases |p|, |s|
  {
    if p == "" then s == ""
    else if p[0] == '%' then Like(s, p[1..]) || (s != "" && Like(s[1..], p))
    else if p[0] == '_' then s != "" && Like(s[1..], p[1..])
    else if p[0] == '\\' then |p| > 1 && s != "" && s[0] == p[1] && Like(s[1..], p[2..])
    else s != "" && s[0] == p[0] && Like(s[1..], p[1..])
  }

  /** `str::replace` of one character. */
  function ReplaceAll(s: string, c: char, with: string): string {
    if s == "" then ""
    else (if s[0] == c then with else [s[0]]) + ReplaceAll(s[1..], c, with)
  }

  /** `escape_like`: three replacements, the backslash first. */
  function EscapeLike(s: string): string {
    ReplaceAll(ReplaceAll(ReplaceAll(s, '\\', "\\\\"), '%', "\\%"), '_', "\\_")
  }

  function EscapedChar(c: char): string {
    if c == '\\' || c == '%' || c == '_' then ['\\', c] else [c]
  }

  function EscapedOnePass(s: string): string {
    if s == "" then "" else EscapedChar(s[0]) + EscapedOnePass(s[1..])
  }

  lemma {:induction false} ReplaceAllConcat(a: string, b: string, c: char, with: string)
    ensures ReplaceAll(a + b, c, with) == ReplaceAll(a, c, with) + ReplaceAll(b, c, with)
  {
    if a == "" {
      assert a + b == b;
    } else {
      assert (a + b)[1..] == a[1..] + b;
      ReplaceAllConcat(a[1..], b, c, with);
    }
  }

  lemma ReplaceInShortText(x: char, y: char, c: char, with: string)
    ensures ReplaceAll([x], c, with) == (if x == c then with else [x])
    ensures ReplaceAll([x, y], c, with) == (if x == c then with else [x]) + (if y == c then with else [y])
  {
    assert [x][1..] == "";
    assert [y][1..] == "";
    assert [x, y][1..] == [y];
  }

  lemma EscapeOneChar(c: char)
    ensures EscapeLike([c]) == EscapedChar(c)
  {
    ReplaceInShortText(c, c, '\\', "\\\\");
    ReplaceInShortText(c, c, '%', "\\%");
    ReplaceInShortText(c, c, '_', "\\_");
    ReplaceInShortText('\\', '%', '_', "\\_");
  }

  /** The three sequential replacements do what one pass over the characters does. */
  lemma {:induction false} EscapeIsOnePass(s: string)
    ensures EscapeLike(s) == EscapedOnePass(s)
  {
    if s != "" {
      var head, tail := [s[0]], s[1..];
      assert s == head + tail;
      var h1, t1 := ReplaceAll(head, '\\', "\\\\"), ReplaceAll(tail, '\\', "\\\\");
      var h2, t2 := ReplaceAll(h1, '%', "\\%"), ReplaceAll(t1, '%', "\\%");
      ReplaceAllConcat(head, tail, '\\', "\\\\");
      ReplaceAllConcat(h1, t1, '%', "\\%");
      ReplaceAllConcat(h2, t2, '_', "\\_");
      EscapeOneChar(s[0]);
      EscapeIsOnePass(tail);
    }
  }

  predicate StartsWith(s: string, prefix: string) {
    |prefix| <= |s| && s[..|prefix|] == prefix
  }

  lemma StartsWithStep(s: string, v: string)
    requires s != "" && v != ""
    ensures StartsWith(s, v) <==> s[0] == v[0] && StartsWith(s[1..], v[1..])
    ensures StartsWith(s, v) ==> s[|v|..] == s[1..][|v| - 1..]
  {
    if |v| <= |s| {
      assert s[..|v|] == [s[0]] + s[1..][..|v| - 1];
      assert v == [v[0]] + v[1..];
    }
  }

  lemma EscapedCharMatchesItself(s: string, c: char, rest: string)
    ensures Like(s, EscapedChar(c) + rest) <==> s != "" && s[0] == c && Like(s[1..], rest)
  {
    var p := EscapedChar(c) + rest;
    assert p[|EscapedChar(c)|..] == rest;
  }

  /** An escaped literal at the front of a pattern matches exactly that literal. */
  lemma {:induction false} EscapedMatchesLiterally(s: string, v: string, rest: string)
    ensures Like(s, EscapedOnePass(v) + rest)
       <==> StartsWith(s, v) && Like(s[|v|..], rest)
  {
    if v == "" {
      assert EscapedOnePass(v) + rest == rest;
      assert s[|v|..] == s;
    } else {
      var tail := EscapedOnePass(v[1..]) + rest;
      assert EscapedOnePass(v) + rest == EscapedChar(v[0]) + tail;
      EscapedCharMatchesItself(s, v[0], tail);
      if s != "" {
        StartsWithStep(s, v);
        EscapedMatchesLiterally(s[1..], v[1..], rest);
      }
    }
  }

  lemma {:induction false} PercentMatchesAll(s: string)
    ensures Like(s, "%")
  {
    assert "%"[1..] == "";
    if s != "" {
      PercentMatchesAll(s[1..]);
    }
  }

  lemma {:induction false} LeadingPercentTriesEverySuffix(s: string, p: string)
    ensures Like(s, "%" + p) <==> exists i :: 0 <= i <= |s| && Like(s[i..], p)
  {
    assert ("%" + p)[1..] == p;
    assert s[0..] == s;
    if s != "" {
      LeadingPercentTriesEverySuffix(s[1..], p);
      forall i | 0 <= i < |s| ensures s[1..][i..] == s[i + 1..] {
      }
      if Like(s, "%" + p) && !Like(s, p) {
        var i :| 0 <= i <= |s[1..]| && Like(s[1..][i..], p);
        assert Like(s[i + 1..], p);
      }
      if i :| 0 <= i <= |s| && Like(s[i..], p) {
        if i > 0 {
          assert Like(s[1..][i - 1..], p);
        }
      }
    }
  }

  /** A LIKE against the escaped needle between two wildcards is plain containment. */
  lemma LikeOfEscapedIsContains(s: string, v: string)
    ensures Like(s, "%" + EscapeLike(v) + "%") <==> Contains(s, v)
  {
    var body := EscapedOnePass(v) + "%";
    EscapeIsOnePass(v);
    assert "%" + EscapeLike(v) + "%" == "%" + body;
    LeadingPercentTriesEverySuffix(s, body);
    forall i | 0 <= i <= |s| ensures Like(s[i..], body) <==> OccursAt(s, v, i) {
      EscapedMatchesLiterally(s[i..], v, "%");
      if |v| <= |s[i..]| {
        PercentMatchesAll(s[i..][|v|..]);
        assert s[i..][..|v|] == s[i..i + |v|];
      }
    }
  }

  /** The wildcards of LIKE: an underscore stands for exactly one character, a percent for any text. */
  lemma WildcardsMean(s: string)
    ensures Like(s, "_") <==> |s| == 1
    ensures Like(s, "%")
    ensures Like(s, "") <==> s == ""
  {
    PercentMatchesAll(s);
    if s != "" {
      assert Like(s, "_") <==> Like(s[1..], "");
    }
  }
}
