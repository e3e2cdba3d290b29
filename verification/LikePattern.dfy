/**
 The username prefix search: escaping a query into a LIKE pattern, and what that pattern
 matches under LIKE with escape "\" (PostgreSQL documentation, section 9.7.1).
 */
module LikePattern {

  /** `s.replace(c, with)` for a single character `c`. */
  function Replace(s: string, c: char, with: string): string {
    if s == [] then [] else (if s[0] == c then with else [s[0]]) + Replace(s[1..], c, with)
  }

  /** The pattern text the repository builds, before the closing `%`. */
  function Escaped(query: string): string {
    Replace(Replace(Replace(query, '\\', "\\\\"), '%', "\\%"), '_', "\\_")
  }

  predicate IsSpecial(c: char) {
    c == '\\' || c == '%' || c == '_'
  }

  /** Reference: escaping character by character. */
  function EscapedByChar(query: string): string {
    if query == [] then []
    else (if IsSpecial(query[0]) then ['\\', query[0]] else [query[0]]) + EscapedByChar(query[1..])
  }

  lemma {:induction false} ReplaceConcat(a: string, b: string, c: char, with: string)
    ensures Replace(a + b, c, with) == Replace(a, c, with) + Replace(b, c, with)
  {
    if a == [] {
      assert a + b == b;
    } else {
      assert (a + b)[1..] == a[1..] + b;
      ReplaceConcat(a[1..], b, c, with);
    }
  }

  lemma ReplaceTwo(x: char, y: char, c: char, with: string)
    ensures Replace([x], c, with) == if x == c then with else [x]
    ensures Replace([x, y], c, with) == (if x == c then with else [x]) + (if y == c then with else [y])
  {
    assert [x, y][1..] == [y];
    assert [y][1..] == [];
    assert Replace([y], c, with) == (if y == c then with else [y]) + Replace([], c, with);
  }

  /** Escaping the escape character first, then the two wildcards, is escaping each character once. */
  lemma {:induction false} ThreeReplacesEscapeOnce(query: string)
    ensures Escaped(query) == EscapedByChar(query)
  {
    if query != [] {
      var head, tail := query[0], query[1..];
      ThreeReplacesEscapeOnce(tail);
      assert query == [head] + tail;
      ReplaceConcat([head], tail, '\\', "\\\\");
      var one := Replace([head], '\\', "\\\\");
      ReplaceConcat(one, Replace(tail, '\\', "\\\\"), '%', "\\%");
      var two := Replace(one, '%', "\\%");
      ReplaceConcat(two, Replace(Replace(tail, '\\', "\\\\"), '%', "\\%"), '_', "\\_");
      EscapeOneChar(head);
    }
  }

  lemma EscapeOneChar(head: char)
    ensures Escaped([head]) == if IsSpecial(head) then ['\\', head] else [head]
  {
    ReplaceTwo(head, head, '\\', "\\\\");
    ReplaceTwo(head, head, '%', "\\%");
    ReplaceTwo(head, head, '_', "\\_");
    ReplaceTwo('\\', '\\', '%', "\\%");
    ReplaceTwo('\\', '\\', '_', "\\_");
    ReplaceTwo('\\', '%', '_', "\\_");
  }

  /** LIKE with escape `\`; a pattern ending in a lone escape character matches nothing. */
  predicate Like(pattern: string, s: string)
    decreases |pattern|, |s|
  {
    if pattern == [] then s == []
    else match pattern[0]
      case '%' => Like(pattern[1..], s) || (s != [] && Like(pattern, s[1..]))
      case '_' => s != [] && Like(pattern[1..], s[1..])
      case '\\' => |pattern| > 1 && s != [] && s[0] == pattern[1] && Like(pattern[2..], s[1..])
      case c => s != [] && s[0] == c && Like(pattern[1..], s[1..])
  }

  function LowerChar(c: char): char {
    if 'A' <= c <= 'Z' then c - 'A' + 'a' else c
  }

  function Lower(s: string): string {
    if s == [] then [] else [LowerChar(s[0])] + Lower(s[1..])
  }

  /** ILIKE compares the lower-cased pattern and text. */
  predicate Ilike(pattern: string, s: string) {
    Like(Lower(pattern), Lower(s))
  }

  lemma {:induction false} PercentMatchesAll(s: string)
    ensures Like("%", s)
  {
    if s == [] {
      assert Like("%"[1..], s);
    } else {
      PercentMatchesAll(s[1..]);
    }
  }

  /** An escaped query followed by `%` matches exactly the texts that start with the query itself. */
  lemma {:induction false} EscapedMatchesPrefix(query: string, s: string)
    ensures Like(EscapedByChar(query) + "%", s) <==> query <= s
  {
    var pattern := EscapedByChar(query) + "%";
    if query == [] {
      assert pattern == "%";
      PercentMatchesAll(s);
    } else {
      var rest := EscapedByChar(query[1..]) + "%";
      if IsSpecial(query[0]) {
        assert pattern == ['\\', query[0]] + rest && pattern[2..] == rest;
      } else {
        assert pattern == [query[0]] + rest && pattern[1..] == rest;
      }
      if s != [] {
        EscapedMatchesPrefix(query[1..], s[1..]);
        assert query <= s <==> query[0] == s[0] && query[1..] <= s[1..] by {
          assert query == [query[0]] + query[1..] && s == [s[0]] + s[1..];
        }
      }
    }
  }

  lemma {:induction false} LowerConcat(a: string, b: string)
    ensures Lower(a + b) == Lower(a) + Lower(b)
  {
    if a == [] {
      assert a + b == b;
    } else {
      assert (a + b)[1..] == a[1..] + b;
      LowerConcat(a[1..], b);
    }
  }

  lemma LowerShort(x: char, y: char)
    ensures Lower([x]) == [LowerChar(x)] && Lower([x, y]) == [LowerChar(x), LowerChar(y)]
  {
    assert [x, y][1..] == [y] && [y][1..] == [] && [x][1..] == [];
  }

  /** Lower-casing a pattern is escaping the lower-cased query: it touches no special character. */
  lemma {:induction false} LowerOfEscaped(query: string)
    ensures Lower(EscapedByChar(query)) == EscapedByChar(Lower(query))
  {
    if query != [] {
      var head := if IsSpecial(query[0]) then ['\\', query[0]] else [query[0]];
      LowerOfEscaped(query[1..]);
      LowerConcat(head, EscapedByChar(query[1..]));
      LowerShort(query[0], query[0]);
      LowerShort('\\', query[0]);
      assert Lower(query)[0] == LowerChar(query[0]) && Lower(query)[1..] == Lower(query[1..]);
    }
  }

  /**
   For every query and every username, the search pattern matches exactly when the query is a
   literal prefix of the name, up to case: no `%`, `_` or `\` in a query acts as a wildcard.
   */
  lemma SearchMatchesLiteralPrefix(query: string, username: string)
    ensures Ilike(Escaped(query) + "%", username) <==> Lower(query) <= Lower(username)
  {
    ThreeReplacesEscapeOnce(query);
    LowerConcat(EscapedByChar(query), "%");
    LowerOfEscaped(query);
    LowerShort('%', '%');
    EscapedMatchesPrefix(Lower(query), Lower(username));
  }

  /** Without the escaping an underscore in a query would match any character. */
  lemma UnescapedUnderscoreIsAWildcard()
    ensures Ilike("a_" + "%", "abc") && !("a_" <= "abc")
  {
    assert Lower("a_%") == "a_%" by {
      LowerShort('a', '_');
      LowerConcat("a_", "%");
      LowerShort('%', '%');
      assert "a_" + "%" == "a_%";
    }
    assert Lower("abc") == "abc" by {
      LowerShort('a', 'b');
      LowerConcat("ab", "c");
      LowerShort('c', 'c');
      assert "ab" + "c" == "abc";
    }
    assert "a_%"[1..] == "_%" && "_%"[1..] == "%" && "abc"[1..] == "bc" && "bc"[1..] == "c";
    PercentMatchesAll("c");
  }
}
