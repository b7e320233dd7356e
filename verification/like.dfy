// SQL LIKE as SQLite evaluates it with ESCAPE '\', and the escaping of user-given prefixes.
module Like {
  import opened Text

  const ESC: char := '\\'
  const ANY: char := '%'
  const ONE: char := '_'

  // LIKE ignores the case of ASCII letters and of no others.
  function Fold(c: char): char {
    if 'A' <= c <= 'Z' then (c as int + 32) as char else c
  }

  function FoldAll(s: string): string {
    seq(|s|, i requires 0 <= i < |s| => Fold(s[i]))
  }

  /** s LIKE pattern ESCAPE '\'. */
  predicate Matches(pattern: string, s: string)
    decreases |pattern|
  {
    if pattern == "" then s == ""
    else if pattern[0] == ANY then exists k | 0 <= k <= |s| :: Matches(pattern[1..], s[k..])
    else if pattern[0] == ESC then
      |pattern| > 1 && s != "" && Fold(pattern[1]) == Fold(s[0]) && Matches(pattern[2..], s[1..])
    else
      s != "" && (pattern[0] == ONE || Fold(pattern[0]) == Fold(s[0])) && Matches(pattern[1..], s[1..])
  }

  predicate Special(c: char) { c == ESC || c == ANY || c == ONE }

  function EscapeChar(c: char): string { if Special(c) then [ESC, c] else [c] }

  /** escapeLike: a backslash in front of each special character. */
  function Escape(s: string): string {
    if s == "" then "" else EscapeChar(s[0]) + Escape(s[1..])
  }

  /** The prefix search pattern. */
  function PrefixPattern(prefix: string): string { Escape(prefix) + [ANY] }

  predicate StartsWith(s: string, prefix: string) { |prefix| <= |s| && s[..|prefix|] == prefix }

  lemma FoldHead(s: string)
    requires s != ""
    ensures FoldAll(s) == [Fold(s[0])] + FoldAll(s[1..])
  {}

  // One escaped character of a pattern consumes one character of the subject.
  lemma MatchLiteral(c: char, rest: string, s: string)
    ensures Matches(EscapeChar(c) + rest, s) <==> s != "" && Fold(c) == Fold(s[0]) && Matches(rest, s[1..])
  {
    var p := EscapeChar(c) + rest;
    if Special(c) {
      assert p[2..] == rest;
    } else {
      assert p[1..] == rest;
    }
  }

  lemma StartsWithHead(s: string, p: string)
    requires s != "" && p != ""
    ensures StartsWith(s, p) <==> s[0] == p[0] && StartsWith(s[1..], p[1..])
  {
    if |p| <= |s| {
      assert s[..|p|] == [s[0]] + s[1..][..|p| - 1];
      assert p == [p[0]] + p[1..];
    }
  }

  /** An escaped string stands for itself: in front of any pattern it matches exactly its own
      folded characters. */
  lemma {:induction false} EscapedIsLiteral(p: string, tail: string, s: string)
    ensures Matches(Escape(p) + tail, s) <==>
            StartsWith(FoldAll(s), FoldAll(p)) && Matches(tail, s[|p|..])
    decreases |p|
  {
    if p == "" {
      assert Escape(p) + tail == tail && s[0..] == s;
    } else {
      var rest := Escape(p[1..]) + tail;
      assert Escape(p) + tail == EscapeChar(p[0]) + rest;
      MatchLiteral(p[0], rest, s);
      if s != "" {
        FoldHead(p);
        FoldHead(s);
        StartsWithHead(FoldAll(s), FoldAll(p));
        EscapedIsLiteral(p[1..], tail, s[1..]);
        if |p| <= |s| {
          assert s[1..][|p| - 1..] == s[|p|..];
        }
      }
    }
  }

  lemma AnyMatches(s: string)
    ensures Matches([ANY], s)
  {
    assert [ANY][1..] == "" && s[|s|..] == "";
  }

  // The search pattern selects by folded prefix.
  lemma FoldedSearch(prefix: string, s: string)
    ensures Matches(PrefixPattern(prefix), s) <==> StartsWith(FoldAll(s), FoldAll(prefix))
  {
    EscapedIsLiteral(prefix, [ANY], s);
    if |prefix| <= |s| {
      AnyMatches(s[|prefix|..]);
    }
  }

  predicate Letter(c: char) { 'a' <= c <= 'z' || 'A' <= c <= 'Z' }

  /** The same character, or one ASCII letter in its two cases. */
  predicate Alike(c: char, d: char) {
    c == d || (Letter(c) && Letter(d) && (c as int - d as int == 32 || d as int - c as int == 32))
  }

  lemma FoldExact(c: char, d: char)
    ensures Fold(c) == Fold(d) <==> Alike(c, d)
  {}

  /** The search of ListFilesByPrefix and ListFoldersByPrefix selects the strings that begin with the
      prefix, character by character, up to the case of ASCII letters. */
  lemma PrefixSearch(prefix: string, s: string)
    ensures Matches(PrefixPattern(prefix), s) <==>
            |prefix| <= |s| && forall i | 0 <= i < |prefix| :: Alike(s[i], prefix[i])
  {
    FoldedSearch(prefix, s);
    if |prefix| <= |s| {
      FoldPrefix(s, |prefix|);
      forall i | 0 <= i < |prefix| ensures FoldAll(s[..|prefix|])[i] == FoldAll(prefix)[i] <==> Alike(s[i], prefix[i]) {
        FoldExact(s[i], prefix[i]);
      }
    }
  }

  /** Without the escaping a prefix would select other strings, too. */
  lemma EscapingNeeded()
    ensures Matches("_" + [ANY], "a") && !Matches(PrefixPattern("_"), "a")
    ensures Matches([ANY] + [ANY], "a") && !Matches(PrefixPattern([ANY]), "a")
  {
    PrefixSearch("_", "a");
    PrefixSearch([ANY], "a");
    AnyMatches("");
    AnyMatches("a");
    assert ("_" + [ANY])[1..] == [ANY] && "a"[1..] == "";
    assert ([ANY] + [ANY])[1..] == [ANY] && "a"[0..] == "a";
  }

  function OtherCase(c: char): char
    requires Letter(c)
  {
    if 'A' <= c <= 'Z' then Fold(c) else (c as int - 32) as char
  }

  lemma FoldPrefix(s: string, n: nat)
    requires n <= |s|
    ensures FoldAll(s)[..n] == FoldAll(s[..n])
  {}

  /** Every path that starts with the prefix is found. That nothing else is found, as the
      documentation has it ("files under a path prefix"), holds exactly for the prefixes
      without an ASCII letter: the search cannot tell "A" from "a". */
  lemma PrefixSearchExact(prefix: string)
    ensures forall s | StartsWith(s, prefix) :: Matches(PrefixPattern(prefix), s)
    ensures (forall s | Matches(PrefixPattern(prefix), s) :: StartsWith(s, prefix)) <==>
            (forall c | c in prefix :: !Letter(c))
  {
    forall s | StartsWith(s, prefix) ensures Matches(PrefixPattern(prefix), s) {
      FoldedSearch(prefix, s);
      FoldPrefix(s, |prefix|);
    }
    if forall c | c in prefix :: !Letter(c) {
      forall s | Matches(PrefixPattern(prefix), s) ensures StartsWith(s, prefix) {
        FoldedSearch(prefix, s);
        forall i | 0 <= i < |prefix| ensures s[i] == prefix[i] {
          assert !Letter(prefix[i]);
          assert Fold(s[i]) == FoldAll(s)[..|prefix|][i] == Fold(prefix[i]);
        }
      }
    } else {
      var i :| 0 <= i < |prefix| && Letter(prefix[i]);
      var s := prefix[i := OtherCase(prefix[i])];
      assert FoldAll(s) == FoldAll(prefix);
      assert FoldAll(s)[..|prefix|] == FoldAll(prefix);
      FoldedSearch(prefix, s);
      assert s[..|prefix|] == s && s[i] != prefix[i];
    }
  }

  function Unescape(s: string): string {
    if s == "" then ""
    else if s[0] == ESC && |s| > 1 then [s[1]] + Unescape(s[2..])
    else [s[0]] + Unescape(s[1..])
  }

  lemma {:induction false} UnescapeEscape(p: string)
    ensures Unescape(Escape(p)) == p
  {
    if p == "" {
    } else {
      UnescapeEscape(p[1..]);
      var e := Escape(p);
      if Special(p[0]) {
        assert e[2..] == Escape(p[1..]);
      } else {
        assert e[1..] == Escape(p[1..]);
      }
    }
  }

  lemma EscapeInjective(p: string, q: string)
    requires Escape(p) == Escape(q)
    ensures p == q
  {
    UnescapeEscape(p);
    UnescapeEscape(q);
  }
}
