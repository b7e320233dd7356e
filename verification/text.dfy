// Strings: joining and splitting at a separator, byte-wise ordering, sorting.
module Text {
  function Join(xs: seq<string>, sep: string): string
  {
    if |xs| == 0 then "" else if |xs| == 1 then xs[0] else xs[0] + sep + Join(xs[1..], sep)
  }

  /** The length of the longest prefix without c. */
  function Span(s: string, c: char): (n: nat)
    ensures n <= |s| && c !in s[..n] && (n < |s| ==> s[n] == c)
  {
    if s == "" || s[0] == c then 0
    else
      assert s[..1 + Span(s[1..], c)] == [s[0]] + s[1..][..Span(s[1..], c)];
      1 + Span(s[1..], c)
  }

  /** The non-empty pieces of s between occurrences of c. */
  function Split(s: string, c: char): seq<string>
    decreases |s|
  {
    var n := Span(s, c);
    (if n > 0 then [s[..n]] else []) + (if n < |s| then Split(s[n + 1..], c) else [])
  }

  ghost predicate Clean(xs: seq<string>, c: char) {
    forall x | x in xs :: x != "" && c !in x
  }

  lemma SpanUnique(s: string, c: char, n: nat)
    requires n <= |s| && c !in s[..n] && (n < |s| ==> s[n] == c)
    ensures Span(s, c) == n
  {
    var m := Span(s, c);
    assert forall i | 0 <= i < n :: s[i] in s[..n];
    assert forall i | 0 <= i < m :: s[i] in s[..m];
  }

  /** A c-free word in front of a separator becomes a piece of its own, if not empty. */
  lemma SplitWord(x: string, c: char, rest: string)
    requires c !in x
    ensures Split(x + [c] + rest, c) == (if x != "" then [x] else []) + Split(rest, c)
  {
    var s := x + [c] + rest;
    assert s[..|x|] == x && s[|x| + 1..] == rest;
    SpanUnique(s, c, |x|);
  }

  lemma SplitLastWord(x: string, c: char)
    requires c !in x
    ensures Split(x, c) == if x != "" then [x] else []
  {
    assert x[..|x|] == x;
    SpanUnique(x, c, |x|);
  }

  lemma JoinCons(a: string, t: seq<string>, sep: string)
    ensures Join([a] + t, sep) == if t == [] then a else a + sep + Join(t, sep)
  {
    assert ([a] + t)[1..] == t;
  }

  lemma SplitJoinStep(word: string, rest: seq<string>, c: char)
    requires word != "" && c !in word && Split(Join(rest, [c]), c) == rest
    ensures Split(Join([word] + rest, [c]), c) == [word] + rest
  {
    JoinCons(word, rest, [c]);
    if rest == [] {
      SplitLastWord(word, c);
    } else {
      SplitWord(word, c, Join(rest, [c]));
    }
  }

  /** Splitting undoes joining. */
  lemma {:induction false} SplitJoin(xs: seq<string>, c: char)
    requires Clean(xs, c)
    ensures Split(Join(xs, [c]), c) == xs
  {
    if xs == [] {
    } else {
      var word, rest := xs[0], xs[1..];
      assert xs == [word] + rest;
      assert word in xs && forall x | x in rest :: x in xs;
      SplitJoin(rest, c);
      SplitJoinStep(word, rest, c);
    }
  }

  lemma {:induction false} SplitClean(s: string, c: char)
    ensures Clean(Split(s, c), c)
    decreases |s|
  {
    var n := Span(s, c);
    if n < |s| {
      SplitClean(s[n + 1..], c);
    }
  }

  /** s with leading and trailing separators removed and runs of separators made one, decided
      character by character: a separator stays exactly when it directly precedes another
      character and some other character came before it (`seen`). */
  function Squeeze(s: string, c: char, seen: bool): string
  {
    if s == "" then ""
    else if s[0] != c then [s[0]] + Squeeze(s[1..], c, true)
    else if seen && |s| > 1 && s[1] != c then [c] + Squeeze(s[1..], c, seen)
    else Squeeze(s[1..], c, seen)
  }

  // How the pieces of s arise from those of s[1..].
  lemma SplitSeparator(s: string, c: char)
    requires s != "" && s[0] == c
    ensures Split(s, c) == Split(s[1..], c)
  {
    assert s == "" + [c] + s[1..];
    SplitWord("", c, s[1..]);
  }

  lemma SplitLetter(s: string, c: char)
    requires s != "" && s[0] != c && (|s| == 1 || s[1] == c)
    ensures Split(s, c) == [s[..1]] + Split(s[1..], c)
  {
    if |s| == 1 {
      assert s[..1] == s && s[1..] == "";
      SplitLastWord(s, c);
    } else {
      assert s == s[..1] + [c] + s[2..] && s[1..][1..] == s[2..];
      SplitWord(s[..1], c, s[2..]);
      SplitSeparator(s[1..], c);
    }
  }

  lemma SplitInWord(s: string, c: char)
    requires |s| > 1 && s[0] != c && s[1] != c
    ensures Split(s[1..], c) != []
    ensures Split(s, c) == [s[..1] + Split(s[1..], c)[0]] + Split(s[1..], c)[1..]
  {
    var t := s[1..];
    var n := Span(t, c);
    assert s[..n + 1] == s[..1] + t[..n];
    assert c !in s[..n + 1];
    SpanUnique(s, c, n + 1);
    var after := if n < |t| then Split(t[n + 1..], c) else [];
    if n < |t| {
      assert s[n + 2..] == t[n + 1..];
    }
    assert Split(t, c) == [t[..n]] + after;
    assert Split(s, c) == [s[..n + 1]] + after;
  }

  lemma JoinLonger(a: string, t: seq<string>, sep: string)
    requires t != []
    ensures Join([a + t[0]] + t[1..], sep) == a + Join(t, sep)
  {
    assert ([a + t[0]] + t[1..])[1..] == t[1..];
    if |t| > 1 {
      assert (a + t[0]) + sep + Join(t[1..], sep) == a + (t[0] + sep + Join(t[1..], sep));
    }
  }

  lemma JoinFirst(s: string, c: char)
    requires s != "" && s[0] != c
    ensures Split(s, c) != []
  {
    assert Span(s, c) > 0;
  }

  // Squeeze and Join agree on s; seen only adds a separator in front.
  ghost predicate Squeezed(s: string, c: char) {
    var joined := Join(Split(s, c), [c]);
    && Squeeze(s, c, false) == joined
    && Squeeze(s, c, true) == (if s != "" && s[0] == c && Split(s, c) != [] then [c] else "") + joined
  }

  lemma SqueezeSeparator(s: string, c: char)
    requires s != "" && s[0] == c && Squeezed(s[1..], c)
    ensures Squeezed(s, c)
  {
    SplitSeparator(s, c);
    if |s| > 1 && s[1] != c {
      JoinFirst(s[1..], c);
    }
  }

  lemma SqueezeLetter(s: string, c: char)
    requires s != "" && s[0] != c && (|s| == 1 || s[1] == c) && Squeezed(s[1..], c)
    ensures Squeezed(s, c)
  {
    var letter, t := s[..1], Split(s[1..], c);
    SplitLetter(s, c);
    JoinCons(letter, t, [c]);
    assert letter == [s[0]] && (|s| > 1 || t == []);
    Assoc(letter, [c], Join(t, [c]));
  }

  lemma SqueezeInWord(s: string, c: char)
    requires |s| > 1 && s[0] != c && s[1] != c && Squeezed(s[1..], c)
    ensures Squeezed(s, c)
  {
    SplitInWord(s, c);
    JoinLonger(s[..1], Split(s[1..], c), [c]);
  }

  /** The pieces, joined again, are the squeezed input. With SplitJoin and SplitClean this makes
      Split(s, c) the only list of non-empty c-free words that joins to the squeezed input. */
  lemma {:induction false} JoinSplit(s: string, c: char)
    ensures Squeezed(s, c)
  {
    if s == "" {
    } else {
      JoinSplit(s[1..], c);
      if s[0] == c {
        SqueezeSeparator(s, c);
      } else if |s| == 1 || s[1] == c {
        SqueezeLetter(s, c);
      } else {
        SqueezeInWord(s, c);
      }
    }
  }

  lemma SplitUnique(s: string, c: char, xs: seq<string>)
    requires Clean(xs, c)
    ensures Join(xs, [c]) == Squeeze(s, c, false) <==> xs == Split(s, c)
  {
    SplitJoin(xs, c);
    SplitClean(s, c);
    SplitJoin(Split(s, c), c);
    JoinSplit(s, c);
  }

  function Concat(xs: seq<string>): string {
    if xs == [] then "" else xs[0] + Concat(xs[1..])
  }

  function Without(s: string, c: char): string {
    if s == "" then "" else (if s[0] == c then "" else [s[0]]) + Without(s[1..], c)
  }

  lemma ConcatCons(a: string, t: seq<string>)
    ensures Concat([a] + t) == a + Concat(t)
  {
    assert ([a] + t)[1..] == t;
  }

  lemma ConcatLonger(a: string, t: seq<string>)
    requires t != []
    ensures Concat([a + t[0]] + t[1..]) == a + Concat(t)
  {
    ConcatCons(a + t[0], t[1..]);
    Assoc(a, t[0], Concat(t[1..]));
  }

  lemma ConcatInWord(s: string, c: char)
    requires |s| > 1 && s[0] != c && s[1] != c
    ensures Concat(Split(s, c)) == s[..1] + Concat(Split(s[1..], c))
  {
    SplitInWord(s, c);
    ConcatLonger(s[..1], Split(s[1..], c));
  }

  lemma ConcatLetter(s: string, c: char)
    requires s != "" && s[0] != c && (|s| == 1 || s[1] == c)
    ensures Concat(Split(s, c)) == s[..1] + Concat(Split(s[1..], c))
  {
    SplitLetter(s, c);
    ConcatCons(s[..1], Split(s[1..], c));
  }

  lemma {:induction false} ConcatSplit(s: string, c: char)
    ensures Concat(Split(s, c)) == Without(s, c)
  {
    if s == "" {
    } else {
      ConcatSplit(s[1..], c);
      if s[0] == c {
        SplitSeparator(s, c);
      } else if |s| == 1 || s[1] == c {
        ConcatLetter(s, c);
      } else {
        ConcatInWord(s, c);
      }
    }
  }

  /** Go's string order: lexicographic. */
  predicate Less(a: string, b: string) {
    b != "" && (a == "" || a[0] < b[0] || (a[0] == b[0] && Less(a[1..], b[1..])))
  }

  predicate LessEq(a: string, b: string) { !Less(b, a) }

  lemma LessTotal(a: string, b: string)
    ensures Less(a, b) || Less(b, a) || a == b
    ensures !(Less(a, b) && Less(b, a)) && !Less(a, a)
  {
    if a != "" && b != "" {
      LessTotal(a[1..], b[1..]);
      if a[0] == b[0] && a[1..] == b[1..] {
        assert a == [a[0]] + a[1..] == b;
      }
    }
    if a != "" {
      LessTotal(a[1..], a[1..]);
    }
  }

  lemma LessTrans(a: string, b: string, c: string)
    requires LessEq(a, b) && LessEq(b, c)
    ensures LessEq(a, c)
    ensures Less(a, b) || Less(b, c) ==> Less(a, c)
  {
    LessTotal(a, b);
    LessTotal(b, c);
    LessTotal(a, c);
    if Less(a, b) && Less(b, c) {
      LessChain(a, b, c);
    }
  }

  lemma LessChain(a: string, b: string, c: string)
    requires Less(a, b) && Less(b, c)
    ensures Less(a, c)
  {
    if a != "" && a[0] == b[0] && b[0] == c[0] {
      LessChain(a[1..], b[1..], c[1..]);
    }
  }

  /** a is a proper prefix of b, or is smaller at the first difference. */
  ghost predicate Before(a: string, b: string) {
    exists n: nat :: FirstDifference(a, b, n) && n < |b| && (n == |a| || a[n] < b[n])
  }

  ghost predicate FirstDifference(a: string, b: string, n: nat) {
    n <= |a| && n <= |b| && a[..n] == b[..n] && (n < |a| && n < |b| ==> a[n] != b[n])
  }

  lemma {:induction false} LessExact(a: string, b: string)
    ensures Less(a, b) <==> Before(a, b)
  {
    if a == "" || b == "" {
      assert FirstDifference(a, b, 0);
    } else if a[0] != b[0] {
      assert FirstDifference(a, b, 0);
      forall n: nat | FirstDifference(a, b, n) ensures n == 0 {
        DifferentHeads(a, b, n);
      }
    } else {
      LessExact(a[1..], b[1..]);
      forall n: nat ensures FirstDifference(a, b, n + 1) <==> FirstDifference(a[1..], b[1..], n) {
        Behead(a, b, n);
      }
      if Before(a[1..], b[1..]) {
        var n: nat :| FirstDifference(a[1..], b[1..], n) && n < |b[1..]| && (n == |a[1..]| || a[1..][n] < b[1..][n]);
        assert FirstDifference(a, b, n + 1);
      }
      if Before(a, b) {
        var n: nat :| FirstDifference(a, b, n) && n < |b| && (n == |a| || a[n] < b[n]);
        assert n > 0;
        assert FirstDifference(a[1..], b[1..], n - 1);
      }
    }
  }

  lemma DifferentHeads(a: string, b: string, n: nat)
    requires n <= |a| && n <= |b| && a[..n] == b[..n]
    ensures n > 0 ==> a[0] == b[0]
  {
    assert n > 0 ==> a[0] == a[..n][0] && b[0] == b[..n][0];
  }

  lemma Behead(a: string, b: string, n: nat)
    requires a != "" && b != "" && a[0] == b[0]
    ensures FirstDifference(a, b, n + 1) <==> FirstDifference(a[1..], b[1..], n)
  {
    if n < |a| && n < |b| {
      assert a[..n + 1] == [a[0]] + a[1..][..n] && b[..n + 1] == [b[0]] + b[1..][..n];
      assert a[1..][..n] == a[..n + 1][1..] && b[1..][..n] == b[..n + 1][1..];
    }
  }

  /** Strictly increasing, hence without repetition. */
  ghost predicate Increasing(xs: seq<string>) {
    forall i, j | 0 <= i < j < |xs| :: Less(xs[i], xs[j])
  }

  function Insert(x: string, xs: seq<string>): seq<string> {
    if xs == [] || Less(x, xs[0]) then [x] + xs else [xs[0]] + Insert(x, xs[1..])
  }

  /** sort.Strings. */
  function Sort(xs: seq<string>): seq<string> {
    if xs == [] then [] else Insert(xs[0], Sort(xs[1..]))
  }

  ghost function Elements<T>(xs: seq<T>): set<T> { set x | x in xs }

  ghost predicate NoDup<T>(xs: seq<T>) {
    forall i, j | 0 <= i < j < |xs| :: xs[i] != xs[j]
  }

  lemma {:induction false} InsertIncreasing(x: string, xs: seq<string>)
    requires Increasing(xs) && x !in xs
    ensures Increasing(Insert(x, xs)) && Elements(Insert(x, xs)) == Elements(xs) + {x}
  {
    if xs == [] {
    } else {
      LessTotal(x, xs[0]);
      var tail := xs[1..];
      assert xs == [xs[0]] + tail;
      if Less(x, xs[0]) {
        forall y | y in xs ensures Less(x, y) {
          if y != xs[0] {
            LessTotal(xs[0], y);
            LessTrans(x, xs[0], y);
          }
        }
      } else {
        InsertIncreasing(x, tail);
        forall y | y in Insert(x, tail) ensures Less(xs[0], y) {
          assert y in Elements(Insert(x, tail));
        }
        assert Elements(Insert(x, xs)) == {xs[0]} + Elements(Insert(x, tail));
      }
    }
  }

  lemma {:induction false} SortIncreasing(xs: seq<string>)
    requires NoDup(xs)
    ensures Increasing(Sort(xs)) && Elements(Sort(xs)) == Elements(xs)
  {
    if xs == [] {
    } else {
      SortIncreasing(xs[1..]);
      assert xs == [xs[0]] + xs[1..];
      assert xs[0] !in Elements(Sort(xs[1..]));
      InsertIncreasing(xs[0], Sort(xs[1..]));
    }
  }

  lemma Assoc<T>(a: seq<T>, b: seq<T>, c: seq<T>)
    ensures a + b + c == a + (b + c) && a + [] == a
  {}

  lemma NoElements<T>(xs: seq<T>)
    ensures Elements(xs) == {} <==> xs == []
  {
    if xs != [] {
      assert xs[0] in Elements(xs);
    }
  }

  /** A set of strings has only one increasing enumeration. */
  lemma {:induction false} IncreasingUnique(xs: seq<string>, ys: seq<string>)
    requires Increasing(xs) && Increasing(ys) && Elements(xs) == Elements(ys)
    ensures xs == ys
  {
    NoElements(xs);
    NoElements(ys);
    if xs != [] {
      assert xs[0] in Elements(ys) && ys[0] in Elements(xs);
      LessTotal(xs[0], ys[0]);
      assert xs == [xs[0]] + xs[1..] && ys == [ys[0]] + ys[1..];
      assert xs[0] == ys[0];
      LessTotal(xs[0], xs[0]);
      assert xs[0] !in xs[1..] && ys[0] !in ys[1..];
      assert Elements(xs[1..]) == Elements(xs) - {xs[0]};
      assert Elements(ys[1..]) == Elements(ys) - {ys[0]};
      IncreasingUnique(xs[1..], ys[1..]);
    }
  }
}
