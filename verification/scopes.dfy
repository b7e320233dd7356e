// The stored form of an OAuth scope list.
module Scopes {
  import opened Text

  ghost function NonEmpty(scopes: seq<string>): set<string> { set x | x in scopes && x != "" }

  /** The non-empty scopes, each at its first occurrence. */
  function Unique(scopes: seq<string>): seq<string> {
    if scopes == [] then []
    else
      var init := Unique(scopes[..|scopes| - 1]);
      var last := scopes[|scopes| - 1];
      if last == "" || last in init then init else init + [last]
  }

  function Canonical(scopes: seq<string>): string { Join(Sort(Unique(scopes)), " ") }

  /** scopeString. */
  method ScopeString(scopes: seq<string>) returns (r: string)
    ensures r == Canonical(scopes)
  {
    if |scopes| == 0 {
      return "";
    }
    var seen: set<string> := {};
    var unique: seq<string> := [];
    for i := 0 to |scopes|
      invariant unique == Unique(scopes[..i])
      invariant seen == Elements(unique)
    {
      assert scopes[..i + 1][..i] == scopes[..i];
      var scope := scopes[i];
      if scope == "" {
        continue;
      }
      if scope in seen {
        continue;
      }
      seen := seen + {scope};
      unique := unique + [scope];
    }
    assert scopes[..|scopes|] == scopes;
    if |unique| == 0 {
      return "";
    }
    unique := Sort(unique);
    return Join(unique, " ");
  }

  lemma {:induction false} UniqueElements(scopes: seq<string>)
    ensures NoDup(Unique(scopes)) && Elements(Unique(scopes)) == NonEmpty(scopes)
  {
    if scopes == [] {
    } else {
      var n := |scopes| - 1;
      UniqueElements(scopes[..n]);
      assert scopes == scopes[..n] + [scopes[n]];
      assert NonEmpty(scopes) == NonEmpty(scopes[..n]) + if scopes[n] == "" then {} else {scopes[n]};
      assert scopes[n] in Unique(scopes[..n]) <==> scopes[n] in Elements(Unique(scopes[..n]));
    }
  }

  ghost predicate SpaceFree(scopes: seq<string>) {
    forall x | x in scopes :: ' ' !in x
  }

  lemma SortedScopes(scopes: seq<string>)
    ensures Increasing(Sort(Unique(scopes))) && Elements(Sort(Unique(scopes))) == NonEmpty(scopes)
    ensures SpaceFree(scopes) ==> Clean(Sort(Unique(scopes)), ' ')
  {
    UniqueElements(scopes);
    SortIncreasing(Unique(scopes));
    forall x | x in Sort(Unique(scopes)) ensures x in NonEmpty(scopes) {
      assert x in Elements(Sort(Unique(scopes)));
    }
  }

  /** Splitting the stored string on spaces gives the scopes in strictly increasing order, and
      storing those again gives the same string. */
  lemma CanonicalDecodes(scopes: seq<string>)
    requires SpaceFree(scopes)
    ensures var xs := Split(Canonical(scopes), ' ');
            Increasing(xs) && Elements(xs) == NonEmpty(scopes) && Canonical(xs) == Canonical(scopes)
  {
    SortedScopes(scopes);
    var xs := Sort(Unique(scopes));
    SplitJoin(xs, ' ');
    SortedScopes(xs);
    forall x | x in xs ensures x != "" {
      assert x in Elements(xs);
    }
    assert NonEmpty(xs) == Elements(xs);
    IncreasingUnique(Sort(Unique(xs)), xs);
  }

  /** Order, repetition and empty entries do not matter... */
  lemma CanonicalOfSet(a: seq<string>, b: seq<string>)
    requires NonEmpty(a) == NonEmpty(b)
    ensures Canonical(a) == Canonical(b)
  {
    SortedScopes(a);
    SortedScopes(b);
    IncreasingUnique(Sort(Unique(a)), Sort(Unique(b)));
  }

  /** ...and nothing else is lost: as an unordered list of space-delimited scopes (section 3.3 of
      RFC 6749), the stored string identifies the set. */
  lemma CanonicalIff(a: seq<string>, b: seq<string>)
    requires SpaceFree(a) && SpaceFree(b)
    ensures Canonical(a) == Canonical(b) <==> NonEmpty(a) == NonEmpty(b)
  {
    CanonicalDecodes(a);
    CanonicalDecodes(b);
    if NonEmpty(a) == NonEmpty(b) {
      CanonicalOfSet(a, b);
    }
  }

  /** The exact condition: splitting the stored string on spaces gives back the set of the scopes if
      and only if no scope has a space inside. */
  lemma DecodesExactly(scopes: seq<string>)
    ensures Elements(Split(Canonical(scopes), ' ')) == NonEmpty(scopes) <==> SpaceFree(scopes)
  {
    if SpaceFree(scopes) {
      CanonicalDecodes(scopes);
    } else {
      var x :| x in scopes && ' ' in x;
      SplitClean(Canonical(scopes), ' ');
      assert x in NonEmpty(scopes) && x !in Elements(Split(Canonical(scopes), ' '));
    }
  }

  lemma CanonicalOfOne(x: string)
    requires x != ""
    ensures Unique([x]) == [x] && Sort([x]) == [x] && Canonical([x]) == x
  {
    assert [x][..0] == [] && [x][1..] == [];
  }

  lemma CanonicalOfTwo(x: string, y: string)
    requires x != "" && y != "" && Less(x, y)
    ensures Canonical([x, y]) == x + " " + y
  {
    CanonicalOfOne(x);
    CanonicalOfOne(y);
    LessTotal(x, y);
    assert [x, y][..1] == [x] && [x, y][1..] == [y];
    assert Unique([x, y]) == [x, y] && Sort([x, y]) == [x, y];
  }

  /** With a space inside a scope, which the RFC does not allow, two sets can have one string. */
  lemma SpacesCollide()
    ensures Canonical(["a b"]) == Canonical(["a", "b"]) && NonEmpty(["a b"]) != NonEmpty(["a", "b"])
  {
    CanonicalOfOne("a b");
    CanonicalOfTwo("a", "b");
    assert "a b" in NonEmpty(["a b"]);
    assert "a b" !in ["a", "b"];
  }
}
