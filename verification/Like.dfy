/**
 LIKE patterns made from what a person types: escapeLike makes wildcards literal. The matcher is the
 database's: % is any text, _ is one character, a backslash makes the next character literal; two
 characters are the same when they fold to the same one (ILIKE), or are equal (no folding).
 */
module Like {

  const BACKSLASH: char := '\\'

  function EscapeChar(c: char): string {
    if c == BACKSLASH || c == '%' || c == '_' then [BACKSLASH, c] else [c]
  }

  function EscapeLike(value: string): string {
    if value == [] then [] else EscapeChar(value[0]) + EscapeLike(value[1..])
  }

  predicate Matches(t: string, p: string, fold: char -> char)
    decreases |p|, |t|
  {
    if p == [] then t == []
    else if p[0] == '%' then Matches(t, p[1..], fold) || (t != [] && Matches(t[1..], p, fold))
    else if p[0] == '_' then t != [] && Matches(t[1..], p[1..], fold)
    else if p[0] == BACKSLASH then |p| > 1 && t != [] && fold(t[0]) == fold(p[1]) && Matches(t[1..], p[2..], fold)
    else t != [] && fold(t[0]) == fold(p[0]) && Matches(t[1..], p[1..], fold)
  }

  ghost predicate Same(a: string, b: string, fold: char -> char) {
    |a| == |b| && forall i :: 0 <= i < |a| ==> fold(a[i]) == fold(b[i])
  }

  /** v occurs in t at i. */
  ghost predicate OccursAt(t: string, v: string, i: nat, fold: char -> char) {
    i + |v| <= |t| && Same(t[i..i + |v|], v, fold)
  }

  lemma MatchChar(t: string, c: char, p: string, fold: char -> char)
    ensures Matches(t, EscapeChar(c) + p, fold) <==> t != [] && fold(t[0]) == fold(c) && Matches(t[1..], p, fold)
  {
    var e := EscapeChar(c);
    assert (e + p)[|e|..] == p;
    assert (e + p)[|e| - 1] == c;
  }

  /** An escaped text in a pattern matches that text, character by character, and nothing else. */
  lemma {:induction false} MatchLiteral(t: string, v: string, p: string, fold: char -> char)
    ensures Matches(t, EscapeLike(v) + p, fold) <==>
      |v| <= |t| && Same(t[..|v|], v, fold) && Matches(t[|v|..], p, fold)
  {
    if v == [] {
      assert EscapeLike(v) + p == p && t[0..] == t;
    } else {
      MatchChar(t, v[0], EscapeLike(v[1..]) + p, fold);
      assert EscapeLike(v) + p == EscapeChar(v[0]) + (EscapeLike(v[1..]) + p);
      if t != [] {
        MatchLiteral(t[1..], v[1..], p, fold);
        if |v| <= |t| {
          SameFront(t, v, fold);
          assert t[1..][|v| - 1..] == t[|v|..];
        }
      }
    }
  }

  lemma SameFront(t: string, v: string, fold: char -> char)
    requires 0 < |v| <= |t|
    ensures Same(t[..|v|], v, fold) <==> fold(t[0]) == fold(v[0]) && Same(t[1..][..|v| - 1], v[1..], fold)
  {
    if fold(t[0]) == fold(v[0]) && Same(t[1..][..|v| - 1], v[1..], fold) {
      forall i | 0 <= i < |v| ensures fold(t[..|v|][i]) == fold(v[i]) {
        if i > 0 {
          assert fold(t[1..][..|v| - 1][i - 1]) == fold(v[1..][i - 1]);
        }
      }
    }
    if Same(t[..|v|], v, fold) {
      forall i | 0 <= i < |v| - 1 ensures fold(t[1..][..|v| - 1][i]) == fold(v[1..][i]) {
        assert fold(t[..|v|][i + 1]) == fold(v[i + 1]);
      }
      assert fold(t[..|v|][0]) == fold(v[0]);
    }
  }

  lemma {:induction false} AnyTextMatches(t: string, fold: char -> char)
    ensures Matches(t, "%", fold)
  {
    if t == [] {
      assert "%"[1..] == [];
    } else {
      AnyTextMatches(t[1..], fold);
    }
  }

  lemma {:induction false} MatchPercent(t: string, p: string, fold: char -> char)
    ensures Matches(t, "%" + p, fold) <==> exists i :: 0 <= i <= |t| && Matches(t[i..], p, fold)
  {
    assert ("%" + p)[1..] == p && t[0..] == t;
    if t != [] {
      MatchPercent(t[1..], p, fold);
      if i :| 0 <= i <= |t| && Matches(t[i..], p, fold) {
        assert i > 0 ==> t[1..][i - 1..] == t[i..];
      }
      if i :| 0 <= i <= |t| - 1 && Matches(t[1..][i..], p, fold) {
        assert t[i + 1..] == t[1..][i..];
      }
    }
  }

  /** Main result: the search pattern finds exactly the texts that contain what was typed. */
  lemma ContainsIff(t: string, v: string, fold: char -> char)
    ensures Matches(t, "%" + EscapeLike(v) + "%", fold) <==> exists i :: OccursAt(t, v, i, fold)
  {
    var p := EscapeLike(v) + "%";
    assert "%" + EscapeLike(v) + "%" == "%" + p;
    MatchPercent(t, p, fold);
    forall i | 0 <= i <= |t| ensures Matches(t[i..], p, fold) <==> OccursAt(t, v, i, fold) {
      MatchLiteral(t[i..], v, "%", fold);
      if i + |v| <= |t| {
        assert t[i..][..|v|] == t[i..i + |v|];
        AnyTextMatches(t[i..][|v|..], fold);
      }
    }
  }

  /** The prefix pattern finds exactly the texts that begin with it. */
  lemma StartsWithIff(t: string, v: string, fold: char -> char)
    ensures Matches(t, EscapeLike(v) + "%", fold) <==> OccursAt(t, v, 0, fold)
  {
    MatchLiteral(t, v, "%", fold);
    if |v| <= |t| {
      AnyTextMatches(t[|v|..], fold);
      assert t[..|v|] == t[0..0 + |v|];
    }
  }

  /** Without folding and wildcards, an escaped text matches itself only. */
  lemma MatchesItselfOnly(t: string, v: string)
    ensures Matches(t, EscapeLike(v), (c: char) => c) <==> t == v
  {
    MatchLiteral(t, v, [], (c: char) => c);
    assert EscapeLike(v) + [] == EscapeLike(v);
    if |v| <= |t| && t[|v|..] == [] {
      assert t[..|v|] == t;
    }
  }
}
