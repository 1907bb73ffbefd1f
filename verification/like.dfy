/** SQL LIKE as the two backends implement it, and what the patterns of TinyDM mean: SearchDocuments
    builds `%q%` and the audit filter `prefix%` from unescaped user input. */
module Like {
  /** SQLite folds ASCII case and has no escape character; PostgreSQL is case-sensitive and takes a
      backslash as escape. */
  datatype Dialect = SQLite | Postgres

  function FoldCase(c: char): char {
    if 'A' <= c <= 'Z' then (c as int + 32) as char else c
  }

  predicate Same(d: Dialect, a: char, b: char) {
    if d.SQLite? then FoldCase(a) == FoldCase(b) else a == b
  }

  predicate Matches(d: Dialect, p: string, s: string)
    decreases |p| + |s|
  {
    if p == [] then s == []
    else if p[0] == '%' then Matches(d, p[1..], s) || (s != [] && Matches(d, p, s[1..]))
    else if p[0] == '_' then s != [] && Matches(d, p[1..], s[1..])
    else if d.Postgres? && p[0] == '\\' then |p| > 1 && s != [] && s[0] == p[1] && Matches(d, p[2..], s[1..])
    else s != [] && Same(d, p[0], s[0]) && Matches(d, p[1..], s[1..])
  }

  predicate Special(d: Dialect, c: char) {
    c == '%' || c == '_' || (d.Postgres? && c == '\\')
  }

  /** Nothing in q has a meaning of its own in a pattern. */
  predicate Plain(d: Dialect, q: string) {
    forall i | 0 <= i < |q| :: !Special(d, q[i])
  }

  predicate SamePrefix(d: Dialect, q: string, s: string) {
    |q| <= |s| && forall i | 0 <= i < |q| :: Same(d, q[i], s[i])
  }

  predicate Contains(d: Dialect, q: string, s: string) {
    exists k :: 0 <= k <= |s| && SamePrefix(d, q, s[k..])
  }

  lemma {:induction false} PercentMatchesAll(d: Dialect, s: string)
    ensures Matches(d, "%", s)
  {
    if s != [] {
      PercentMatchesAll(d, s[1..]);
    } else {
      assert Matches(d, "%"[1..], s);
    }
  }

  lemma SamePrefixStep(d: Dialect, q: string, s: string)
    requires q != []
    ensures SamePrefix(d, q, s) <==> s != [] && Same(d, q[0], s[0]) && SamePrefix(d, q[1..], s[1..])
  {
    if s != [] && Same(d, q[0], s[0]) && SamePrefix(d, q[1..], s[1..]) {
      forall i | 0 <= i < |q|
        ensures Same(d, q[i], s[i])
      {
        if i > 0 {
          assert Same(d, q[1..][i - 1], s[1..][i - 1]);
        }
      }
    }
  }

  lemma {:induction false} PlainPrefix(d: Dialect, q: string, s: string)
    requires Plain(d, q)
    ensures Matches(d, q + "%", s) <==> SamePrefix(d, q, s)
  {
    if q == [] {
      assert q + "%" == "%";
      PercentMatchesAll(d, s);
    } else {
      assert !Special(d, q[0]);
      assert (q + "%")[1..] == q[1..] + "%";
      SamePrefixStep(d, q, s);
      if s != [] {
        PlainPrefix(d, q[1..], s[1..]);
      }
    }
  }

  lemma {:induction false} PlainContains(d: Dialect, q: string, s: string)
    requires Plain(d, q)
    ensures Matches(d, "%" + (q + "%"), s) <==> Contains(d, q, s)
  {
    var p := "%" + (q + "%");
    assert p[1..] == q + "%";
    PlainPrefix(d, q, s);
    assert s[0..] == s;
    if s != [] {
      PlainContains(d, q, s[1..]);
      if k :| 0 <= k <= |s[1..]| && SamePrefix(d, q, s[1..][k..]) {
        assert s[1..][k..] == s[k + 1..];
      }
      if k :| 0 < k <= |s| && SamePrefix(d, q, s[k..]) {
        assert s[1..][k - 1..] == s[k..];
      }
    }
  }

  // A name that the pattern of q accepts although it is not what q says, if q is not plain.
  function Decoy(d: Dialect, q: string): string {
    if q == [] then []
    else if q[0] == '%' then Decoy(d, q[1..])
    else if q[0] == '_' then "x" + Decoy(d, q[1..])
    else if d.Postgres? && q[0] == '\\' then
      if |q| == 1 then "%" else [q[1]] + Decoy(d, q[2..])
    else [q[0]] + Decoy(d, q[1..])
  }

  lemma {:induction false} DecoyMatches(d: Dialect, q: string)
    ensures Matches(d, q + "%", Decoy(d, q))
    ensures |Decoy(d, q)| <= |q|
    decreases |q|
  {
    var w := Decoy(d, q);
    if q == [] {
      assert q + "%" == "%";
      PercentMatchesAll(d, []);
    } else if d.Postgres? && q[0] == '\\' {
      if |q| == 1 {
        assert (q + "%")[2..] == [] && w[1..] == [];
      } else {
        DecoyMatches(d, q[2..]);
        assert (q + "%")[2..] == q[2..] + "%" && w[1..] == Decoy(d, q[2..]);
      }
    } else {
      DecoyMatches(d, q[1..]);
      assert (q + "%")[1..] == q[1..] + "%";
      assert q[0] != '%' ==> w[1..] == Decoy(d, q[1..]);
    }
  }

  lemma PlainStep(d: Dialect, q: string)
    requires q != []
    ensures Plain(d, q) <==> !Special(d, q[0]) && Plain(d, q[1..])
  {
    assert q == [q[0]] + q[1..];
    assert forall i | 0 < i < |q| :: q[i] == q[1..][i - 1];
  }

  lemma {:induction false} DecoyIsNotMeant(d: Dialect, q: string)
    requires !Plain(d, q)
    ensures !SamePrefix(d, q, Decoy(d, q))
    decreases |q|
  {
    var w := Decoy(d, q);
    if q[0] == '%' {
      DecoyMatches(d, q[1..]);
    } else if q[0] == '_' {
      assert !Same(d, q[0], w[0]);
    } else if d.Postgres? && q[0] == '\\' {
      if |q| == 1 {
        assert !Same(d, q[0], w[0]);
      } else {
        DecoyMatches(d, q[2..]);
      }
    } else {
      PlainStep(d, q);
      DecoyIsNotMeant(d, q[1..]);
      assert w[1..] == Decoy(d, q[1..]);
      SamePrefixStep(d, q, w);
    }
  }

  /** `prefix%` accepts exactly the names that start with the prefix, for every name, exactly when
      the prefix is plain. */
  lemma PrefixPatternMeansPrefixExactlyWhenPlain(d: Dialect, q: string)
    ensures (forall s: string :: Matches(d, q + "%", s) <==> SamePrefix(d, q, s)) <==> Plain(d, q)
  {
    if Plain(d, q) {
      forall s: string
        ensures Matches(d, q + "%", s) <==> SamePrefix(d, q, s)
      {
        PlainPrefix(d, q, s);
      }
    } else {
      DecoyMatches(d, q);
      DecoyIsNotMeant(d, q);
    }
  }

  /** `%q%` accepts exactly the names that contain q, for every name, exactly when q is plain. */
  lemma SearchPatternMeansSubstringExactlyWhenPlain(d: Dialect, q: string)
    ensures (forall s: string :: Matches(d, "%" + (q + "%"), s) <==> Contains(d, q, s)) <==> Plain(d, q)
  {
    if Plain(d, q) {
      forall s: string
        ensures Matches(d, "%" + (q + "%"), s) <==> Contains(d, q, s)
      {
        PlainContains(d, q, s);
      }
    } else {
      var w := Decoy(d, q);
      DecoyMatches(d, q);
      DecoyIsNotMeant(d, q);
      var p := "%" + (q + "%");
      assert p[1..] == q + "%";
      assert Matches(d, p, w);
      forall k | 0 <= k <= |w|
        ensures !SamePrefix(d, q, w[k..])
      {
        assert w[0..] == w;
      }
      assert Matches(d, "%" + (q + "%"), w) && !Contains(d, q, w);
    }
  }

  // ── The special characters ────────────────────────────────────────────────────

  /** A pattern without percent signs and escapes accepts the strings of its own length that agree with
      it in every place but those of its underscores. */
  lemma {:induction false} UnderscoreIsOneCharacter(d: Dialect, p: string, s: string)
    requires forall i | 0 <= i < |p| :: p[i] != '%' && !(d.Postgres? && p[i] == '\\')
    ensures Matches(d, p, s) <==> |p| == |s| && forall i | 0 <= i < |p| :: p[i] == '_' || Same(d, p[i], s[i])
  {
    if p != [] && s != [] {
      UnderscoreIsOneCharacter(d, p[1..], s[1..]);
      assert p == [p[0]] + p[1..] && s == [s[0]] + s[1..];
    }
  }

  /** A percent sign accepts any run of characters before what the rest of the pattern accepts. */
  lemma {:induction false} PercentIsAnyRun(d: Dialect, p: string, s: string)
    ensures Matches(d, ['%'] + p, s) <==> exists k :: 0 <= k <= |s| && Matches(d, p, s[k..])
  {
    assert (['%'] + p)[1..] == p;
    assert s[0..] == s;
    if s != [] {
      PercentIsAnyRun(d, p, s[1..]);
      assert forall k | 1 <= k <= |s| :: s[k..] == s[1..][k - 1..];
      if k :| 0 <= k <= |s[1..]| && Matches(d, p, s[1..][k..]) {
        assert s[k + 1..] == s[1..][k..];
      }
    }
  }

  /** In PostgreSQL a backslash makes the next character an ordinary one; in SQLite it is ordinary. */
  lemma BackslashEscapes(c: char, p: string, s: string)
    ensures Matches(Postgres, ['\\', c] + p, s) <==> s != [] && s[0] == c && Matches(Postgres, p, s[1..])
    ensures Matches(SQLite, ['\\'] + p, s) <==> s != [] && s[0] == '\\' && Matches(SQLite, p, s[1..])
  {
    assert (['\\', c] + p)[2..] == p;
    assert (['\\'] + p)[1..] == p;
  }

  /** Which characters agree: SQLite folds the 26 ASCII letters and no others. */
  lemma CaseFolding(a: char, b: char)
    ensures Same(Postgres, a, b) <==> a == b
    ensures 'A' <= a <= 'Z' && b as int == a as int + 32 ==> Same(SQLite, a, b)
    ensures Same(SQLite, a, b) ==> a == b || ('A' <= a <= 'Z' && b as int == a as int + 32)
                                   || ('A' <= b <= 'Z' && a as int == b as int + 32)
  {
  }
}
