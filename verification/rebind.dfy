/** Placeholder rebinding of internal/db/db.go: queries are written with `?` and sent to PostgreSQL
    with `$1`, `$2`, … */
module Rebind {
  import opened Common

  predicate IsDigit(c: char) {
    '0' <= c <= '9'
  }

  // strconv.Itoa for a counter.
  function Digits(n: nat): (s: string)
    ensures |s| >= 1 && forall i | 0 <= i < |s| :: IsDigit(s[i])
  {
    if n < 10 then ['0' + n as char] else Digits(n / 10) + ['0' + (n % 10) as char]
  }

  function Value(s: string): nat
    requires forall i | 0 <= i < |s| :: IsDigit(s[i])
  {
    if s == [] then 0
    else
      assert IsDigit(s[|s| - 1]);
      10 * Value(s[..|s| - 1]) + (s[|s| - 1] as int - '0' as int)
  }

  lemma {:induction false} ValueOfDigits(n: nat)
    ensures Value(Digits(n)) == n
  {
    if n >= 10 {
      ValueOfDigits(n / 10);
      assert Digits(n)[..|Digits(n)| - 1] == Digits(n / 10);
    } else {
      assert Digits(n)[..0] == [];
    }
  }

  /** Decimal: a further digit multiplies by ten, and the first ten numbers are the digits. */
  lemma DecimalDigits(s: string, c: char, n: nat)
    requires IsDigit(c) && forall i | 0 <= i < |s| :: IsDigit(s[i])
    ensures Value(s + [c]) == 10 * Value(s) + (c as int - '0' as int)
    ensures n < 10 ==> Digits(n) == ['0' + n as char]
    ensures Value("") == 0
  {
    assert (s + [c])[..|s|] == s;
  }

  /** The rest of a query after n placeholders have been numbered. */
  function Numbered(q: string, n: nat): string {
    if q == [] then []
    else if q[0] == '?' then "$" + Digits(n + 1) + Numbered(q[1..], n + 1)
    else [q[0]] + Numbered(q[1..], n)
  }

  function Placeholders(q: string): nat {
    if q == [] then 0 else (if q[0] == '?' then 1 else 0) + Placeholders(q[1..])
  }

  lemma {:induction false} NumberedConcat(a: string, b: string, n: nat)
    ensures Numbered(a + b, n) == Numbered(a, n) + Numbered(b, n + Placeholders(a))
  {
    if a == [] {
      assert a + b == b;
    } else {
      assert (a + b)[1..] == a[1..] + b;
      NumberedConcat(a[1..], b, if a[0] == '?' then n + 1 else n);
    }
  }

  lemma {:induction false} PlaceholdersConcat(a: string, b: string)
    ensures Placeholders(a + b) == Placeholders(a) + Placeholders(b)
  {
    if a == [] {
      assert a + b == b;
    } else {
      assert (a + b)[1..] == a[1..] + b;
      PlaceholdersConcat(a[1..], b);
    }
  }

  lemma NumberedSnoc(q: string, i: nat)
    requires i < |q|
    ensures var n := Placeholders(q[..i]);
            && Placeholders(q[..i + 1]) == (if q[i] == '?' then n + 1 else n)
            && Numbered(q[..i + 1], 0) == Numbered(q[..i], 0) + (if q[i] == '?' then "$" + Digits(n + 1) else [q[i]])
  {
    var c := q[i];
    assert q[..i + 1] == q[..i] + [c];
    NumberedConcat(q[..i], [c], 0);
    PlaceholdersConcat(q[..i], [c]);
    OneNumbered(c, Placeholders(q[..i]));
  }

  lemma OneNumbered(c: char, n: nat)
    ensures Numbered([c], n) == if c == '?' then "$" + Digits(n + 1) else [c]
    ensures Placeholders([c]) == if c == '?' then 1 else 0
  {
  }

  method Rebind(driver: string, query: string) returns (r: string)
    ensures r == if driver == "postgres" then Numbered(query, 0) else query
  {
    if driver != "postgres" {
      return query;
    }
    var n := 0;
    r := "";
    for i := 0 to |query|
      invariant n == Placeholders(query[..i])
      invariant r == Numbered(query[..i], 0)
    {
      NumberedSnoc(query, i);
      if query[i] == '?' {
        n := n + 1;
        r := r + ("$" + Digits(n));
      } else {
        r := r + [query[i]];
      }
    }
    assert query[..|query|] == query;
  }

  // ── Reading a numbered query ──────────────────────────────────────────────────

  function DigitRun(s: string): (k: nat)
    ensures k <= |s| && forall i | 0 <= i < k :: IsDigit(s[i])
  {
    if s != [] && IsDigit(s[0]) then 1 + DigitRun(s[1..]) else 0
  }

  /** Turns every `$k` back into `?`. */
  function Unnumbered(s: string): string
    decreases |s|
  {
    if s == [] then []
    else if s[0] == '$' && DigitRun(s[1..]) > 0 then "?" + Unnumbered(s[1..][DigitRun(s[1..])..])
    else [s[0]] + Unnumbered(s[1..])
  }

  /** What the server executes: `$k` stands for argument k. */
  function BindNumbered(s: string, args: seq<string>): Option<string>
    decreases |s|
  {
    if s == [] then Some([])
    else if s[0] == '$' && DigitRun(s[1..]) > 0 then
      var k := Value(s[1..][..DigitRun(s[1..])]);
      var rest := BindNumbered(s[1..][DigitRun(s[1..])..], args);
      if 1 <= k <= |args| && rest.Some? then Some(args[k - 1] + rest.value) else None
    else
      var rest := BindNumbered(s[1..], args);
      if rest.Some? then Some([s[0]] + rest.value) else None
  }

  /** What the author of the query means: the next `?` stands for the next argument. */
  function BindPositional(q: string, args: seq<string>, n: nat): Option<string> {
    if q == [] then Some([])
    else if q[0] == '?' then
      var rest := BindPositional(q[1..], args, n + 1);
      if n < |args| && rest.Some? then Some(args[n] + rest.value) else None
    else
      var rest := BindPositional(q[1..], args, n);
      if rest.Some? then Some([q[0]] + rest.value) else None
  }

  /** No placeholder and no dollar sign runs into a digit. */
  predicate Separated(q: string) {
    forall i | 0 <= i < |q| - 1 :: q[i] == '?' || q[i] == '$' ==> !IsDigit(q[i + 1])
  }

  lemma {:induction false} DigitRunConcat(d: string, s: string)
    requires forall i | 0 <= i < |d| :: IsDigit(d[i])
    ensures DigitRun(d + s) == |d| + DigitRun(s)
  {
    if d == [] {
      assert d + s == s;
    } else {
      assert (d + s)[1..] == d[1..] + s;
      DigitRunConcat(d[1..], s);
    }
  }

  lemma {:induction false} NumberedDigits(d: string, rest: string, n: nat)
    requires forall i | 0 <= i < |d| :: IsDigit(d[i])
    ensures Numbered(d + rest, n) == d + Numbered(rest, n)
  {
    if d == [] {
      assert d + rest == rest;
    } else {
      assert (d + rest)[1..] == d[1..] + rest;
      NumberedDigits(d[1..], rest, n);
    }
  }

  lemma {:induction false} DigitRunIsMaximal(s: string)
    ensures DigitRun(s[DigitRun(s)..]) == 0
  {
    if s != [] && IsDigit(s[0]) {
      DigitRunIsMaximal(s[1..]);
      assert s[DigitRun(s)..] == s[1..][DigitRun(s[1..])..];
    }
  }

  lemma NumberedKeepsDigits(q: string, n: nat)
    ensures DigitRun(Numbered(q, n)) == DigitRun(q)
    ensures Numbered(q, n) == q[..DigitRun(q)] + Numbered(q[DigitRun(q)..], n)
  {
    var d, rest := q[..DigitRun(q)], q[DigitRun(q)..];
    assert q == d + rest;
    NumberedDigits(d, rest, n);
    DigitRunIsMaximal(q);
    assert DigitRun(Numbered(rest, n)) == 0;
    DigitRunConcat(d, Numbered(rest, n));
  }

  lemma PastDigits(d: string, q: string, n: nat)
    requires forall i | 0 <= i < |d| :: IsDigit(d[i])
    ensures var s, run := d + Numbered(q, n), DigitRun(q);
            && DigitRun(s) == |d| + run
            && s[|d| + run..] == Numbered(q[run..], n)
            && s[..|d|] == d
  {
    var run := DigitRun(q);
    DigitRunConcat(d, Numbered(q, n));
    NumberedKeepsDigits(q, n);
    DropTwo(d, q[..run], Numbered(q[run..], n));
  }

  lemma PastDollar(d: string, rest: string)
    ensures ("$" + d + rest)[0] == '$' && ("$" + d + rest)[1..] == d + rest
  {
  }

  // How the two readers go past one numbered placeholder.
  lemma PlaceholderStep(q: string, n: nat)
    requires q != [] && q[0] == '?'
    ensures var s, run := Numbered(q, n), DigitRun(q[1..]);
            && s[0] == '$' && DigitRun(s[1..]) == |Digits(n + 1)| + run
            && s[1..][DigitRun(s[1..])..] == Numbered(q[1..][run..], n + 1)
            && (run == 0 ==> s[1..][..DigitRun(s[1..])] == Digits(n + 1))
  {
    PastDollar(Digits(n + 1), Numbered(q[1..], n + 1));
    PastDigits(Digits(n + 1), q[1..], n + 1);
  }

  lemma DropTwo(a: string, b: string, c: string)
    ensures (a + (b + c))[|a| + |b|..] == c
    ensures (b + c)[|b|..] == c
    ensures (a + (b + c))[..|a|] == a
  {
  }

  lemma OtherStep(q: string, n: nat)
    requires q != [] && q[0] != '?'
    ensures var s, run := Numbered(q, n), DigitRun(q[1..]);
            && s[0] == q[0] && s[1..] == Numbered(q[1..], n) && DigitRun(s[1..]) == run
            && s[1..][run..] == Numbered(q[1..][run..], n)
  {
    var run := DigitRun(q[1..]);
    assert Numbered(q, n)[1..] == Numbered(q[1..], n);
    NumberedKeepsDigits(q[1..], n);
    DropTwo([], q[1..][..run], Numbered(q[1..][run..], n));
  }

  lemma {:induction false} UnnumberedIsNoLonger(q: string, n: nat)
    ensures |Unnumbered(Numbered(q, n))| <= |q|
    decreases |q|
  {
    if q != [] {
      var run := DigitRun(q[1..]);
      if q[0] == '?' {
        PlaceholderStep(q, n);
        UnnumberedIsNoLonger(q[1..][run..], n + 1);
      } else {
        OtherStep(q, n);
        UnnumberedIsNoLonger(q[1..], n);
        UnnumberedIsNoLonger(q[1..][run..], n);
      }
    }
  }

  lemma SeparatedTail(q: string)
    requires q != []
    ensures Separated(q) <==> Separated(q[1..]) && (q[0] == '?' || q[0] == '$' ==> DigitRun(q[1..]) == 0)
  {
    if Separated(q[1..]) && (q[0] == '?' || q[0] == '$' ==> DigitRun(q[1..]) == 0) {
      forall i | 0 <= i < |q| - 1
        ensures q[i] == '?' || q[i] == '$' ==> !IsDigit(q[i + 1])
      {
        if i > 0 {
          assert q[i] == q[1..][i - 1] && q[i + 1] == q[1..][i];
        }
      }
    }
    if Separated(q) {
      forall i | 0 <= i < |q[1..]| - 1
        ensures q[1..][i] == '?' || q[1..][i] == '$' ==> !IsDigit(q[1..][i + 1])
      {
        assert q[1..][i] == q[i + 1] && q[1..][i + 1] == q[i + 2];
      }
    }
  }

  /** Numbering loses nothing exactly when no `?` and no `$` is directly followed by a digit:
      otherwise the digit is swallowed by the placeholder before it. */
  lemma {:induction false} NumberingIsReversibleExactlyWhenSeparated(q: string, n: nat)
    ensures Unnumbered(Numbered(q, n)) == q <==> Separated(q)
    decreases |q|
  {
    if q != [] {
      SeparatedTail(q);
      var s, run := Numbered(q, n), DigitRun(q[1..]);
      if q[0] == '?' {
        PlaceholderStep(q, n);
      } else {
        OtherStep(q, n);
      }
      var n' := if q[0] == '?' then n + 1 else n;
      if (q[0] == '?' || q[0] == '$') && run > 0 {
        assert Unnumbered(s) == "?" + Unnumbered(Numbered(q[1..][run..], n'));
        UnnumberedIsNoLonger(q[1..][run..], n');
      } else {
        assert Unnumbered(s) == [q[0]] + Unnumbered(Numbered(q[1..], n')) by {
          assert q[1..][0..] == q[1..];
        }
        NumberingIsReversibleExactlyWhenSeparated(q[1..], n');
        SameHead(q[0], Unnumbered(Numbered(q[1..], n')), q);
      }
    }
  }

  lemma SameHead(c: char, s: string, q: string)
    requires q != [] && q[0] == c
    ensures [c] + s == q <==> s == q[1..]
  {
    assert ([c] + s)[1..] == s;
    assert q == [c] + q[1..];
  }

  /** Meaning is preserved: binding by number in the rebound query is binding by position in the
      original, for every argument list, too short ones included. */
  lemma {:induction false} NumberingPreservesMeaning(q: string, args: seq<string>, n: nat)
    requires Separated(q)
    ensures BindNumbered(Numbered(q, n), args) == BindPositional(q, args, n)
  {
    if q != [] {
      SeparatedTail(q);
      if q[0] == '?' {
        PlaceholderStep(q, n);
        ValueOfDigits(n + 1);
        NumberingPreservesMeaning(q[1..], args, n + 1);
      } else {
        OtherStep(q, n);
        NumberingPreservesMeaning(q[1..], args, n);
      }
    }
  }

  // ── Nothing else is preserved ─────────────────────────────────────────────────

  // k empty arguments: what is left of a query is then as long as its ordinary text.
  function Blanks(k: nat): (args: seq<string>)
    ensures |args| == k && AllBlank(args)
  {
    if k == 0 then [] else Blanks(k - 1) + [""]
  }

  predicate AllBlank(args: seq<string>) {
    forall i | 0 <= i < |args| :: args[i] == ""
  }

  lemma {:induction false} BlankPositional(q: string, args: seq<string>, n: nat)
    requires AllBlank(args) && n + Placeholders(q) <= |args|
    ensures var r := BindPositional(q, args, n);
            r.Some? && |r.value| == |q| - Placeholders(q)
  {
    if q != [] {
      BlankPositional(q[1..], args, if q[0] == '?' then n + 1 else n);
    }
  }

  lemma {:induction false} PlaceholdersPastDigits(s: string)
    ensures Placeholders(s[DigitRun(s)..]) == Placeholders(s)
  {
    if s != [] && IsDigit(s[0]) {
      PlaceholdersPastDigits(s[1..]);
      assert s[DigitRun(s)..] == s[1..][DigitRun(s[1..])..];
    }
  }

  // A digit that runs into a placeholder number is missing from the text, if the number is valid at all.
  lemma {:induction false} BlankNumbered(q: string, args: seq<string>, n: nat)
    requires AllBlank(args)
    ensures var r := BindNumbered(Numbered(q, n), args);
            r.Some? ==> |r.value| <= |q| - Placeholders(q) && (|r.value| == |q| - Placeholders(q) ==> Separated(q))
    decreases |q|
  {
    if q != [] {
      SeparatedTail(q);
      PlaceholdersPastDigits(q[1..]);
      var run := DigitRun(q[1..]);
      if q[0] == '?' {
        PlaceholderStep(q, n);
        BlankNumbered(q[1..][run..], args, n + 1);
        assert run == 0 ==> q[1..][run..] == q[1..];
      } else {
        OtherStep(q, n);
        BlankNumbered(q[1..], args, n);
        BlankNumbered(q[1..][run..], args, n);
      }
    }
  }

  /** Binding by number in the rebound query is binding by position in the original for all argument
      lists exactly when no `?` and no `$` is directly followed by a digit. */
  lemma MeaningIsPreservedExactlyWhenSeparated(q: string)
    ensures (forall args :: BindNumbered(Numbered(q, 0), args) == BindPositional(q, args, 0)) <==> Separated(q)
  {
    if Separated(q) {
      forall args
        ensures BindNumbered(Numbered(q, 0), args) == BindPositional(q, args, 0)
      {
        NumberingPreservesMeaning(q, args, 0);
      }
    } else {
      var args := Blanks(Placeholders(q));
      BlankPositional(q, args, 0);
      BlankNumbered(q, args, 0);
      assert BindNumbered(Numbered(q, 0), args) != BindPositional(q, args, 0);
    }
  }
}
