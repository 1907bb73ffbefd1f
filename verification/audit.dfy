/** The audit query of internal/audit/store.go: List grows a WHERE clause and its argument list side
    by side, counts, and fetches one page newest first. */
module Audit {
  import Like
  import opened Rebind
  import opened Paging

  datatype Event = Event(id: string, principal: string, action: string, resource: string, createdAt: string)

  /** The empty string means that the field does not filter. */
  datatype Filter = Filter(principal: string, action: string, resource: string, from: string, to: string,
                           limit: int, offset: int)

  /** How the database compares time stamps, and which LIKE it has. */
  datatype Backend = Backend(dialect: Like.Dialect, notAfter: (string, string) -> bool)

  ghost predicate Ordered(b: Backend) {
    && (forall x, y :: b.notAfter(x, y) || b.notAfter(y, x))
    && (forall x, y, z :: b.notAfter(x, y) && b.notAfter(y, z) ==> b.notAfter(x, z))
  }

  datatype Clause = Always | PrincipalIs | ActionLike | ActionIs | ResourceIs | CreatedFrom | CreatedTo

  // Everything before the placeholder.
  function Head(c: Clause): string {
    match c
    case Always => "1=1"
    case PrincipalIs => "principal = "
    case ActionLike => "action LIKE "
    case ActionIs => "action = "
    case ResourceIs => "resource = "
    case CreatedFrom => "created_at >= "
    case CreatedTo => "created_at <= "
  }

  function Text(c: Clause): string {
    if c.Always? then Head(c) else Head(c) + "?"
  }

  // strings.Join(where, " AND ")
  function Join(where: seq<Clause>): string {
    if where == [] then ""
    else if |where| == 1 then Text(where[0])
    else Text(where[0]) + " AND " + Join(where[1..])
  }

  // ── The database ──────────────────────────────────────────────────────────────

  predicate Holds(b: Backend, c: Clause, arg: string, e: Event) {
    match c
    case Always => true
    case PrincipalIs => e.principal == arg
    case ActionLike => Like.Matches(b.dialect, arg, e.action)
    case ActionIs => e.action == arg
    case ResourceIs => e.resource == arg
    case CreatedFrom => b.notAfter(arg, e.createdAt)
    case CreatedTo => b.notAfter(e.createdAt, arg)
  }

  /** Evaluates the conjunction: each placeholder takes the next argument. Too few are an error. */
  predicate Satisfies(b: Backend, where: seq<Clause>, args: seq<string>, e: Event) {
    if where == [] then true
    else if where[0].Always? then Satisfies(b, where[1..], args, e)
    else args != [] && Holds(b, where[0], args[0], e) && Satisfies(b, where[1..], args[1..], e)
  }

  function Select(b: Backend, rows: seq<Event>, where: seq<Clause>, args: seq<string>): seq<Event> {
    if rows == [] then []
    else (if Satisfies(b, where, args, rows[0]) then [rows[0]] else []) + Select(b, rows[1..], where, args)
  }

  // ORDER BY created_at DESC; rows with equal time stamps come in the order of the table scan,
  // which is arbitrary.
  function Insert(b: Backend, e: Event, sorted: seq<Event>): seq<Event> {
    if sorted == [] || b.notAfter(sorted[0].createdAt, e.createdAt) then [e] + sorted
    else [sorted[0]] + Insert(b, e, sorted[1..])
  }

  function NewestFirst(b: Backend, rows: seq<Event>): seq<Event> {
    if rows == [] then [] else Insert(b, rows[0], NewestFirst(b, rows[1..]))
  }

  ghost predicate Descending(b: Backend, rows: seq<Event>) {
    forall i, j | 0 <= i < j < |rows| :: b.notAfter(rows[j].createdAt, rows[i].createdAt)
  }

  lemma DescendingCons(b: Backend, e: Event, rest: seq<Event>)
    requires Descending(b, rest) && forall x | x in rest :: b.notAfter(x.createdAt, e.createdAt)
    ensures Descending(b, [e] + rest)
  {
  }

  lemma {:induction false} InsertRearranges(b: Backend, e: Event, sorted: seq<Event>)
    ensures multiset(Insert(b, e, sorted)) == multiset{e} + multiset(sorted)
  {
    if sorted != [] && !b.notAfter(sorted[0].createdAt, e.createdAt) {
      InsertRearranges(b, e, sorted[1..]);
      assert sorted == [sorted[0]] + sorted[1..];
    }
  }

  lemma {:induction false} InsertSorts(b: Backend, e: Event, sorted: seq<Event>)
    requires Ordered(b) && Descending(b, sorted)
    ensures Descending(b, Insert(b, e, sorted))
  {
    if sorted == [] {
    } else if b.notAfter(sorted[0].createdAt, e.createdAt) {
      forall x | x in sorted
        ensures b.notAfter(x.createdAt, e.createdAt)
      {
        assert b.notAfter(x.createdAt, sorted[0].createdAt);
      }
      DescendingCons(b, e, sorted);
    } else {
      var rest := Insert(b, e, sorted[1..]);
      InsertSorts(b, e, sorted[1..]);
      InsertRearranges(b, e, sorted[1..]);
      forall x | x in rest
        ensures b.notAfter(x.createdAt, sorted[0].createdAt)
      {
        assert x in multiset(rest);
        assert x == e || x in sorted[1..];
      }
      DescendingCons(b, sorted[0], rest);
    }
  }

  /** The ordering is a rearrangement of the rows, newest first. */
  lemma {:induction false} NewestFirstSorts(b: Backend, rows: seq<Event>)
    requires Ordered(b)
    ensures Descending(b, NewestFirst(b, rows))
    ensures multiset(NewestFirst(b, rows)) == multiset(rows)
  {
    if rows != [] {
      NewestFirstSorts(b, rows[1..]);
      InsertSorts(b, rows[0], NewestFirst(b, rows[1..]));
      InsertRearranges(b, rows[0], NewestFirst(b, rows[1..]));
      assert rows == [rows[0]] + rows[1..];
    }
  }

  // ── What a filter means ───────────────────────────────────────────────────────

  predicate EndsWithStar(s: string) {
    s != [] && s[|s| - 1] == '*'
  }

  function WithoutStar(s: string): string
    requires EndsWithStar(s)
  {
    s[..|s| - 1]
  }

  predicate ActionAccepted(b: Backend, pattern: string, action: string) {
    if EndsWithStar(pattern) then Like.Matches(b.dialect, WithoutStar(pattern) + "%", action) else action == pattern
  }

  // The first k of the five fields, in the order in which List looks at them.
  predicate AcceptsUpTo(b: Backend, f: Filter, e: Event, k: nat) {
    && (k >= 1 && f.principal != "" ==> e.principal == f.principal)
    && (k >= 2 && f.action != "" ==> ActionAccepted(b, f.action, e.action))
    && (k >= 3 && f.resource != "" ==> e.resource == f.resource)
    && (k >= 4 && f.from != "" ==> b.notAfter(f.from, e.createdAt))
    && (k >= 5 && f.to != "" ==> b.notAfter(e.createdAt, f.to))
  }

  /** An event passes when it satisfies every field that is set. */
  predicate Accepts(b: Backend, f: Filter, e: Event) {
    AcceptsUpTo(b, f, e, 5)
  }

  function Accepted(b: Backend, rows: seq<Event>, f: Filter): seq<Event> {
    if rows == [] then []
    else (if Accepts(b, f, rows[0]) then [rows[0]] else []) + Accepted(b, rows[1..], f)
  }

  /** The documented meaning of a trailing star, a prefix match, holds for all actions exactly when
      the prefix has no LIKE special characters. */
  lemma StarMeansPrefixExactlyWhenPlain(b: Backend, pattern: string)
    requires EndsWithStar(pattern)
    ensures (forall action: string :: ActionAccepted(b, pattern, action) <==> Like.SamePrefix(b.dialect, WithoutStar(pattern), action))
            <==> Like.Plain(b.dialect, WithoutStar(pattern))
  {
    Like.PrefixPatternMeansPrefixExactlyWhenPlain(b.dialect, WithoutStar(pattern));
    assert forall action: string ::
        ActionAccepted(b, pattern, action) == Like.Matches(b.dialect, WithoutStar(pattern) + "%", action);
  }

  // ── Building the query ────────────────────────────────────────────────────────

  function Holes(where: seq<Clause>): nat {
    if where == [] then 0 else (if where[0].Always? then 0 else 1) + Holes(where[1..])
  }

  lemma {:induction false} SatisfiesSnoc(b: Backend, where: seq<Clause>, args: seq<string>, c: Clause, arg: string, e: Event)
    requires Holes(where) == |args| && !c.Always?
    ensures Satisfies(b, where + [c], args + [arg], e) <==> Satisfies(b, where, args, e) && Holds(b, c, arg, e)
    ensures Holes(where + [c]) == |args| + 1
  {
    if where == [] {
      assert where + [c] == [c] && args + [arg] == [arg];
    } else {
      assert (where + [c])[1..] == where[1..] + [c];
      if where[0].Always? {
        SatisfiesSnoc(b, where[1..], args, c, arg, e);
      } else {
        assert (args + [arg])[1..] == args[1..] + [arg];
        SatisfiesSnoc(b, where[1..], args[1..], c, arg, e);
      }
    }
  }

  lemma Grow(b: Backend, where: seq<Clause>, args: seq<string>, c: Clause, arg: string)
    requires Holes(where) == |args| && !c.Always?
    ensures Holes(where + [c]) == |args + [arg]|
    ensures forall e :: Satisfies(b, where + [c], args + [arg], e) <==> Satisfies(b, where, args, e) && Holds(b, c, arg, e)
  {
    forall e
      ensures Satisfies(b, where + [c], args + [arg], e) <==> Satisfies(b, where, args, e) && Holds(b, c, arg, e)
    {
      SatisfiesSnoc(b, where, args, c, arg, e);
    }
    SatisfiesSnoc(b, where, args, c, arg, Event("", "", "", "", ""));
  }

  // After the first k fields.
  ghost predicate Built(b: Backend, f: Filter, where: seq<Clause>, args: seq<string>, k: nat) {
    Holes(where) == |args| && forall e :: Satisfies(b, where, args, e) <==> AcceptsUpTo(b, f, e, k)
  }

  lemma Skip(b: Backend, f: Filter, where: seq<Clause>, args: seq<string>, k: nat)
    requires Built(b, f, where, args, k)
    requires forall e :: AcceptsUpTo(b, f, e, k + 1) <==> AcceptsUpTo(b, f, e, k)
    ensures Built(b, f, where, args, k + 1)
  {
  }

  lemma Add(b: Backend, f: Filter, where: seq<Clause>, args: seq<string>, k: nat, c: Clause, arg: string)
    requires Built(b, f, where, args, k) && !c.Always?
    requires forall e :: AcceptsUpTo(b, f, e, k + 1) <==> AcceptsUpTo(b, f, e, k) && Holds(b, c, arg, e)
    ensures Built(b, f, where + [c], args + [arg], k + 1)
  {
    Grow(b, where, args, c, arg);
  }

  method BuildAction(b: Backend, f: Filter, where0: seq<Clause>, args0: seq<string>)
    returns (where: seq<Clause>, args: seq<string>)
    requires Built(b, f, where0, args0, 1)
    ensures Built(b, f, where, args, 2)
  {
    where, args := where0, args0;
    if f.action == "" {
      Skip(b, f, where, args, 1);
    } else if EndsWithStar(f.action) {
      Add(b, f, where, args, 1, ActionLike, WithoutStar(f.action) + "%");
      where, args := where + [ActionLike], args + [WithoutStar(f.action) + "%"];
    } else {
      Add(b, f, where, args, 1, ActionIs, f.action);
      where, args := where + [ActionIs], args + [f.action];
    }
  }

  method BuildTimes(b: Backend, f: Filter, where0: seq<Clause>, args0: seq<string>)
    returns (where: seq<Clause>, args: seq<string>)
    requires Built(b, f, where0, args0, 3)
    ensures Built(b, f, where, args, 5)
  {
    where, args := where0, args0;
    if f.from != "" {
      Add(b, f, where, args, 3, CreatedFrom, f.from);
      where, args := where + [CreatedFrom], args + [f.from];
    } else {
      Skip(b, f, where, args, 3);
    }
    if f.to != "" {
      Add(b, f, where, args, 4, CreatedTo, f.to);
      where, args := where + [CreatedTo], args + [f.to];
    } else {
      Skip(b, f, where, args, 4);
    }
  }

  /** The clause and the arguments say exactly what the filter says, the text of the clause has one
      placeholder per argument, and rebinding it for PostgreSQL keeps its meaning. */
  method BuildWhere(b: Backend, f: Filter) returns (where: seq<Clause>, args: seq<string>)
    ensures forall e :: Satisfies(b, where, args, e) <==> Accepts(b, f, e)
    ensures Placeholders(Join(where)) == |args|
    ensures Separated(Join(where))
  {
    where, args := [Always], [];
    assert where[1..] == [];
    assert Built(b, f, where, args, 0);
    if f.principal != "" {
      Add(b, f, where, args, 0, PrincipalIs, f.principal);
      where, args := where + [PrincipalIs], args + [f.principal];
    } else {
      Skip(b, f, where, args, 0);
    }
    where, args := BuildAction(b, f, where, args);
    if f.resource != "" {
      Add(b, f, where, args, 2, ResourceIs, f.resource);
      where, args := where + [ResourceIs], args + [f.resource];
    } else {
      Skip(b, f, where, args, 2);
    }
    where, args := BuildTimes(b, f, where, args);
    JoinHasOnePlaceholderEach(where);
  }

  lemma {:induction false} NoPlaceholder(s: string)
    requires forall i | 0 <= i < |s| :: s[i] != '?'
    ensures Placeholders(s) == 0
  {
    if s != [] {
      NoPlaceholder(s[1..]);
    }
  }

  lemma HeadsAreOrdinary(c: Clause)
    ensures forall i | 0 <= i < |Head(c)| :: Head(c)[i] != '?' && Head(c)[i] != '$'
  {
  }

  lemma TextShape(c: Clause)
    ensures Placeholders(Text(c)) == if c.Always? then 0 else 1
    ensures Separated(Text(c))
  {
    HeadsAreOrdinary(c);
    NoPlaceholder(Head(c));
    PlaceholdersConcat(Head(c), "?");
    assert Placeholders("?") == 1;
  }

  predicate Ordinary(s: string) {
    s != [] && s[0] == ' ' && forall i | 0 <= i < |s| :: s[i] != '?' && s[i] != '$'
  }

  lemma JoinedShape(text: string, separator: string, rest: string)
    requires Separated(text) && Ordinary(separator) && Separated(rest)
    ensures Placeholders(text + separator + rest) == Placeholders(text) + Placeholders(rest)
    ensures Separated(text + separator + rest)
  {
    NoPlaceholder(separator);
    PlaceholdersConcat(text, separator);
    PlaceholdersConcat(text + separator, rest);
  }

  lemma AndIsOrdinary()
    ensures Ordinary(" AND ")
  {
  }

  lemma {:induction false} JoinHasOnePlaceholderEach(where: seq<Clause>)
    ensures Placeholders(Join(where)) == Holes(where)
    ensures Separated(Join(where))
  {
    if where != [] {
      TextShape(where[0]);
      JoinHasOnePlaceholderEach(where[1..]);
      if |where| > 1 {
        AndIsOrdinary();
        JoinedShape(Text(where[0]), " AND ", Join(where[1..]));
      }
    }
  }

  const ORDER_AND_LIMIT := " ORDER BY created_at DESC LIMIT "
  const OFFSET := " OFFSET "

  // What List appends for the page query; it passes limit and offset as two more arguments.
  function PageQuery(where: seq<Clause>): string {
    Paged(Join(where), ORDER_AND_LIMIT, OFFSET)
  }

  function Paged(count: string, limit: string, offset: string): string {
    count + (limit + ("?" + (offset + "?")))
  }

  lemma PagedShape(count: string, limit: string, offset: string)
    requires Separated(count) && Ordinary(limit) && Ordinary(offset)
    ensures Placeholders(Paged(count, limit, offset)) == Placeholders(count) + 2
    ensures Separated(Paged(count, limit, offset))
  {
    NoPlaceholder(limit);
    NoPlaceholder(offset);
    PlaceholdersConcat(offset, "?");
    PlaceholdersConcat("?", offset + "?");
    PlaceholdersConcat(limit, "?" + (offset + "?"));
    PlaceholdersConcat(count, limit + ("?" + (offset + "?")));
    assert Placeholders("?") == 1;
    assert Separated("?" + (offset + "?"));
    assert Separated(limit + ("?" + (offset + "?")));
  }

  lemma LiteralsAreOrdinary()
    ensures Ordinary(ORDER_AND_LIMIT) && Ordinary(OFFSET)
  {
  }

  lemma PagedRebinds(count: string, limit: string, offset: string, args: seq<string>)
    requires Separated(count) && Ordinary(limit) && Ordinary(offset)
    ensures Placeholders(Paged(count, limit, offset)) == Placeholders(count) + 2
    ensures BindNumbered(Numbered(Paged(count, limit, offset), 0), args) == BindPositional(Paged(count, limit, offset), args, 0)
  {
    PagedShape(count, limit, offset);
    NumberingPreservesMeaning(Paged(count, limit, offset), args, 0);
  }

  lemma Regroup(a: string, b: string, c: string, d: string, e: string)
    ensures a + (b + (c + (d + e))) == a + (b + c + d + e)
  {
    assert b + (c + (d + e)) == b + c + d + e;
  }

  lemma PageQueryText(where: seq<Clause>)
    ensures PageQuery(where) == Join(where) + " ORDER BY created_at DESC LIMIT ? OFFSET ?"
  {
    Regroup(Join(where), ORDER_AND_LIMIT, "?", OFFSET, "?");
    assert ORDER_AND_LIMIT + "?" + OFFSET + "?" == " ORDER BY created_at DESC LIMIT ? OFFSET ?";
  }

  /** The page query has two placeholders more than the count query, and rebinding it is harmless. */
  lemma PageQueryRebinds(where: seq<Clause>, args: seq<string>)
    ensures Placeholders(PageQuery(where)) == Placeholders(Join(where)) + 2
    ensures BindNumbered(Numbered(PageQuery(where), 0), args) == BindPositional(PageQuery(where), args, 0)
  {
    JoinHasOnePlaceholderEach(where);
    LiteralsAreOrdinary();
    PagedRebinds(Join(where), ORDER_AND_LIMIT, OFFSET, args);
  }

  lemma {:induction false} SelectIsAccepted(b: Backend, rows: seq<Event>, where: seq<Clause>, args: seq<string>, f: Filter)
    requires forall e :: Satisfies(b, where, args, e) <==> Accepts(b, f, e)
    ensures Select(b, rows, where, args) == Accepted(b, rows, f)
  {
    if rows != [] {
      SelectIsAccepted(b, rows[1..], where, args, f);
    }
  }

  function ClampLimit(limit: int): nat {
    if limit <= 0 || limit > MAX_LIMIT then DEFAULT_LIMIT else limit
  }

  /** The limit is "capped at MaxLimit" as the Filter's comment has it exactly when it is not above
      MaxLimit: a larger one gives the default of 50 instead of 500. */
  lemma LimitIsCappedExactlyUpToTheMaximum(limit: int)
    requires limit > 0
    ensures ClampLimit(limit) == (if limit < MAX_LIMIT then limit else MAX_LIMIT) <==> limit <= MAX_LIMIT
    ensures limit > 500 ==> ClampLimit(limit) == 50
    ensures limit <= 500 ==> ClampLimit(limit) == limit
  {
  }

  // rows.Next, Scan, append.
  method ScanRows(found: seq<Event>) returns (out: seq<Event>)
    ensures out == found
  {
    out := [];
    for i := 0 to |found|
      invariant out == found[..i]
    {
      out := out + [found[i]];
    }
  }

  /** What an event has to be to pass, field by field. */
  predicate FieldsPass(b: Backend, f: Filter, e: Event) {
    && (f.principal != "" ==> e.principal == f.principal)
    && (f.action != "" ==>
          if f.action[|f.action| - 1] == '*' then Like.Matches(b.dialect, f.action[..|f.action| - 1] + "%", e.action)
          else e.action == f.action)
    && (f.resource != "" ==> e.resource == f.resource)
    && (f.from != "" ==> b.notAfter(f.from, e.createdAt))
    && (f.to != "" ==> b.notAfter(e.createdAt, f.to))
  }

  lemma {:induction false} AcceptedAreThoseThatPass(b: Backend, rows: seq<Event>, f: Filter)
    ensures forall e :: e in Accepted(b, rows, f) <==> e in rows && FieldsPass(b, f, e)
    ensures |Accepted(b, rows, f)| <= |rows|
    ensures (forall e | e in rows :: FieldsPass(b, f, e)) ==> Accepted(b, rows, f) == rows
  {
    if rows != [] {
      assert rows == [rows[0]] + rows[1..];
      assert Accepts(b, f, rows[0]) <==> FieldsPass(b, f, rows[0]);
      AcceptedAreThoseThatPass(b, rows[1..], f);
    }
  }

  /** List returns the number of events that pass the filter and the requested slice of them, newest
      first, for every filter and every table. */
  method List(b: Backend, rows: seq<Event>, f: Filter) returns (page: seq<Event>, total: nat)
    requires Ordered(b)
    ensures total == |Accepted(b, rows, f)|
    ensures page == Slice(NewestFirst(b, Accepted(b, rows, f)), ValidOffset(f.offset), ClampLimit(f.limit))
    ensures Descending(b, NewestFirst(b, Accepted(b, rows, f)))
    ensures multiset(NewestFirst(b, Accepted(b, rows, f))) == multiset(Accepted(b, rows, f))
    ensures forall e | e in page :: e in rows
    ensures forall e | e in page && f.principal != "" :: e.principal == f.principal
    ensures forall e | e in page && f.resource != "" :: e.resource == f.resource
    ensures forall e | e in page && f.action != "" && f.action[|f.action| - 1] != '*' :: e.action == f.action
    ensures forall e | e in page && f.from != "" :: b.notAfter(f.from, e.createdAt)
    ensures forall e | e in page && f.to != "" :: b.notAfter(e.createdAt, f.to)
    ensures (forall e | e in rows :: FieldsPass(b, f, e)) ==> total == |rows|
  {
    AcceptedAreThoseThatPass(b, rows, f);
    PageIsOfAccepted(b, rows, f);
    var where, args := BuildWhere(b, f);
    SelectIsAccepted(b, rows, where, args, f);
    NewestFirstSorts(b, Accepted(b, rows, f));
    var countArgs := args;
    total := |Select(b, rows, where, countArgs)|;
    page := ScanRows(Slice(NewestFirst(b, Select(b, rows, where, args)), ValidOffset(f.offset), ClampLimit(f.limit)));
  }

  lemma PageIsOfAccepted(b: Backend, rows: seq<Event>, f: Filter)
    requires Ordered(b)
    ensures forall e | e in Slice(NewestFirst(b, Accepted(b, rows, f)), ValidOffset(f.offset), ClampLimit(f.limit)) ::
              e in rows && FieldsPass(b, f, e)
  {
    var all := NewestFirst(b, Accepted(b, rows, f));
    NewestFirstSorts(b, Accepted(b, rows, f));
    AcceptedAreThoseThatPass(b, rows, f);
    forall e | e in Slice(all, ValidOffset(f.offset), ClampLimit(f.limit))
      ensures e in rows && FieldsPass(b, f, e)
    {
      assert e in all;
      assert e in multiset(all);
    }
  }

  lemma JoinCons(c: Clause, rest: seq<Clause>)
    requires rest != []
    ensures Join([c] + rest) == Text(c) + " AND " + Join(rest)
  {
    assert ([c] + rest)[1..] == rest;
  }

  /** The clauses, word for word. */
  lemma ClauseTexts()
    ensures Text(Always) == "1=1" && Text(PrincipalIs) == "principal = ?" && Text(ResourceIs) == "resource = ?"
    ensures Text(ActionIs) == "action = ?" && Text(ActionLike) == "action LIKE ?"
    ensures Text(CreatedFrom) == "created_at >= ?" && Text(CreatedTo) == "created_at <= ?"
  {
  }

  /** The WHERE clause of a filter by principal and resource. */
  lemma TwoFieldClause()
    ensures Join([Always] + ([PrincipalIs] + [ResourceIs])) == "1=1" + " AND " + ("principal = ?" + " AND " + "resource = ?")
  {
    ClauseTexts();
    JoinCons(Always, [PrincipalIs] + [ResourceIs]);
    JoinCons(PrincipalIs, [ResourceIs]);
  }
}
