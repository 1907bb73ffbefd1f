/** Rights evaluation (internal/auth/rbac.go), the rights table (internal/auth/store.go) and the
    permission levels of the web forms (internal/web/handlers.go). */
module Rights {
  import opened Common
  import opened Like

  datatype Flags = Flags(create: bool, read: bool, update: bool, delete: bool)

  /** The UNIQUE columns of a row of `rights`. */
  datatype Key = Key(principalType: string, principal: string, resourceType: string, resource: string)

  datatype Right = Right(key: Key, flags: Flags)

  predicate Grants(f: Flags, action: string) {
    match action
    case "create" => f.create
    case "read" => f.read
    case "update" => f.update
    case "delete" => f.delete
    case _ => false
  }

  predicate Matching(k: Key, resourceType: string, resource: string) {
    k.resourceType == resourceType && (k.resource == resource || k.resource == "*")
  }

  // The first row for the resource decides; no row means yes.
  predicate CanOpen(rights: seq<Right>, action: string, resourceType: string, resource: string) {
    if rights == [] then true
    else if Matching(rights[0].key, resourceType, resource) then Grants(rights[0].flags, action)
    else CanOpen(rights[1..], action, resourceType, resource)
  }

  // Any row that grants decides.
  predicate CheckRights(rights: seq<Right>, action: string, resourceType: string, resource: string) {
    if rights == [] then false
    else if Matching(rights[0].key, resourceType, resource) && Grants(rights[0].flags, action) then true
    else CheckRights(rights[1..], action, resourceType, resource)
  }

  // Every mode other than "open" is explicit.
  predicate Can(admin: bool, rights: seq<Right>, mode: string, action: string, resourceType: string, resource: string) {
    if admin then true
    else if mode == "open" then CanOpen(rights, action, resourceType, resource)
    else CheckRights(rights, action, resourceType, resource)
  }

  /** The row is about the resource and grants the action. */
  predicate Granting(r: Right, action: string, resourceType: string, resource: string) {
    Matching(r.key, resourceType, resource) && Grants(r.flags, action)
  }

  /** All rows about the resource give the same answer. */
  predicate Agree(rights: seq<Right>, action: string, resourceType: string, resource: string) {
    forall r, s | r in rights && s in rights && Matching(r.key, resourceType, resource) && Matching(s.key, resourceType, resource)
      :: Grants(r.flags, action) == Grants(s.flags, action)
  }

  lemma {:induction false} ExplicitNeedsOneGrant(rights: seq<Right>, action: string, resourceType: string, resource: string)
    ensures CheckRights(rights, action, resourceType, resource)
            <==> exists r :: r in rights && Granting(r, action, resourceType, resource)
  {
    if rights != [] {
      ExplicitNeedsOneGrant(rights[1..], action, resourceType, resource);
      assert rights == [rights[0]] + rights[1..];
      assert Granting(rights[0], action, resourceType, resource) ==> rights[0] in rights;
    }
  }

  /** The explicit answer depends on which rows there are, not on their order or number, and more
      rows never take an access away. */
  lemma ExplicitIsMonotone(fewer: seq<Right>, more: seq<Right>, action: string, resourceType: string, resource: string)
    requires forall r :: r in fewer ==> r in more
    ensures CheckRights(fewer, action, resourceType, resource) ==> CheckRights(more, action, resourceType, resource)
    ensures multiset(fewer) == multiset(more)
            ==> CheckRights(fewer, action, resourceType, resource) == CheckRights(more, action, resourceType, resource)
  {
    ExplicitNeedsOneGrant(fewer, action, resourceType, resource);
    ExplicitNeedsOneGrant(more, action, resourceType, resource);
    if multiset(fewer) == multiset(more) {
      forall r | r in more
        ensures r in fewer
      {
        assert r in multiset(more);
      }
    }
  }

  /** The open answer is that of some row about the resource, or yes if there is none. */
  lemma {:induction false} OpenFollowsSomeRow(rights: seq<Right>, action: string, resourceType: string, resource: string)
    ensures (exists r :: r in rights && Matching(r.key, resourceType, resource))
            ==> exists r :: r in rights && Matching(r.key, resourceType, resource)
                            && Grants(r.flags, action) == CanOpen(rights, action, resourceType, resource)
    ensures !(exists r :: r in rights && Matching(r.key, resourceType, resource))
            ==> CanOpen(rights, action, resourceType, resource)
  {
    if rights != [] {
      assert rights == [rights[0]] + rights[1..];
      assert rights[0] in rights;
      OpenFollowsSomeRow(rights[1..], action, resourceType, resource);
    }
  }

  /** Once a row is about the resource, open mode is never more generous than explicit mode. */
  lemma OpenImpliesExplicitOnceARowMatches(rights: seq<Right>, action: string, resourceType: string, resource: string)
    requires exists r :: r in rights && Matching(r.key, resourceType, resource)
    ensures CanOpen(rights, action, resourceType, resource) ==> CheckRights(rights, action, resourceType, resource)
  {
    OpenFollowsSomeRow(rights, action, resourceType, resource);
    ExplicitNeedsOneGrant(rights, action, resourceType, resource);
    if CanOpen(rights, action, resourceType, resource) {
      var r :| r in rights && Matching(r.key, resourceType, resource) && Grants(r.flags, action);
      assert Granting(r, action, resourceType, resource);
    }
  }

  lemma SplitAt(rights: seq<Right>, r: Right)
    requires r in rights
    ensures exists i :: 0 <= i < |rights| && rights[i] == r
                        && multiset([r] + (rights[..i] + rights[i + 1..])) == multiset(rights)
  {
    var i :| 0 <= i < |rights| && rights[i] == r;
    assert rights == rights[..i] + ([r] + rights[i + 1..]);
    assert multiset([r] + (rights[..i] + rights[i + 1..])) == multiset(rights);
  }

  // The database may return r first.
  lemma RowCanComeFirst(rights: seq<Right>, r: Right) returns (order: seq<Right>)
    requires r in rights
    ensures multiset(order) == multiset(rights) && order != [] && order[0] == r
  {
    SplitAt(rights, r);
    var i :| 0 <= i < |rights| && rights[i] == r
             && multiset([r] + (rights[..i] + rights[i + 1..])) == multiset(rights);
    order := [r] + (rights[..i] + rights[i + 1..]);
  }

  /** The open answer does not depend on the order in which the rows come. */
  ghost predicate OrderFree(rights: seq<Right>, action: string, resourceType: string, resource: string) {
    forall order: seq<Right> :: multiset(order) == multiset(rights)
      ==> CanOpen(order, action, resourceType, resource) == CanOpen(rights, action, resourceType, resource)
  }

  lemma AgreeingRowsAreOrderFree(rights: seq<Right>, action: string, resourceType: string, resource: string)
    requires Agree(rights, action, resourceType, resource)
    ensures OrderFree(rights, action, resourceType, resource)
  {
    forall order: seq<Right> | multiset(order) == multiset(rights)
      ensures CanOpen(order, action, resourceType, resource) == CanOpen(rights, action, resourceType, resource)
    {
      OpenFollowsSomeRow(order, action, resourceType, resource);
      OpenFollowsSomeRow(rights, action, resourceType, resource);
      assert forall r :: r in order <==> r in multiset(order);
      assert forall r :: r in rights <==> r in multiset(rights);
    }
  }

  lemma DisagreeingRowsAreNot(rights: seq<Right>, r: Right, s: Right, action: string, resourceType: string, resource: string)
    requires r in rights && s in rights && Grants(r.flags, action) != Grants(s.flags, action)
    requires Matching(r.key, resourceType, resource) && Matching(s.key, resourceType, resource)
    ensures !OrderFree(rights, action, resourceType, resource)
  {
    var first := RowCanComeFirst(rights, r);
    var second := RowCanComeFirst(rights, s);
    assert CanOpen(first, action, resourceType, resource) != CanOpen(second, action, resourceType, resource);
  }

  /** GetUserRights has no ORDER BY: the open answer is well defined exactly when the matching rows
      agree. */
  lemma OpenIgnoresOrderExactlyWhenRowsAgree(rights: seq<Right>, action: string, resourceType: string, resource: string)
    ensures OrderFree(rights, action, resourceType, resource) <==> Agree(rights, action, resourceType, resource)
  {
    if Agree(rights, action, resourceType, resource) {
      AgreeingRowsAreOrderFree(rights, action, resourceType, resource);
    } else {
      var r, s :| r in rights && s in rights && Matching(r.key, resourceType, resource)
                  && Matching(s.key, resourceType, resource) && Grants(r.flags, action) != Grants(s.flags, action);
      DisagreeingRowsAreNot(rights, r, s, action, resourceType, resource);
    }
  }

  /** What Can answers may depend on the order in which the database returns the rows exactly for a
      principal who is not an administrator, in open mode, with matching rows that disagree. */
  lemma CanIsWellDefinedExactlyWhen(admin: bool, rights: seq<Right>, mode: string, action: string,
                                    resourceType: string, resource: string)
    ensures (forall order: seq<Right> | multiset(order) == multiset(rights) ::
               Can(admin, order, mode, action, resourceType, resource) == Can(admin, rights, mode, action, resourceType, resource))
            <==> admin || mode != "open" || Agree(rights, action, resourceType, resource)
  {
    OpenIgnoresOrderExactlyWhenRowsAgree(rights, action, resourceType, resource);
    forall order: seq<Right> | multiset(order) == multiset(rights)
      ensures CheckRights(order, action, resourceType, resource) == CheckRights(rights, action, resourceType, resource)
    {
      assert forall r :: r in order ==> r in multiset(order) && r in multiset(rights);
      ExplicitIsMonotone(order, rights, action, resourceType, resource);
    }
    if !admin && mode == "open" && !OrderFree(rights, action, resourceType, resource) {
      var order: seq<Right> :| multiset(order) == multiset(rights)
                  && CanOpen(order, action, resourceType, resource) != CanOpen(rights, action, resourceType, resource);
      assert Can(admin, order, mode, action, resourceType, resource) != Can(admin, rights, mode, action, resourceType, resource);
    }
  }

  // ── The levels of the web forms ───────────────────────────────────────────────────

  function PermLevelToFlags(level: string): Flags {
    match level
    case "delete" => Flags(true, true, true, true)
    case "update" => Flags(true, true, true, false)
    case "create" => Flags(true, true, false, false)
    case "read" => Flags(false, true, false, false)
    case _ => Flags(false, false, false, false)
  }

  function PermLevel(f: Flags): string {
    if f.delete then "Delete"
    else if f.update then "Update"
    else if f.create then "Create"
    else if f.read then "Read"
    else "None"
  }

  // What a displayed level claims: "Each level implies all lower levels".
  function Claimed(shown: string): Flags {
    match shown
    case "Delete" => Flags(true, true, true, true)
    case "Update" => Flags(true, true, true, false)
    case "Create" => Flags(true, true, false, false)
    case "Read" => Flags(false, true, false, false)
    case _ => Flags(false, false, false, false)
  }

  /** Each level includes the lower ones. */
  predicate Hierarchical(f: Flags) {
    (f.delete ==> f.update) && (f.update ==> f.create) && (f.create ==> f.read)
  }

  /** The level displayed for a row claims exactly the flags of the row if and only if they form a
      level; otherwise it claims more than the row grants. */
  lemma DisplayedLevelIsTrueExactlyWhenHierarchical(f: Flags)
    ensures Claimed(PermLevel(f)) == f <==> Hierarchical(f)
    ensures forall action :: Grants(f, action) ==> Grants(Claimed(PermLevel(f)), action)
  {
  }

  /** Whatever the form sends, what is stored is a level and is displayed as what it is. */
  lemma StoredLevelIsDisplayed(level: string)
    ensures Claimed(PermLevel(PermLevelToFlags(level))) == PermLevelToFlags(level)
    ensures level == "read" ==> PermLevel(PermLevelToFlags(level)) == "Read"
    ensures level == "create" ==> PermLevel(PermLevelToFlags(level)) == "Create"
    ensures level == "update" ==> PermLevel(PermLevelToFlags(level)) == "Update"
    ensures level == "delete" ==> PermLevel(PermLevelToFlags(level)) == "Delete"
    ensures level !in {"read", "create", "update", "delete"} ==> PermLevel(PermLevelToFlags(level)) == "None"
  {
  }

  /** The actions that a level of the forms permits. */
  function Permitted(level: string): set<string> {
    match level
    case "read" => {"read"}
    case "create" => {"create", "read"}
    case "update" => {"create", "read", "update"}
    case "delete" => {"create", "read", "update", "delete"}
    case _ => {}
  }

  /** A user whose only row is about the resource, or about all of its type, may do in either mode
      exactly what the level stored there permits, and nothing for any other level. */
  lemma OneRowPermitsItsLevel(level: string, k: Key, mode: string, action: string, resource: string)
    requires k.resource == resource || k.resource == "*"
    ensures Can(false, [Right(k, PermLevelToFlags(level))], mode, action, k.resourceType, resource) <==> action in Permitted(level)
  {
    OneRowPermitsItsFlags(k, PermLevelToFlags(level), mode, action, resource);
  }

  lemma SingleRow(r: Right, action: string, resourceType: string, resource: string)
    ensures CheckRights([r], action, resourceType, resource) <==> Granting(r, action, resourceType, resource)
    ensures CanOpen([r], action, resourceType, resource)
            <==> (Matching(r.key, resourceType, resource) ==> Grants(r.flags, action))
  {
    var rest := [r][1..];
    assert rest == [];
    assert !CheckRights(rest, action, resourceType, resource) && CanOpen(rest, action, resourceType, resource);
  }

  /** Flag by flag, for a row with any flags. */
  lemma OneRowPermitsItsFlags(k: Key, f: Flags, mode: string, action: string, resource: string)
    requires k.resource == resource || k.resource == "*"
    ensures Can(false, [Right(k, f)], mode, action, k.resourceType, resource)
            <==> (action == "create" && f.create) || (action == "read" && f.read)
                 || (action == "update" && f.update) || (action == "delete" && f.delete)
  {
    SingleRow(Right(k, f), action, k.resourceType, resource);
  }

  /** Open mode: the first row about the resource decides, flag by flag. */
  lemma {:induction false} OpenIsTheFirstMatchingRow(rights: seq<Right>, i: nat, action: string, resourceType: string,
                                                     resource: string)
    requires i < |rights| && rights[i].key.resourceType == resourceType
    requires rights[i].key.resource == resource || rights[i].key.resource == "*"
    requires forall j | 0 <= j < i :: rights[j].key.resourceType != resourceType
                                      || (rights[j].key.resource != resource && rights[j].key.resource != "*")
    ensures Can(false, rights, "open", action, resourceType, resource)
            <==> (action == "create" && rights[i].flags.create) || (action == "read" && rights[i].flags.read)
                 || (action == "update" && rights[i].flags.update) || (action == "delete" && rights[i].flags.delete)
  {
    if i > 0 {
      OpenIsTheFirstMatchingRow(rights[1..], i - 1, action, resourceType, resource);
    }
  }

  /** A row about another resource, or another type, decides nothing: explicit mode says no and open
      mode yes. */
  lemma OtherRowsDecideNothing(r: Right, mode: string, action: string, resourceType: string, resource: string)
    requires r.key.resourceType != resourceType || (r.key.resource != resource && r.key.resource != "*")
    ensures Can(false, [r], mode, action, resourceType, resource) <==> mode == "open"
    ensures Can(false, [], mode, action, resourceType, resource) <==> mode == "open"
  {
    SingleRow(r, action, resourceType, resource);
  }

  /** An administrator may do everything, whatever the rows and the mode. */
  lemma AdministratorsMayDoEverything(rights: seq<Right>, mode: string, action: string, resourceType: string, resource: string)
    ensures Can(true, rights, mode, action, resourceType, resource)
  {
  }

  // ── The rights table ──────────────────────────────────────────────────────────────

  // The CHECK constraints: the PostgreSQL migrations never widened principal_type.
  predicate Allowed(d: Dialect, k: Key) {
    (k.principalType == "user" || k.principalType == "group" || (d.SQLite? && k.principalType == "apikey"))
    && (k.resourceType == "project" || k.resourceType == "bucket" || k.resourceType == "document")
  }

  /** The rows of a user: the user's own and those of the user's groups. */
  predicate Concerns(k: Key, user: string, members: set<(string, string)>) {
    (k.principalType == "user" && k.principal == user)
    || (k.principalType == "group" && (user, k.principal) in members)
  }

  function UserRows(rows: map<Key, Flags>, user: string, members: set<(string, string)>): set<Right> {
    set k | k in rows && Concerns(k, user, members) :: Right(k, rows[k])
  }

  // INSERT ... ON CONFLICT DO UPDATE, as one statement.
  function Upsert(d: Dialect, rows: map<Key, Flags>, k: Key, f: Flags, end: Outcome): map<Key, Flags> {
    if Allowed(d, k) && end.Applied() then rows[k := f] else rows
  }

  class AuthStore {
    const backend: Dialect
    var rows: map<Key, Flags>
    var members: set<(string, string)>

    constructor (backend: Dialect)
      ensures this.backend == backend && rows == map[] && members == {}
    {
      this.backend := backend;
      rows := map[];
      members := {};
    }

    method UpsertRight(k: Key, f: Flags, end: Outcome) returns (ok: bool)
      modifies this`rows
      ensures rows == Upsert(backend, old(rows), k, f, end)
      ensures ok ==> k in rows && rows[k] == f
      ensures ok <==> Allowed(backend, k) && end.Ok()
      ensures end.Ok() && k.principalType in {"user", "group"} && k.resourceType in {"project", "bucket", "document"} ==> ok
      ensures end.Ok() && k.principalType == "apikey" && k.resourceType in {"project", "bucket", "document"}
              ==> (ok <==> backend.SQLite?)
      ensures ok ==> k.principalType in {"user", "group", "apikey"} && k.resourceType in {"project", "bucket", "document"}
      ensures forall o | o != k :: (o in rows <==> o in old(rows)) && (o in rows ==> rows[o] == old(rows)[o])
    {
      ok := false;
      if Allowed(backend, k) {
        if end.Applied() {
          rows := rows[k := f];
        }
        ok := end.Ok();
      }
    }

    method DeleteRight(k: Key, end: Outcome) returns (ok: bool)
      modifies this`rows
      ensures ok <==> k in old(rows) && end.Ok()
      ensures rows == if end.Applied() then old(rows) - {k} else old(rows)
    {
      ok := end.Ok() && k in rows;
      if end.Applied() {
        rows := rows - {k};
      }
    }

    /** The rows come in whatever order the database likes, each once. */
    method GetUserRights(user: string) returns (rights: seq<Right>)
      ensures multiset(rights) == multiset(UserRows(rows, user, members))
      ensures forall r | r in rights :: r.key in rows && rows[r.key] == r.flags
      ensures forall r | r in rights ::
                (r.key.principalType == "user" && r.key.principal == user)
                || (r.key.principalType == "group" && (user, r.key.principal) in members)
      ensures forall k | k in rows && ((k.principalType == "user" && k.principal == user)
                                       || (k.principalType == "group" && (user, k.principal) in members)) ::
                Right(k, rows[k]) in rights
    {
      var left := UserRows(rows, user, members);
      ghost var scanned: set<Right> := {};
      rights := [];
      while left != {}
        invariant multiset(rights) == multiset(scanned)
        invariant UserRows(rows, user, members) == scanned + left && scanned !! left
        decreases left
      {
        var r :| r in left;
        rights := rights + [r];
        scanned := scanned + {r};
        left := left - {r};
      }
      assert scanned + left == scanned;
      forall r
        ensures r in rights <==> r in UserRows(rows, user, members)
      {
        assert r in rights <==> r in multiset(rights);
      }
    }
  }

  /** What explicit mode decides for a user, read off the tables: some row of the user or of one of
      the user's groups names the resource or `*` and grants the action. */
  lemma ExplicitReadsTheTable(rights: seq<Right>, rows: map<Key, Flags>, user: string, members: set<(string, string)>,
                              action: string, resourceType: string, resource: string)
    requires multiset(rights) == multiset(UserRows(rows, user, members))
    ensures CheckRights(rights, action, resourceType, resource)
            <==> exists k :: k in rows && Concerns(k, user, members) && Granting(Right(k, rows[k]), action, resourceType, resource)
    ensures CheckRights(rights, action, resourceType, resource)
            <==> exists k :: k in rows
                   && ((k.principalType == "user" && k.principal == user)
                       || (k.principalType == "group" && (user, k.principal) in members))
                   && k.resourceType == resourceType && (k.resource == resource || k.resource == "*")
                   && ((action == "create" && rows[k].create) || (action == "read" && rows[k].read)
                       || (action == "update" && rows[k].update) || (action == "delete" && rows[k].delete))
  {
    ExplicitNeedsOneGrant(rights, action, resourceType, resource);
    forall r
      ensures r in rights <==> r in UserRows(rows, user, members)
    {
      assert r in rights <==> r in multiset(rights);
    }
    if k :| k in rows && Concerns(k, user, members) && Granting(Right(k, rows[k]), action, resourceType, resource) {
      assert Right(k, rows[k]) in rights;
    }
    forall k | k in rows
      ensures Granting(Right(k, rows[k]), action, resourceType, resource)
              <==> k.resourceType == resourceType && (k.resource == resource || k.resource == "*")
                   && ((action == "create" && rows[k].create) || (action == "read" && rows[k].read)
                       || (action == "update" && rows[k].update) || (action == "delete" && rows[k].delete))
    {
    }
  }
}
