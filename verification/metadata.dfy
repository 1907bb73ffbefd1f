/** Tags and custom properties of a document: the transactions of internal/repo/store.go and the
    replace handlers of internal/api/tags.go and internal/api/properties.go. */
module Metadata {
  import opened Common
  import opened Like

  /** How a transaction goes: whether it can be begun, whether its i-th statement succeeds, and how
      its COMMIT ends. Leaving before COMMIT rolls everything back. */
  datatype Transaction = Transaction(begun: bool, runs: nat -> bool, commit: Outcome) {
    predicate Reaches(statements: nat) {
      begun && forall i | 0 <= i < statements :: runs(i)
    }

    // The effect of a transaction of that many statements is kept.
    predicate Kept(statements: nat) {
      Reaches(statements) && commit.Applied()
    }
  }

  type Properties = map<string, string>

  // What `DELETE ... WHERE key NOT LIKE 'sys.%'` leaves.
  function Reserved(d: Dialect, m: Properties): Properties {
    map k | k in m && Matches(d, "sys.%", k) :: m[k]
  }

  // strings.HasPrefix(k, "sys.")
  predicate IsSystem(k: string) {
    "sys." <= k
  }

  // The reserved keys as the handlers and the documentation understand them.
  function System(m: Properties): Properties {
    map k | k in m && IsSystem(k) :: m[k]
  }

  function Custom(m: Properties): Properties {
    map k | k in m && !IsSystem(k) :: m[k]
  }

  // start after the upserts of m's pairs other than those of `left`.
  function Upserted(start: Properties, m: Properties, left: set<string>): Properties {
    map k | k in start.Keys + (m.Keys - left) :: if k in m && k !in left then m[k] else start[k]
  }

  lemma UpsertedNone(start: Properties, m: Properties)
    ensures Upserted(start, m, m.Keys) == start
  {
  }

  lemma UpsertedAll(start: Properties, m: Properties)
    ensures Upserted(start, m, {}) == start + m
  {
  }

  lemma UpsertedGrows(start: Properties, m: Properties, left: set<string>, k: string)
    requires k in m && k in left
    ensures Upserted(start, m, left)[k := m[k]] == Upserted(start, m, left - {k})
  {
  }

  function NonEmpty(tags: seq<string>, n: nat): nat
    requires n <= |tags|
  {
    if n == 0 then 0 else NonEmpty(tags, n - 1) + if tags[n - 1] == "" then 0 else 1
  }

  // The loop of upserts inside a transaction of which `done` statements have succeeded.
  method UpsertEach(start: Properties, props: Properties, tx: Transaction, done: nat)
    returns (working: Properties, reached: bool)
    requires tx.Reaches(done)
    ensures reached <==> tx.Reaches(done + |props|)
    ensures reached ==> working == start + props
  {
    working := start;
    var left := props.Keys;
    var statements: nat := done;
    ghost var total := done + |props|;
    assert |props| == |left|;
    UpsertedNone(start, props);
    while left != {}
      invariant left <= props.Keys && statements + |left| == total && tx.Reaches(statements)
      invariant left <= props.Keys && working == Upserted(start, props, left)
      decreases left
    {
      var k :| k in left;
      assert |left - {k}| == |left| - 1;
      if !tx.runs(statements) {
        assert !tx.Reaches(total);
        return working, false;
      }
      UpsertedGrows(start, props, left, k);
      working := working[k := props[k]];
      left := left - {k};
      statements := statements + 1;
    }
    UpsertedAll(start, props);
    reached := true;
  }

  predicate IsLeast(s: set<string>, rank: string -> real, t: string) {
    t in s && forall u | u in s :: rank(t) <= rank(u)
  }

  lemma {:induction false} LeastExists(s: set<string>, rank: string -> real) returns (t: string)
    requires s != {}
    ensures IsLeast(s, rank, t)
  {
    t :| t in s;
    var rest := s - {t};
    assert s == rest + {t};
    if rest != {} {
      var u := LeastExists(rest, rank);
      if rank(u) < rank(t) {
        t := u;
      }
    }
  }

  // ORDER BY tag, in the collation of the database
  predicate InOrder(listing: seq<string>, rank: string -> real) {
    forall i, j | 0 <= i < j < |listing| :: rank(listing[i]) <= rank(listing[j])
  }

  predicate AllBefore(listing: seq<string>, s: set<string>, rank: string -> real) {
    forall i, t | 0 <= i < |listing| && t in s :: rank(listing[i]) <= rank(t)
  }

  lemma ListLeast(listing: seq<string>, left: set<string>, rank: string -> real, t: string)
    requires InOrder(listing, rank) && AllBefore(listing, left, rank) && IsLeast(left, rank, t)
    ensures InOrder(listing + [t], rank) && AllBefore(listing + [t], left - {t}, rank)
  {
  }

  // How many submitted tags are more than space.
  function NonBlank(tags: seq<string>, n: nat): nat
    requires n <= |tags|
  {
    if n == 0 then 0 else NonBlank(tags, n - 1) + if TrimSpace(tags[n - 1]) == "" then 0 else 1
  }

  lemma {:induction false} NoneEmpty(tags: seq<string>, n: nat)
    requires n <= |tags| && "" !in tags
    ensures NonEmpty(tags, n) == n
  {
    if n > 0 {
      NoneEmpty(tags, n - 1);
    }
  }

  class MetadataStore {
    const backend: Dialect
    var tags: map<string, set<string>>
    var properties: map<string, Properties>

    constructor (backend: Dialect)
      ensures this.backend == backend && tags == map[] && properties == map[]
    {
      this.backend := backend;
      tags := map[];
      properties := map[];
    }

    function TagsOf(doc: string): set<string>
      reads this`tags
    {
      if doc in tags then tags[doc] else {}
    }

    function PropertiesOf(doc: string): Properties
      reads this`properties
    {
      if doc in properties then properties[doc] else map[]
    }

    /** All or nothing, whichever statement fails; repeated and empty tags count for nothing. */
    method SetDocumentTags(doc: string, list: seq<string>, tx: Transaction) returns (ok: bool)
      modifies this`tags
      ensures tags == if tx.Kept(1 + NonEmpty(list, |list|)) then old(tags)[doc := set t | t in list && t != ""] else old(tags)
      ensures ok <==> tx.Reaches(1 + NonEmpty(list, |list|)) && tx.commit.Ok()
    {
      ok := false;
      if !tx.begun || !tx.runs(0) {
        return;
      }
      var working: set<string> := {};
      var statements := 1;
      for i := 0 to |list|
        invariant statements == 1 + NonEmpty(list, i) && tx.Reaches(statements)
        invariant working == set t | t in list[..i] && t != ""
        invariant tags == old(tags) && !ok
      {
        NonEmptyGrows(list, i);
        assert list[..i + 1] == list[..i] + [list[i]];
        if list[i] != "" {
          if !tx.runs(statements) {
            return;
          }
          working := working + {list[i]};
          statements := statements + 1;
        }
      }
      assert list[..|list|] == list;
      if tx.commit.Applied() {
        tags := tags[doc := working];
      }
      ok := tx.commit.Ok();
    }

    /** The map is walked in any order and the outcome is the same: the reserved old keys and the
        new properties, or the old state if anything fails. */
    method SetDocumentProperties(doc: string, props: Properties, tx: Transaction) returns (ok: bool)
      modifies this`properties
      ensures properties == if tx.Kept(1 + |props|)
                            then old(properties)[doc := Reserved(backend, old(PropertiesOf(doc))) + props]
                            else old(properties)
      ensures ok <==> tx.Reaches(1 + |props|) && tx.commit.Ok()
    {
      ok := false;
      if !tx.begun || !tx.runs(0) {
        return;
      }
      var working, reached := UpsertEach(Reserved(backend, PropertiesOf(doc)), props, tx, 1);
      if reached {
        if tx.commit.Applied() {
          properties := properties[doc := working];
        }
        ok := tx.commit.Ok();
      }
    }

    /** An upsert of every pair, touching nothing else, or nothing at all. */
    method MergeDocumentProperties(doc: string, props: Properties, tx: Transaction) returns (ok: bool)
      modifies this`properties
      ensures properties == if props != map[] && tx.Kept(|props|) then old(properties)[doc := old(PropertiesOf(doc)) + props]
                            else old(properties)
      ensures ok <==> props == map[] || (tx.Reaches(|props|) && tx.commit.Ok())
    {
      ok := false;
      if props == map[] {
        return true;
      }
      if !tx.begun {
        return;
      }
      var working, reached := UpsertEach(PropertiesOf(doc), props, tx, 0);
      if reached {
        if tx.commit.Applied() {
          properties := properties[doc := working];
        }
        ok := tx.commit.Ok();
      }
    }

    /** Each tag once, in the order of the database's collation (`rank`). */
    method ListDocumentTags(doc: string, rank: string -> real) returns (listing: seq<string>)
      ensures multiset(listing) == multiset(TagsOf(doc)) && InOrder(listing, rank)
    {
      var left := TagsOf(doc);
      ghost var listed: set<string> := {};
      listing := [];
      while left != {}
        invariant multiset(listing) == multiset(listed)
        invariant TagsOf(doc) == listed + left && listed !! left
        invariant InOrder(listing, rank) && AllBefore(listing, left, rank)
        decreases left
      {
        ghost var least := LeastExists(left, rank);
        var t :| IsLeast(left, rank, t);
        ListLeast(listing, left, rank, t);
        listing := listing + [t];
        listed := listed + {t};
        left := left - {t};
      }
      assert listed + left == listed;
    }

    // The loop that trims the submitted tags and drops the empty ones.
    static method Clean(list: seq<string>) returns (clean: seq<string>)
      ensures (set t | t in clean && t != "") == CleanTags(list)
      ensures "" !in clean && |clean| == NonBlank(list, |list|)
    {
      clean := [];
      for i := 0 to |list|
        invariant "" !in clean && |clean| == NonBlank(list, i)
        invariant (set t | t in clean && t != "") == CleanTags(list[..i])
      {
        assert list[..i + 1] == list[..i] + [list[i]];
        CleanTagsGrow(list[..i], list[i]);
        var t := TrimSpace(list[i]);
        ghost var before := clean;
        if t != "" {
          clean := clean + [t];
          assert (set u | u in clean && u != "") == (set u | u in before && u != "") + {t};
        }
      }
      assert list[..|list|] == list;
    }

    /** PUT .../tags. `locked` is whether the document's lock was obtained, no body is a malformed
        one. The transaction has one statement for the deletion and one for each submitted tag that is
        not blank; the tags change exactly when all of it is kept, and the answer is 200 exactly when,
        besides, its COMMIT and the read-back succeed. */
    method ReplaceTags(doc: string, locked: bool, body: Option<seq<string>>, tx: Transaction, readBack: bool,
                       rank: string -> real) returns (status: nat, listing: seq<string>)
      modifies this`tags
      ensures status == 200 ==> multiset(listing) == multiset(TagsOf(doc)) && InOrder(listing, rank)
      ensures status == 200 <==> locked && body.Some? && tx.Reaches(1 + NonBlank(body.value, |body.value|))
                                 && tx.commit.Ok() && readBack
      ensures TagsOf(doc) == if locked && body.Some? && tx.Kept(1 + NonBlank(body.value, |body.value|))
                             then CleanTags(body.value) else old(TagsOf(doc))
      ensures status in {200, 400, 500, 503}
      ensures status == 503 <==> !locked
      ensures status == 400 <==> locked && body.None?
      ensures status in {400, 503} ==> TagsOf(doc) == old(TagsOf(doc))
      ensures forall other | other != doc :: TagsOf(other) == old(TagsOf(other))
    {
      if !locked {
        return 503, [];
      }
      if body.None? {
        return 400, [];
      }
      var clean := Clean(body.value);
      NoneEmpty(clean, |clean|);
      var ok := SetDocumentTags(doc, clean, tx);
      if !ok || !readBack {
        return 500, [];
      }
      listing := ListDocumentTags(doc, rank);
      status := 200;
    }

    // The loop that strips the reserved keys.
    static method WithoutReserved(body: Properties) returns (filtered: Properties)
      ensures filtered == Custom(body)
    {
      filtered := map[];
      var left := body.Keys;
      while left != {}
        invariant left <= body.Keys
        invariant forall k :: k in filtered <==> k in body.Keys - left && !IsSystem(k)
        invariant forall k | k in filtered :: filtered[k] == body[k]
        decreases left
      {
        var k :| k in left;
        if !IsSystem(k) {
          filtered := filtered[k := body[k]];
        }
        left := left - {k};
      }
      assert filtered == Custom(body);
    }

    /** PUT .../properties: one statement for the deletion and one for each submitted key that is not
        reserved. */
    method ReplaceProperties(doc: string, locked: bool, body: Option<Properties>, tx: Transaction, readBack: bool)
      returns (status: nat)
      modifies this`properties
      ensures status == 200 <==> locked && body.Some? && tx.Reaches(1 + |Custom(body.value)|) && tx.commit.Ok() && readBack
      ensures PropertiesOf(doc) == if locked && body.Some? && tx.Kept(1 + |Custom(body.value)|)
                                   then Reserved(backend, old(PropertiesOf(doc))) + Custom(body.value)
                                   else old(PropertiesOf(doc))
      ensures status in {200, 400, 500, 503}
      ensures status == 503 <==> !locked
      ensures status == 400 <==> locked && body.None?
      ensures status in {400, 503} ==> PropertiesOf(doc) == old(PropertiesOf(doc))
      ensures forall other | other != doc :: PropertiesOf(other) == old(PropertiesOf(other))
    {
      if !locked {
        return 503;
      }
      if body.None? {
        return 400;
      }
      var filtered := WithoutReserved(body.value);
      var ok := SetDocumentProperties(doc, filtered, tx);
      status := if ok && readBack then 200 else 500;
    }

    /** PUT .../properties/{key}: reserved keys are refused, anything else is one upsert. */
    method SetProperty(doc: string, key: string, value: string, end: Outcome) returns (status: nat)
      modifies this`properties
      ensures PropertiesOf(doc) == After(backend, old(PropertiesOf(doc)), Set(key, value, end.Applied()))
      ensures forall other | other != doc :: PropertiesOf(other) == old(PropertiesOf(other))
      ensures status == if "sys." <= key then 403 else if end.Ok() then 200 else 500
      ensures PropertiesOf(doc) == if "sys." <= key || !end.Applied() then old(PropertiesOf(doc))
                                   else old(PropertiesOf(doc))[key := value]
    {
      if IsSystem(key) {
        return 403;
      }
      if end.Applied() {
        properties := properties[doc := PropertiesOf(doc)[key := value]];
      }
      status := if end.Ok() then 200 else 500;
    }

    /** DELETE .../properties/{key} */
    method DeleteProperty(doc: string, key: string, end: Outcome) returns (status: nat)
      modifies this`properties
      ensures PropertiesOf(doc) == After(backend, old(PropertiesOf(doc)), Delete(key, end.Applied()))
      ensures forall other | other != doc :: PropertiesOf(other) == old(PropertiesOf(other))
      ensures status == if "sys." <= key then 403 else if end.Ok() then 204 else 500
      ensures PropertiesOf(doc) == if "sys." <= key || !end.Applied() then old(PropertiesOf(doc))
                                   else old(PropertiesOf(doc)) - {key}
    {
      if IsSystem(key) {
        return 403;
      }
      if end.Applied() {
        properties := properties[doc := PropertiesOf(doc) - {key}];
      }
      status := if end.Ok() then 204 else 500;
    }

    /** The web form: the key is trimmed, an empty one refused, a reserved one not. */
    method SetPropertyWeb(doc: string, key: string, value: string, end: Outcome) returns (status: nat)
      modifies this`properties
      ensures PropertiesOf(doc) == After(backend, old(PropertiesOf(doc)), WebSet(key, value, end.Applied()))
      ensures forall other | other != doc :: PropertiesOf(other) == old(PropertiesOf(other))
      ensures status == if TrimSpace(key) == "" then 400 else if end.Ok() then 200 else 500
      ensures PropertiesOf(doc) == if TrimSpace(key) == "" || !end.Applied() then old(PropertiesOf(doc))
                                   else old(PropertiesOf(doc))[TrimSpace(key) := value]
    {
      var trimmed := TrimSpace(key);
      if trimmed == "" {
        return 400;
      }
      if end.Applied() {
        properties := properties[doc := PropertiesOf(doc)[trimmed := value]];
      }
      status := if end.Ok() then 200 else 500;
    }

    method DeletePropertyWeb(doc: string, key: string, end: Outcome) returns (status: nat)
      modifies this`properties
      ensures PropertiesOf(doc) == After(backend, old(PropertiesOf(doc)), WebDelete(key, end.Applied()))
      ensures PropertiesOf(doc) == if end.Applied() then old(PropertiesOf(doc)) - {key} else old(PropertiesOf(doc))
      ensures forall other | other != doc :: PropertiesOf(other) == old(PropertiesOf(other))
      ensures status == if end.Ok() then 200 else 500
    {
      if end.Applied() {
        properties := properties[doc := PropertiesOf(doc) - {key}];
      }
      status := if end.Ok() then 200 else 500;
    }
  }

  lemma {:induction false} NonEmptyGrows(tags: seq<string>, i: nat)
    requires i < |tags|
    ensures NonEmpty(tags, i + 1) == NonEmpty(tags, i) + if tags[i] == "" then 0 else 1
    ensures NonEmpty(tags, i + 1) <= NonEmpty(tags, |tags|)
    decreases |tags| - i
  {
    if i + 1 < |tags| {
      NonEmptyGrows(tags, i + 1);
    }
  }

  // ── Tags ──────────────────────────────────────────────────────────────────────────

  // unicode.IsSpace
  predicate IsSpace(c: char) {
    '\U{9}' <= c <= '\U{d}' || c == ' ' || c == '\U{85}' || c == '\U{a0}' || c == '\U{1680}' || '\U{2000}' <= c <= '\U{200a}'
    || c == '\U{2028}' || c == '\U{2029}' || c == '\U{202f}' || c == '\U{205f}' || c == '\U{3000}'
  }

  predicate AllSpace(s: string) {
    forall i | 0 <= i < |s| :: IsSpace(s[i])
  }

  /** The space that Go knows; letters, zero-width and format characters are none. */
  lemma SpaceCharacters()
    ensures IsSpace(' ') && IsSpace('\t') && IsSpace('\n') && IsSpace('\r') && IsSpace('\U{b}') && IsSpace('\U{c}')
    ensures IsSpace('\U{85}') && IsSpace('\U{a0}') && IsSpace('\U{1680}')
    ensures forall c: char | '\U{2000}' <= c <= '\U{200a}' :: IsSpace(c)
    ensures IsSpace('\U{2028}') && IsSpace('\U{2029}') && IsSpace('\U{202f}') && IsSpace('\U{205f}') && IsSpace('\U{3000}')
    ensures !IsSpace('\U{200b}') && !IsSpace('\U{180e}') && !IsSpace('\U{feff}')
    ensures forall c: char | '!' <= c <= '~' :: !IsSpace(c)
  {
  }

  function TrimSpace(s: string): string {
    if s == "" then ""
    else if IsSpace(s[0]) then TrimSpace(s[1..])
    else if IsSpace(s[|s| - 1]) then TrimSpace(s[..|s| - 1])
    else s
  }

  /** TrimSpace takes all the space off both ends and nothing else. */
  lemma {:induction false} TrimSpaceLeavesTheMiddle(a: string, r: string, b: string)
    requires AllSpace(a) && AllSpace(b)
    requires r != "" ==> !IsSpace(r[0]) && !IsSpace(r[|r| - 1])
    ensures TrimSpace(a + r + b) == r
    decreases |a| + |b|
  {
    var s := a + r + b;
    if a != "" {
      assert s[1..] == a[1..] + r + b && s[0] == a[0];
      TrimSpaceLeavesTheMiddle(a[1..], r, b);
    } else if b != "" && r == "" {
      assert s[1..] == a + r + b[1..] && s[0] == b[0];
      TrimSpaceLeavesTheMiddle(a, r, b[1..]);
    } else if b != "" {
      assert s[..|s| - 1] == a + r + b[..|b| - 1] && s[0] == r[0] && s[|s| - 1] == b[|b| - 1];
      TrimSpaceLeavesTheMiddle(a, r, b[..|b| - 1]);
    } else {
      assert s == r;
    }
  }

  /** The tags that a list of submitted strings stands for. */
  function CleanTags(list: seq<string>): set<string> {
    (set t | t in list :: TrimSpace(t)) - {""}
  }

  lemma AllSpaceGrows(c: char, s: string)
    requires IsSpace(c) && AllSpace(s)
    ensures AllSpace([c] + s) && AllSpace(s + [c])
  {
  }

  lemma {:induction false} TrimSpaceEnds(s: string)
    ensures var r := TrimSpace(s); r != "" ==> !IsSpace(r[0]) && !IsSpace(r[|r| - 1])
    decreases |s|
  {
    if s != "" && IsSpace(s[0]) {
      TrimSpaceEnds(s[1..]);
    } else if s != "" && IsSpace(s[|s| - 1]) {
      TrimSpaceEnds(s[..|s| - 1]);
    }
  }

  lemma {:induction false} TrimSpaceSplits(s: string) returns (a: string, b: string)
    ensures s == a + TrimSpace(s) + b && AllSpace(a) && AllSpace(b)
    decreases |s|
  {
    if s != "" && IsSpace(s[0]) {
      var a0;
      a0, b := TrimSpaceSplits(s[1..]);
      a := [s[0]] + a0;
      AllSpaceGrows(s[0], a0);
      Front(s, a0, TrimSpace(s), b);
    } else if s != "" && IsSpace(s[|s| - 1]) {
      var b0;
      a, b0 := TrimSpaceSplits(s[..|s| - 1]);
      b := b0 + [s[|s| - 1]];
      AllSpaceGrows(s[|s| - 1], b0);
      Back(s, a, TrimSpace(s), b0);
    } else {
      a, b := "", "";
    }
  }

  lemma Front(s: string, a: string, r: string, b: string)
    requires s != "" && s[1..] == a + r + b
    ensures s == [s[0]] + a + r + b
  {
    assert s == [s[0]] + s[1..];
  }

  lemma Back(s: string, a: string, r: string, b: string)
    requires s != "" && s[..|s| - 1] == a + r + b
    ensures s == a + r + (b + [s[|s| - 1]])
  {
    assert s == s[..|s| - 1] + [s[|s| - 1]];
  }

  /** A tag is stored exactly when it is not empty, has no space at its ends, and some submitted
      string is it between spaces. */
  lemma CleanTagsAreTheTrimmedOnes(list: seq<string>, t: string)
    ensures t in CleanTags(list)
            <==> t != "" && !IsSpace(t[0]) && !IsSpace(t[|t| - 1])
                 && exists a, b :: AllSpace(a) && AllSpace(b) && a + t + b in list
  {
    if t in CleanTags(list) {
      var s :| s in list && TrimSpace(s) == t;
      var a, b := TrimSpaceSplits(s);
      TrimSpaceEnds(s);
      assert a + t + b in list;
    }
    if a, b :| t != "" && !IsSpace(t[0]) && !IsSpace(t[|t| - 1]) && AllSpace(a) && AllSpace(b) && a + t + b in list {
      TrimSpaceLeavesTheMiddle(a, t, b);
    }
  }

  lemma CleanTagsGrow(list: seq<string>, t: string)
    ensures CleanTags(list + [t]) == CleanTags(list) + ({TrimSpace(t)} - {""})
  {
    assert forall u :: u in list + [t] <==> u in list || u == t;
  }

  // ── Properties ────────────────────────────────────────────────────────────────────

  lemma ReservedMeans(d: Dialect, k: string)
    ensures Matches(d, "sys.%", k) <==> SamePrefix(d, "sys.", k)
    ensures IsSystem(k) ==> Matches(d, "sys.%", k)
    ensures d.Postgres? && Matches(d, "sys.%", k) ==> IsSystem(k)
  {
    assert "sys." + "%" == "sys.%";
    PlainPrefix(d, "sys.", k);
  }

  /** PUT .../properties gives what it promises, the old `sys.` keys and the submitted properties
      without theirs, exactly when no old key outside `sys.` that is absent from the body is taken
      for a reserved one. SQLite's LIKE takes `SYS.x` for one, PostgreSQL's does not. */
  lemma ReplaceIsAsPromisedExactlyWhen(d: Dialect, m: Properties, body: Properties)
    ensures Reserved(d, m) + Custom(body) == System(m) + Custom(body)
            <==> forall k | k in m && !IsSystem(k) && k !in body :: !SamePrefix(d, "sys.", k)
    ensures d.Postgres? ==> Reserved(d, m) == System(m)
  {
    forall k
      ensures Matches(d, "sys.%", k) <==> SamePrefix(d, "sys.", k)
      ensures IsSystem(k) ==> Matches(d, "sys.%", k)
      ensures d.Postgres? && Matches(d, "sys.%", k) ==> IsSystem(k)
    {
      ReservedMeans(d, k);
    }
    var stored := Reserved(d, m) + Custom(body);
    var promised := System(m) + Custom(body);
    if forall k | k in m && !IsSystem(k) && k !in body :: !SamePrefix(d, "sys.", k) {
      assert stored == promised;
    } else {
      var k :| k in m && !IsSystem(k) && k !in body && SamePrefix(d, "sys.", k);
      assert k in stored && k !in promised;
    }
  }

  /** On SQLite an old property `SYS.x` survives a replacement by nothing. */
  lemma OldKeyInCapitalsSurvives()
    ensures Reserved(SQLite, map["SYS.x" := "1"]) + Custom(map[]) == map["SYS.x" := "1"]
    ensures System(map["SYS.x" := "1"]) + Custom(map[]) == map[]
  {
    var k := "SYS.x";
    ReservedMeans(SQLite, k);
    assert SamePrefix(SQLite, "sys.", k);
    assert k[0] == 'S' && !IsSystem(k);
  }

  /** One request that touches single properties or all of them, with whether its statements took
      effect: three of the API and two of the web interface, which do not look at the prefix. */
  datatype Call =
    | Replace(body: Properties, applied: bool)
    | Set(key: string, value: string, applied: bool)
    | Delete(key: string, applied: bool)
    | WebSet(key: string, value: string, applied: bool)
    | WebDelete(key: string, applied: bool)
  {
    predicate FromWeb() {
      WebSet? || WebDelete?
    }
  }

  function After(d: Dialect, m: Properties, call: Call): Properties {
    match call
    case Replace(body, applied) => if applied then Reserved(d, m) + Custom(body) else m
    case Set(k, v, applied) => if applied && !IsSystem(k) then m[k := v] else m
    case Delete(k, applied) => if applied && !IsSystem(k) then m - {k} else m
    case WebSet(k, v, applied) => if applied && TrimSpace(k) != "" then m[TrimSpace(k) := v] else m
    case WebDelete(k, applied) => if applied then m - {k} else m
  }

  function AfterAll(d: Dialect, m: Properties, calls: seq<Call>): Properties
    decreases calls
  {
    if calls == [] then m else AfterAll(d, After(d, m, calls[0]), calls[1..])
  }

  /** A web request for a reserved key that is not what the document has anyway. */
  predicate Breaks(m: Properties, call: Call) {
    match call
    case WebSet(k, v, applied) =>
      var key := TrimSpace(k);
      applied && IsSystem(key) && !(key in m && m[key] == v)
    case WebDelete(k, applied) => applied && IsSystem(k) && k in m
    case _ => false
  }

  /** A request leaves the `sys.` keys alone exactly when it does not break the reservation. */
  lemma CallKeepsSystemKeysExactlyWhen(d: Dialect, m: Properties, call: Call)
    ensures System(After(d, m, call)) == System(m) <==> !Breaks(m, call)
  {
    forall k | IsSystem(k)
      ensures Matches(d, "sys.%", k)
    {
      ReservedMeans(d, k);
    }
    var after := After(d, m, call);
    if Breaks(m, call) {
      var key := if call.WebSet? then TrimSpace(call.key) else call.key;
      assert key in System(m) <==> key in m;
      assert key in System(after) <==> key in after;
    } else {
      assert System(after).Keys == System(m).Keys;
    }
  }

  predicate SomeBreaks(d: Dialect, m: Properties, calls: seq<Call>)
    decreases calls
  {
    calls != [] && (Breaks(m, calls[0]) || SomeBreaks(d, After(d, m, calls[0]), calls[1..]))
  }

  ghost predicate AlwaysSame(d: Dialect, m: Properties, calls: seq<Call>) {
    forall i | 0 <= i <= |calls| :: System(AfterAll(d, m, calls[..i])) == System(m)
  }

  lemma AlwaysSameStep(d: Dialect, m: Properties, calls: seq<Call>)
    requires calls != [] && System(After(d, m, calls[0])) == System(m)
    ensures AlwaysSame(d, m, calls) <==> AlwaysSame(d, After(d, m, calls[0]), calls[1..])
  {
    var m', rest := After(d, m, calls[0]), calls[1..];
    forall i | 0 <= i <= |rest|
      ensures AfterAll(d, m, calls[..i + 1]) == AfterAll(d, m', rest[..i])
    {
      assert calls[..i + 1][0] == calls[0] && calls[..i + 1][1..] == rest[..i];
    }
    if AlwaysSame(d, m', rest) {
      forall i | 0 <= i <= |calls|
        ensures System(AfterAll(d, m, calls[..i])) == System(m)
      {
        if i > 0 {
          assert AfterAll(d, m, calls[..(i - 1) + 1]) == AfterAll(d, m', rest[..i - 1]);
        }
      }
    }
  }

  /** Over any sequence of requests, the `sys.` keys of a document are at every moment what they were
      exactly when none of the requests is a web request that breaks the reservation. */
  lemma {:induction false} SystemKeysAreReadOnlyExactlyWhen(d: Dialect, m: Properties, calls: seq<Call>)
    ensures AlwaysSame(d, m, calls) <==> !SomeBreaks(d, m, calls)
    decreases calls
  {
    if calls == [] {
      assert calls[..0] == [];
    } else {
      CallKeepsSystemKeysExactlyWhen(d, m, calls[0]);
      if Breaks(m, calls[0]) {
        assert calls[..1] == [calls[0]];
        assert AfterAll(d, m, [calls[0]]) == After(d, m, calls[0]);
      } else {
        AlwaysSameStep(d, m, calls);
        SystemKeysAreReadOnlyExactlyWhen(d, After(d, m, calls[0]), calls[1..]);
      }
    }
  }

  /** So no sequence of API requests adds, changes or removes a `sys.` key, whichever of them fail. */
  lemma {:induction false} ApiKeepsSystemKeys(d: Dialect, m: Properties, calls: seq<Call>)
    requires forall i | 0 <= i < |calls| :: !calls[i].FromWeb()
    ensures System(AfterAll(d, m, calls)) == System(m)
    decreases calls
  {
    if calls != [] {
      CallKeepsSystemKeysExactlyWhen(d, m, calls[0]);
      ApiKeepsSystemKeys(d, After(d, m, calls[0]), calls[1..]);
    }
  }

  /** The web form writes `sys.x` and the web delete takes it away. */
  lemma WebWritesReservedKeys(d: Dialect)
    ensures AfterAll(d, map[], [WebSet("sys.x", "1", true)]) == map["sys.x" := "1"]
    ensures System(map["sys.x" := "1"]) == map["sys.x" := "1"]
    ensures AfterAll(d, map["sys.x" := "1"], [WebDelete("sys.x", true)]) == map[]
  {
    assert TrimSpace("sys.x") == "sys.x" && IsSystem("sys.x");
  }
}
