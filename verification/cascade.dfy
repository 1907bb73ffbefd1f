/** Copying a right down from a project or a bucket (internal/web/handlers.go): nested loops over
    the first page of each listing, with every error ignored. */
module Cascade {
  import opened Common
  import opened Like
  import opened Rights

  /** A live bucket of the project; listings are in ORDER BY name order. */
  datatype Bucket = Bucket(id: string, documents: seq<string>)

  const MAX_PAGE_LIMIT := 500

  // A listing that fails on the way hands over the rows it had scanned, and its error is dropped.
  function Page<T>(all: seq<T>, delivered: nat): seq<T> {
    var n := if delivered < MAX_PAGE_LIMIT then delivered else MAX_PAGE_LIMIT;
    if n < |all| then all[..n] else all
  }

  function DocumentTargets(base: Key, documents: seq<string>, n: nat): seq<Key>
    requires n <= |documents|
  {
    if n == 0 then [] else
      DocumentTargets(base, documents, n - 1) + [base.(resourceType := "document", resource := documents[n - 1])]
  }

  function BucketTargets(base: Key, b: Bucket, delivered: nat): seq<Key> {
    var documents := Page(b.documents, delivered);
    [base.(resourceType := "bucket", resource := b.id)] + DocumentTargets(base, documents, |documents|)
  }

  // delivered(0) is about the buckets and delivered(i + 1) about the documents of bucket i.
  function ProjectTargets(base: Key, buckets: seq<Bucket>, delivered: nat -> nat, n: nat): seq<Key>
    requires n <= |buckets|
  {
    if n == 0 then [] else
      ProjectTargets(base, buckets, delivered, n - 1) + BucketTargets(base, buckets[n - 1], delivered(n))
  }

  /** The rows after upserts of keys, the i-th of which ended as ends(i). */
  function UpsertAll(d: Dialect, rows: map<Key, Flags>, keys: seq<Key>, f: Flags, ends: nat -> Outcome): map<Key, Flags> {
    if keys == [] then rows else
      var last := |keys| - 1;
      Upsert(d, UpsertAll(d, rows, keys[..last], f, ends), keys[last], f, ends(last))
  }

  // The rows after cascadeProjectRight.
  function AfterCascade(d: Dialect, rows: map<Key, Flags>, base: Key, f: Flags, buckets: seq<Bucket>,
                        delivered: nat -> nat, ends: nat -> Outcome): map<Key, Flags> {
    var page := Page(buckets, delivered(0));
    UpsertAll(d, rows, ProjectTargets(base, page, delivered, |page|), f, ends)
  }

  lemma UpsertOneMore(d: Dialect, rows: map<Key, Flags>, keys: seq<Key>, k: Key, f: Flags, ends: nat -> Outcome)
    ensures UpsertAll(d, rows, keys + [k], f, ends) == Upsert(d, UpsertAll(d, rows, keys, f, ends), k, f, ends(|keys|))
  {
    assert (keys + [k])[..|keys|] == keys;
  }

  lemma Regroup<T>(a: seq<T>, b: seq<T>, c: seq<T>)
    ensures a + b + c == a + (b + c)
  {
  }

  lemma {:induction false} DocumentTargetsCount(base: Key, documents: seq<string>, n: nat)
    requires n <= |documents|
    ensures |DocumentTargets(base, documents, n)| == n
  {
    if n > 0 {
      DocumentTargetsCount(base, documents, n - 1);
    }
  }

  lemma NextDocument(d: Dialect, before: map<Key, Flags>, done: seq<Key>, base: Key, documents: seq<string>, i: nat,
                     f: Flags, ends: nat -> Outcome)
    requires i < |documents|
    ensures UpsertAll(d, before, done + DocumentTargets(base, documents, i + 1), f, ends)
            == Upsert(d, UpsertAll(d, before, done + DocumentTargets(base, documents, i), f, ends),
                      base.(resourceType := "document", resource := documents[i]), f, ends(|done| + i))
  {
    var k := base.(resourceType := "document", resource := documents[i]);
    var some := DocumentTargets(base, documents, i);
    DocumentTargetsCount(base, documents, i);
    Regroup(done, some, [k]);
    UpsertOneMore(d, before, done + some, k, f, ends);
  }

  /** The loop over the documents of one bucket. `done` is what was upserted before it. */
  method CascadeDocuments(auth: AuthStore, base: Key, f: Flags, documents: seq<string>, ends: nat -> Outcome,
                          ghost before: map<Key, Flags>, ghost done: seq<Key>, issued: nat)
    returns (total: nat)
    requires |done| == issued && auth.rows == UpsertAll(auth.backend, before, done, f, ends)
    modifies auth`rows
    ensures total == issued + |documents|
    ensures auth.rows == UpsertAll(auth.backend, before, done + DocumentTargets(base, documents, |documents|), f, ends)
  {
    total := issued;
    assert done + [] == done;
    for i := 0 to |documents|
      invariant total == issued + i
      invariant auth.rows == UpsertAll(auth.backend, before, done + DocumentTargets(base, documents, i), f, ends)
    {
      NextDocument(auth.backend, before, done, base, documents, i, f, ends);
      var _ := auth.UpsertRight(base.(resourceType := "document", resource := documents[i]), f, ends(total));
      total := total + 1;
    }
  }

  method CascadeBucketRight(auth: AuthStore, base: Key, f: Flags, documents: seq<string>, delivered: nat, ends: nat -> Outcome)
    modifies auth`rows
    ensures var page := Page(documents, delivered);
            auth.rows == UpsertAll(auth.backend, old(auth.rows), DocumentTargets(base, page, |page|), f, ends)
  {
    var page := Page(documents, delivered);
    var _ := CascadeDocuments(auth, base, f, page, ends, auth.rows, [], 0);
    assert [] + DocumentTargets(base, page, |page|) == DocumentTargets(base, page, |page|);
  }

  /** The body of the outer loop: the bucket's own row, then the rows of its documents. */
  method CascadeBucket(auth: AuthStore, base: Key, f: Flags, b: Bucket, delivered: nat, ends: nat -> Outcome,
                       ghost before: map<Key, Flags>, ghost done: seq<Key>, issued: nat)
    returns (total: nat)
    requires |done| == issued && auth.rows == UpsertAll(auth.backend, before, done, f, ends)
    modifies auth`rows
    ensures total == issued + |BucketTargets(base, b, delivered)|
    ensures auth.rows == UpsertAll(auth.backend, before, done + BucketTargets(base, b, delivered), f, ends)
  {
    var k := base.(resourceType := "bucket", resource := b.id);
    UpsertOneMore(auth.backend, before, done, k, f, ends);
    var _ := auth.UpsertRight(k, f, ends(issued));
    var documents := Page(b.documents, delivered);
    total := CascadeDocuments(auth, base, f, documents, ends, before, done + [k], issued + 1);
    DocumentTargetsCount(base, documents, |documents|);
    Regroup(done, [k], DocumentTargets(base, documents, |documents|));
  }

  /** The outer loop, over the buckets that were listed. */
  method CascadeBuckets(auth: AuthStore, base: Key, f: Flags, page: seq<Bucket>, delivered: nat -> nat, ends: nat -> Outcome)
    modifies auth`rows
    ensures auth.rows == UpsertAll(auth.backend, old(auth.rows), ProjectTargets(base, page, delivered, |page|), f, ends)
  {
    var issued := 0;
    ghost var before := auth.rows;
    ghost var done: seq<Key> := [];
    for i := 0 to |page|
      invariant issued == |done| && done == ProjectTargets(base, page, delivered, i)
      invariant auth.rows == UpsertAll(auth.backend, before, done, f, ends)
    {
      var b := page[i];
      issued := CascadeBucket(auth, base, f, b, delivered(i + 1), ends, before, done, issued);
      done := done + BucketTargets(base, b, delivered(i + 1));
    }
  }

  method CascadeProjectRight(auth: AuthStore, base: Key, f: Flags, buckets: seq<Bucket>, delivered: nat -> nat,
                             ends: nat -> Outcome)
    modifies auth`rows
    ensures auth.rows == AfterCascade(auth.backend, old(auth.rows), base, f, buckets, delivered, ends)
  {
    var page := Page(buckets, delivered(0));
    CascadeBuckets(auth, base, f, page, delivered, ends);
  }

  // ── What the loops amount to ──────────────────────────────────────────────────────

  /** An upsert of k was carried out. */
  predicate Landed(d: Dialect, keys: seq<Key>, ends: nat -> Outcome, k: Key) {
    Allowed(d, k) && exists i | 0 <= i < |keys| :: keys[i] == k && ends(i).Applied()
  }

  /** Whatever fails on the way, a row has exactly the flags handed down if an upsert of it landed,
      and is as it was otherwise. */
  lemma {:induction false} CascadeWritesWhatLanded(d: Dialect, rows: map<Key, Flags>, keys: seq<Key>, f: Flags,
                                                   ends: nat -> Outcome, k: Key)
    ensures var after := UpsertAll(d, rows, keys, f, ends);
            if Landed(d, keys, ends, k) then k in after && after[k] == f
            else (k in after <==> k in rows) && (k in rows ==> after[k] == rows[k])
  {
    if keys != [] {
      var last := |keys| - 1;
      var fewer := keys[..last];
      CascadeWritesWhatLanded(d, rows, fewer, f, ends, k);
      assert forall i | 0 <= i < last :: fewer[i] == keys[i];
      assert Landed(d, fewer, ends, k) ==> Landed(d, keys, ends, k) by {
        if Landed(d, fewer, ends, k) {
          var i :| 0 <= i < |fewer| && fewer[i] == k && ends(i).Applied();
          assert keys[i] == k;
        }
      }
    }
  }

  lemma {:induction false} DocumentTargetsAre(base: Key, documents: seq<string>, n: nat, k: Key)
    requires n <= |documents|
    ensures k in DocumentTargets(base, documents, n)
            <==> exists j | 0 <= j < n :: k == base.(resourceType := "document", resource := documents[j])
  {
    if n > 0 {
      DocumentTargetsAre(base, documents, n - 1, k);
    }
  }

  /** k is the row of the bucket, or of one of its documents that were listed. */
  predicate TargetOf(base: Key, b: Bucket, delivered: nat, k: Key) {
    var documents := Page(b.documents, delivered);
    k == base.(resourceType := "bucket", resource := b.id)
    || exists j | 0 <= j < |documents| :: k == base.(resourceType := "document", resource := documents[j])
  }

  lemma BucketTargetsAre(base: Key, b: Bucket, delivered: nat, k: Key)
    ensures k in BucketTargets(base, b, delivered) <==> TargetOf(base, b, delivered, k)
  {
    var documents := Page(b.documents, delivered);
    DocumentTargetsAre(base, documents, |documents|, k);
  }

  // k is a target of one of the first n buckets.
  predicate TargetOfSome(base: Key, buckets: seq<Bucket>, delivered: nat -> nat, n: nat, k: Key)
    requires n <= |buckets|
  {
    exists i | 0 <= i < n :: k in BucketTargets(base, buckets[i], delivered(i + 1))
  }

  lemma TargetOfOneMore(base: Key, buckets: seq<Bucket>, delivered: nat -> nat, n: nat, k: Key)
    requires 0 < n <= |buckets|
    ensures TargetOfSome(base, buckets, delivered, n, k)
            <==> TargetOfSome(base, buckets, delivered, n - 1, k) || k in BucketTargets(base, buckets[n - 1], delivered(n))
  {
    assert delivered(n - 1 + 1) == delivered(n);
  }

  lemma {:induction false} ProjectTargetsAre(base: Key, buckets: seq<Bucket>, delivered: nat -> nat, n: nat, k: Key)
    requires n <= |buckets|
    ensures k in ProjectTargets(base, buckets, delivered, n) <==> TargetOfSome(base, buckets, delivered, n, k)
  {
    if n > 0 {
      ProjectTargetsAre(base, buckets, delivered, n - 1, k);
      TargetOfOneMore(base, buckets, delivered, n, k);
    }
  }

  /** A row about one of the first 500 buckets, or one of the first 500 documents of such a bucket. */
  predicate Reached(base: Key, buckets: seq<Bucket>, k: Key) {
    exists i | 0 <= i < |buckets| && i < MAX_PAGE_LIMIT :: TargetOf(base, buckets[i], MAX_PAGE_LIMIT, k)
  }

  lemma ReachedRowsAreTheTargets(base: Key, buckets: seq<Bucket>, delivered: nat -> nat, k: Key)
    requires forall i :: delivered(i) >= MAX_PAGE_LIMIT
    ensures var page := Page(buckets, delivered(0));
            k in ProjectTargets(base, page, delivered, |page|) <==> Reached(base, buckets, k)
  {
    var page := Page(buckets, delivered(0));
    ProjectTargetsAre(base, page, delivered, |page|, k);
    forall i | 0 <= i < |page|
      ensures k in BucketTargets(base, page[i], delivered(i + 1)) <==> TargetOf(base, buckets[i], MAX_PAGE_LIMIT, k)
    {
      BucketTargetsAre(base, buckets[i], delivered(i + 1), k);
      assert Page(buckets[i].documents, delivered(i + 1)) == Page(buckets[i].documents, MAX_PAGE_LIMIT);
    }
  }

  /** With complete listings and successful upserts, exactly the reached rows get the flags of the
      project's right, and every other row is as it was. */
  lemma CascadeSetsExactlyTheReachedRows(d: Dialect, rows: map<Key, Flags>, base: Key, f: Flags, buckets: seq<Bucket>,
                                         delivered: nat -> nat, ends: nat -> Outcome, k: Key)
    requires Allowed(d, base)
    requires forall i :: delivered(i) >= MAX_PAGE_LIMIT
    requires forall i :: ends(i).Done?
    ensures var after := AfterCascade(d, rows, base, f, buckets, delivered, ends);
            if Reached(base, buckets, k) then k in after && after[k] == f
            else (k in after <==> k in rows) && (k in rows ==> after[k] == rows[k])
  {
    var page := Page(buckets, delivered(0));
    var keys := ProjectTargets(base, page, delivered, |page|);
    CascadeWritesWhatLanded(d, rows, keys, f, ends, k);
    ReachedRowsAreTheTargets(base, buckets, delivered, k);
    assert k in keys <==> exists i | 0 <= i < |keys| :: keys[i] == k && ends(i).Applied();
    assert Reached(base, buckets, k) ==> Allowed(d, k);
  }

  /** In explicit mode the cascade gives whoever holds the right, directly or through a group, every
      action of the base level on everything reached, and nothing there beyond what the base level
      and the other rows of that user grant. */
  lemma CascadeGrantsTheBaseLevel(d: Dialect, rows: map<Key, Flags>, base: Key, f: Flags, buckets: seq<Bucket>,
                                  delivered: nat -> nat, ends: nat -> Outcome, k: Key,
                                  user: string, members: set<(string, string)>, rights: seq<Right>, action: string)
    requires Allowed(d, base) && Concerns(base, user, members)
    requires forall i :: delivered(i) >= MAX_PAGE_LIMIT
    requires forall i :: ends(i).Done?
    requires Reached(base, buckets, k)
    requires multiset(rights) == multiset(UserRows(AfterCascade(d, rows, base, f, buckets, delivered, ends), user, members))
    ensures var after := AfterCascade(d, rows, base, f, buckets, delivered, ends);
            CheckRights(rights, action, k.resourceType, k.resource)
            <==> Grants(f, action)
                 || exists o :: o != k && o in after && Concerns(o, user, members)
                                && Granting(Right(o, after[o]), action, k.resourceType, k.resource)
  {
    var after := AfterCascade(d, rows, base, f, buckets, delivered, ends);
    CascadeSetsExactlyTheReachedRows(d, rows, base, f, buckets, delivered, ends, k);
    ExplicitReadsTheTable(rights, after, user, members, action, k.resourceType, k.resource);
    assert Concerns(k, user, members);
    assert Granting(Right(k, after[k]), action, k.resourceType, k.resource) == Grants(f, action);
  }

  // ── Which documents come first ────────────────────────────────────────────────────

  // A listing of rows (document id to the place of its unique name in the collation), as ORDER BY name gives it.
  predicate ListsByName(listing: seq<string>, rows: map<string, int>) {
    (forall i | 0 <= i < |listing| :: listing[i] in rows)
    && (forall i, j | 0 <= i < j < |listing| :: rows[listing[i]] < rows[listing[j]])
    && forall d | d in rows :: d in listing
  }

  lemma {:induction false} SmallerNamesCount(listing: seq<string>, rows: map<string, int>, i: nat)
    requires i <= |listing|
    requires forall a, b | 0 <= a < b < |listing| :: listing[a] != listing[b]
    ensures |set j | 0 <= j < i :: listing[j]| == i
  {
    if i > 0 {
      SmallerNamesCount(listing, rows, i - 1);
      var fewer := set j | 0 <= j < i - 1 :: listing[j];
      assert (set j | 0 <= j < i :: listing[j]) == fewer + {listing[i - 1]};
    }
  }

  /** A document is reached exactly when fewer than 500 documents of its bucket have smaller names. */
  lemma FirstPageIsTheSmallestNames(listing: seq<string>, rows: map<string, int>, d: string)
    requires ListsByName(listing, rows) && d in rows
    ensures d in Page(listing, MAX_PAGE_LIMIT) <==> |set e | e in rows && rows[e] < rows[d]| < 500
  {
    var i :| 0 <= i < |listing| && listing[i] == d;
    SmallerNamesCount(listing, rows, i);
    assert (set e | e in rows && rows[e] < rows[d]) == (set j | 0 <= j < i :: listing[j]) by {
      forall e | e in rows && rows[e] < rows[d]
        ensures e in set j | 0 <= j < i :: listing[j]
      {
        var j :| 0 <= j < |listing| && listing[j] == e;
      }
    }
    var page := Page(listing, MAX_PAGE_LIMIT);
    if d in page {
      var j :| 0 <= j < |page| && page[j] == d;
      assert listing[j] == d;
    }
    assert i < MAX_PAGE_LIMIT ==> page[i] == d;
  }

  /** What is reached, in numbers: the rows of the first 500 buckets and of the first 500 documents of
      each, for the principal who holds the right. */
  lemma ReachedInNumbers(base: Key, buckets: seq<Bucket>, k: Key)
    ensures Reached(base, buckets, k)
            <==> exists i | 0 <= i < |buckets| && i < 500 ::
                   k == Key(base.principalType, base.principal, "bucket", buckets[i].id)
                   || exists j | 0 <= j < |buckets[i].documents| && j < 500 ::
                        k == Key(base.principalType, base.principal, "document", buckets[i].documents[j])
  {
    forall i | 0 <= i < |buckets|
      ensures TargetOf(base, buckets[i], MAX_PAGE_LIMIT, k)
              <==> k == Key(base.principalType, base.principal, "bucket", buckets[i].id)
                   || exists j | 0 <= j < |buckets[i].documents| && j < 500 ::
                        k == Key(base.principalType, base.principal, "document", buckets[i].documents[j])
    {
      var documents := Page(buckets[i].documents, MAX_PAGE_LIMIT);
      assert forall j | 0 <= j < |documents| :: documents[j] == buckets[i].documents[j];
    }
  }

  /** Cascading a level of the forms to a user without other rows on a document permits there exactly
      what the level permits. */
  lemma CascadedLevelPermitsOnDocuments(d: Dialect, rows: map<Key, Flags>, base: Key, level: string, buckets: seq<Bucket>,
                                        delivered: nat -> nat, ends: nat -> Outcome, k: Key,
                                        user: string, members: set<(string, string)>, rights: seq<Right>, action: string)
    requires Allowed(d, base) && Concerns(base, user, members)
    requires forall i :: delivered(i) >= MAX_PAGE_LIMIT
    requires forall i :: ends(i).Done?
    requires Reached(base, buckets, k)
    requires var after := AfterCascade(d, rows, base, PermLevelToFlags(level), buckets, delivered, ends);
             && multiset(rights) == multiset(UserRows(after, user, members))
             && forall o | o in after && o != k && Concerns(o, user, members) :: !Matching(o, k.resourceType, k.resource)
    ensures CheckRights(rights, action, k.resourceType, k.resource) <==> action in Permitted(level)
  {
    CascadeGrantsTheBaseLevel(d, rows, base, PermLevelToFlags(level), buckets, delivered, ends, k, user, members, rights, action);
    OneRowPermitsItsLevel(level, k, "explicit", action, k.resource);
    OneRowPermitsItsFlags(k, PermLevelToFlags(level), "explicit", action, k.resource);
  }
}
