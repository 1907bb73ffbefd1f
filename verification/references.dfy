/** No dangling references: whatever content a live row, a snapshot or a request in flight names,
    the content store holds bytes with exactly that key, size and checksum. */
module References {
  import opened Documents
  import opened ContentAddress
  import opened Cluster
  import opened MutualExclusion

  ghost predicate Backed(digest: Digest, blobs: Blobs, c: Content) {
    && c.storageKey in blobs
    && c.size == |blobs[c.storageKey]|
    && c.checksum == digest(blobs[c.storageKey])
    && c.storageKey == StorageKey(c.checksum)
  }

  // The contents a request still carries.
  ghost predicate Carries(q: Request, c: Content) {
    || (q.loaded.Some? && q.loaded.value.content == c)
    || (match q.at
        case Fetched(v) => v.content == c
        case Stored(content) => content == c
        case Ready(_, content) => content == c
        case Current(_, content, row) => content == c || row.content == c
        case Snapped(_, content) => content == c
        case _ => false)
  }

  ghost predicate LiveNames(t: Tables, c: Content) {
    exists d :: Live(t, d) && t.documents[d].content == c
  }

  ghost predicate SnapshotNames(t: Tables, c: Content) {
    exists v :: v in t.versions && t.versions[v].content == c
  }

  ghost predicate Names(s: State, c: Content) {
    || LiveNames(s.tables, c)
    || SnapshotNames(s.tables, c)
    || exists r :: r in s.requests && Carries(s.requests[r], c)
  }

  ghost predicate Resolves(h: Hashes, s: State) {
    && Addressed(h.digest, s.blobs)
    && forall c | Names(s, c) :: Backed(h.digest, s.blobs, c)
  }

  // ── Steps invent no content, except that Put names what it stored ─────────────

  lemma ReaderCarriesOldContent(h: Hashes, s: State, e: Event, c: Content)
    requires Enabled(h, s, e) && (e.Arrive? || e.FetchVersion? || e.ReadCurrent?)
    requires e.r in Apply(h, s, e).requests && Carries(Apply(h, s, e).requests[e.r], c)
    ensures Names(s, c)
  {
    if e.Arrive? {
      assert Live(s.tables, e.op.document);
      assert LiveNames(s.tables, c);
    } else if Carries(s.requests[e.r], c) {
    } else if e.FetchVersion? {
      assert s.requests[e.r].op.target in s.tables.versions;
      assert SnapshotNames(s.tables, c);
    } else {
      assert Live(s.tables, s.requests[e.r].op.document);
      assert LiveNames(s.tables, c);
    }
  }

  lemma FileIsCarried(h: Hashes, s: State, e: Event, c: Content)
    requires Enabled(h, s, e) && e.PutFile? && Carries(Apply(h, s, e).requests[e.r], c)
    ensures Carries(s.requests[e.r], c)
            || (FileOf(s.requests[e.r].op).Some? && c == ContentOf(h.digest, FileOf(s.requests[e.r].op).value))
  {
  }

  lemma OthersCarryTheSame(h: Hashes, s: State, e: Event, r: RequestId)
    requires Enabled(h, s, e) && r in Apply(h, s, e).requests
    requires (e.Arrive? || e.Connect? || MovesOn(e)) ==> r != e.r
    ensures r in s.requests && s.requests[r] == Apply(h, s, e).requests[r]
  {
    if MovesOn(e) {
      MoveChangesOneRequest(h, s, e);
    } else {
      OthersCarryTheSameElsewhere(h, s, e, r);
    }
  }

  lemma OthersCarryTheSameElsewhere(h: Hashes, s: State, e: Event, r: RequestId)
    requires Enabled(h, s, e) && !MovesOn(e) && r in Apply(h, s, e).requests
    requires (e.Arrive? || e.Connect?) ==> r != e.r
    ensures r in s.requests && s.requests[r] == Apply(h, s, e).requests[r]
  {
  }

  lemma RequestCarriesOldContent(h: Hashes, s: State, e: Event, r: RequestId, c: Content)
    requires Enabled(h, s, e) && r in Apply(h, s, e).requests && Carries(Apply(h, s, e).requests[r], c)
    requires !e.Arrive? && !e.FetchVersion? && !e.ReadCurrent?
    ensures r in s.requests
    ensures Carries(s.requests[r], c)
            || (e.PutFile? && FileOf(s.requests[e.r].op).Some?
                && c == ContentOf(h.digest, FileOf(s.requests[e.r].op).value))
  {
    if (e.Connect? || MovesOn(e)) && r == e.r {
      if e.PutFile? {
        FileIsCarried(h, s, e, c);
      }
    } else {
      OthersCarryTheSame(h, s, e, r);
    }
  }

  lemma LiveRowNamesOldContent(s: State, e: Event, d: DocumentId)
    requires Live(TablesAfter(s, e), d)
    ensures var c := TablesAfter(s, e).documents[d].content;
            (Live(s.tables, d) && s.tables.documents[d].content == c)
            || ((e.Write? || e.Create?) && e.r in s.requests && Carries(s.requests[e.r], c))
  {
  }

  lemma SnapshotNamesOldContent(s: State, e: Event, v: VersionId)
    requires v in TablesAfter(s, e).versions
    ensures var c := TablesAfter(s, e).versions[v].content;
            (v in s.tables.versions && s.tables.versions[v].content == c)
            || (e.Archive? && e.r in s.requests && Carries(s.requests[e.r], c))
  {
  }

  lemma RowsNameOldContent(s: State, e: Event, c: Content)
    requires LiveNames(TablesAfter(s, e), c) || SnapshotNames(TablesAfter(s, e), c)
    ensures Names(s, c)
  {
    var t' := TablesAfter(s, e);
    if LiveNames(t', c) {
      var d :| Live(t', d) && t'.documents[d].content == c;
      LiveRowNamesOldContent(s, e, d);
    } else {
      var v :| v in t'.versions && t'.versions[v].content == c;
      SnapshotNamesOldContent(s, e, v);
    }
  }

  lemma NamesOldContent(h: Hashes, s: State, e: Event, c: Content)
    requires Enabled(h, s, e) && Names(Apply(h, s, e), c)
    ensures Names(s, c) || (e.PutFile? && FileOf(s.requests[e.r].op).Some?
                            && c == ContentOf(h.digest, FileOf(s.requests[e.r].op).value))
  {
    var s' := Apply(h, s, e);
    if LiveNames(s'.tables, c) || SnapshotNames(s'.tables, c) {
      TablesAfterIs(h, s, e);
      RowsNameOldContent(s, e, c);
    } else {
      var r :| r in s'.requests && Carries(s'.requests[r], c);
      if !e.Arrive? && !e.FetchVersion? && !e.ReadCurrent? {
        RequestCarriesOldContent(h, s, e, r, c);
      } else if r == e.r {
        ReaderCarriesOldContent(h, s, e, c);
      } else {
        assert r in s.requests && Carries(s.requests[r], c);
      }
    }
  }

  lemma MovesKeepBlobs(h: Hashes, s: State, e: Event)
    requires Enabled(h, s, e) && MovesOn(e) && !e.PutFile?
    ensures Apply(h, s, e).blobs == s.blobs
  {
  }

  lemma OthersKeepBlobs(h: Hashes, s: State, e: Event)
    requires Enabled(h, s, e) && !MovesOn(e) && !e.RemoveBlob?
    ensures Apply(h, s, e).blobs == s.blobs
  {
  }

  lemma BlobsOnlyGrow(h: Hashes, s: State, e: Event)
    requires Enabled(h, s, e) && !e.RemoveBlob?
    ensures Apply(h, s, e).blobs == if e.PutFile? then PutBlob(h.digest, s.blobs, FileOf(s.requests[e.r].op).value.bytes)
                                    else s.blobs
  {
    if e.PutFile? {
    } else if MovesOn(e) {
      MovesKeepBlobs(h, s, e);
    } else {
      OthersKeepBlobs(h, s, e);
    }
  }

  lemma StepResolves(h: Hashes, s: State, e: Event)
    requires CollisionFree(h.digest) && Resolves(h, s) && Enabled(h, s, e) && !e.RemoveBlob?
    ensures Resolves(h, Apply(h, s, e))
  {
    var s' := Apply(h, s, e);
    BlobsOnlyGrow(h, s, e);
    if e.PutFile? {
      PutBlobHolds(h.digest, s.blobs, FileOf(s.requests[e.r].op).value.bytes);
    }
    forall c | Names(s', c)
      ensures Backed(h.digest, s'.blobs, c)
    {
      NamesOldContent(h, s, e, c);
    }
  }

  /** In every run without blob removals, locked or not, web updates included, every reference
      resolves at every moment: rows written by stale updates and by restores too. */
  lemma {:induction false} RunsResolve(h: Hashes, states: seq<State>, events: seq<Event>, i: nat)
    requires CollisionFree(h.digest) && Run(h, states, events) && i < |states|
    requires forall j | 0 <= j < |events| :: !events[j].RemoveBlob?
    ensures Resolves(h, states[i])
  {
    if i > 0 {
      RunsResolve(h, states, events, i - 1);
      StepResolves(h, states[i - 1], events[i - 1]);
    }
  }

  /** Removing a blob is harmless exactly when nothing that is left names its key. */
  lemma RemovalIsHarmlessExactlyWhenUnnamed(h: Hashes, s: State, key: string)
    requires Resolves(h, s)
    ensures Resolves(h, Apply(h, s, RemoveBlob(key))) <==> forall c | Names(s, c) :: c.storageKey != key
  {
    var s' := Apply(h, s, RemoveBlob(key));
    assert forall c :: Names(s', c) <==> Names(s, c);
    if Resolves(h, s') {
      forall c | Names(s, c)
        ensures c.storageKey != key
      {
        assert Names(s', c);
        assert Backed(h.digest, s'.blobs, c);
      }
    }
    if forall c | Names(s, c) :: c.storageKey != key {
      forall c | Names(s', c)
        ensures Backed(h.digest, s'.blobs, c)
      {
        assert Names(s, c);
        assert Backed(h.digest, s.blobs, c);
      }
    }
  }
}
