/** The local content store of internal/storage/storage.go: a Put streams to a temporary file, then
    moves it to the name that its digest gives, unless that name exists already. */
module LocalStore {
  import opened Common
  import opened ContentAddress

  type TempId = nat

  predicate Piece(source: Bytes, chunk: Bytes, lo: nat, hi: nat) {
    lo <= hi <= |source| && chunk == source[lo..hi]
  }

  /** The reader delivers `source` in pieces: chunk i is what lies between two cuts. */
  ghost predicate Cut(source: Bytes, chunks: seq<Bytes>, cuts: seq<nat>) {
    && |cuts| == |chunks| + 1 && cuts[0] == 0 && cuts[|chunks|] == |source|
    && (forall i | 0 <= i < |chunks| :: Piece(source, chunks[i], cuts[i], cuts[i + 1]))
  }

  /** Whatever a reader delivers is some byte string in pieces. */
  lemma {:induction false} EveryReaderCutsSomething(chunks: seq<Bytes>) returns (source: Bytes, cuts: seq<nat>)
    ensures Cut(source, chunks, cuts)
  {
    if chunks == [] {
      source, cuts := [], [0];
    } else {
      var n := |chunks| - 1;
      var s0, c0 := EveryReaderCutsSomething(chunks[..n]);
      source, cuts := s0 + chunks[n], c0 + [|s0| + |chunks[n]|];
      forall i | 0 <= i < |chunks|
        ensures Piece(source, chunks[i], cuts[i], cuts[i + 1])
      {
        if i < n {
          assert Piece(s0, chunks[..n][i], c0[i], c0[i + 1]);
          assert s0[c0[i]..c0[i + 1]] == source[c0[i]..c0[i + 1]];
        }
      }
    }
  }

  datatype Stored = Stored(key: string, size: nat, checksum: string) | Failed

  /** Which calls succeed. `copied` is the number of chunks read before the reader or the disk fails;
      `stat` is whether Stat answers, that is, does not fail with anything but not-exist. */
  datatype Faults = Faults(create: bool, copied: nat, close: bool, mkdir: bool, stat: bool, rename: bool, remove: bool)

  // Put takes whatever is not a not-exist error for a file that is there.
  predicate TakenForPresent(digest: Digest, files: Blobs, data: Bytes, f: Faults) {
    !f.stat || StorageKey(digest(data)) in files
  }

  predicate Succeeds(digest: Digest, files: Blobs, data: Bytes, chunks: nat, f: Faults) {
    f.create && chunks <= f.copied && f.close && f.mkdir && (TakenForPresent(digest, files, data, f) || f.rename)
  }

  // The visible files after a Put.
  function FilesAfter(digest: Digest, files: Blobs, data: Bytes, chunks: nat, f: Faults): Blobs {
    if Succeeds(digest, files, data, chunks, f) && f.stat then PutBlob(digest, files, data) else files
  }

  /** A Put that reports success has its bytes under the key it returns exactly when Stat answered or
      the file was there already. */
  lemma SuccessfulPutIsStoredExactlyWhen(digest: Digest, files: Blobs, data: Bytes, chunks: nat, f: Faults)
    requires CollisionFree(digest) && Addressed(digest, files) && Succeeds(digest, files, data, chunks, f)
    ensures var key, after := StorageKey(digest(data)), FilesAfter(digest, files, data, chunks, f);
            (key in after && after[key] == data) <==> f.stat || key in files
  {
    PutBlobHolds(digest, files, data);
  }

  /** With nothing else failing, an unanswered Stat on an empty store is a success that stores
      nothing, whatever the data. */
  lemma UnansweredStatLosesTheFile(digest: Digest, data: Bytes)
    ensures var f := Faults(true, 1, true, true, false, true, true);
            Succeeds(digest, map[], data, 1, f) && FilesAfter(digest, map[], data, 1, f) == map[]
  {
  }

  /** What Get answers: the open file, the not-found error, or another error of Open. */
  datatype Fetched = Opened(data: Bytes) | NotFound | OpenFailed

  class Local {
    const digest: Digest
    var files: Blobs
    var temps: map<TempId, Bytes>

    constructor (digest: Digest)
      ensures this.digest == digest && files == map[] && temps == map[]
    {
      this.digest := digest;
      files, temps := map[], map[];
    }

    // os.Remove.
    method RemoveTemp(temp: TempId, works: bool)
      modifies this`temps
      ensures temps == if works then old(temps) - {temp} else old(temps)
    {
      if works {
        temps := temps - {temp};
      }
    }

    /** io.Copy into the temporary file and the hash at once: after the last chunk both have had the
        whole of `source`, in its order. */
    method Copy(chunks: seq<Bytes>, temp: TempId, limit: nat, ghost source: Bytes, ghost cuts: seq<nat>)
      returns (hashed: Bytes, size: nat, done: bool)
      requires Cut(source, chunks, cuts) && temp in temps && temps[temp] == []
      modifies this`temps
      ensures done <==> |chunks| <= limit
      ensures done ==> hashed == source && size == |source|
      ensures temps == old(temps)[temp := hashed]
    {
      var i := 0;
      hashed, size := [], 0;
      while i < |chunks| && i < limit
        invariant 0 <= i <= |chunks| && i <= limit && cuts[i] <= |source|
        invariant hashed == source[..cuts[i]] && size == |hashed|
        invariant temps == old(temps)[temp := hashed]
      {
        assert Piece(source, chunks[i], cuts[i], cuts[i + 1]);
        assert source[..cuts[i]] + source[cuts[i]..cuts[i + 1]] == source[..cuts[i + 1]];
        temps := temps[temp := temps[temp] + chunks[i]];
        hashed, size := hashed + chunks[i], size + |chunks[i]|;
        i := i + 1;
      }
      done := i == |chunks|;
    }

    /** `temp` is the name that os.CreateTemp invents; `chunks` is what the reader delivers of
        `source`. A success names the bytes: their digest, their length, and the key, which is the
        digest with a slash after its second character. */
    method Put(chunks: seq<Bytes>, temp: TempId, f: Faults, ghost source: Bytes, ghost cuts: seq<nat>) returns (r: Stored)
      requires temp !in temps && Cut(source, chunks, cuts)
      modifies this
      ensures r.Stored? <==> f.create && |chunks| <= f.copied && f.close && f.mkdir
                             && (!f.stat || StorageKey(digest(source)) in old(files) || f.rename)
      ensures r.Stored? ==> r.size == |source| && r.checksum == digest(source) && r.key == StorageKey(r.checksum)
      ensures r.Stored? && |r.checksum| == 64 ==> r.key[2] == '/' && r.key[..2] + r.key[3..] == r.checksum
      ensures files == FilesAfter(digest, old(files), source, |chunks|, f)
      ensures r.Stored? && f.stat && r.key !in old(files) ==> files == old(files)[r.key := source]
      ensures f.remove || !f.create ==> temps == old(temps)
      ensures temps - {temp} == old(temps)
    {
      r := Failed;
      if !f.create {
        assert temps - {temp} == old(temps);
        return;
      }
      temps := temps[temp := []];
      var hashed, size, done := Copy(chunks, temp, f.copied, source, cuts);
      assert temps - {temp} == old(temps);
      if !done || !f.close || !f.mkdir {
        RemoveTemp(temp, f.remove);
        return;
      }
      var hex := digest(hashed);
      var key := StorageKey(hex);
      if |hex| == 64 {
        KeySpellsDigest(hex);
      }
      if f.stat && key !in files {
        if !f.rename {
          RemoveTemp(temp, f.remove);
          return;
        }
        files := files[key := temps[temp]];
        temps := temps - {temp};
      } else {
        RemoveTemp(temp, f.remove);
      }
      r := Stored(key, size, hex);
    }

    /** Only a file that is there is opened, and what is read from a store of complete files has the
        digest that its key spells. */
    method Get(key: string, opens: bool) returns (r: Fetched)
      ensures r.Opened? <==> key in files && opens
      ensures r.NotFound? <==> key !in files
      ensures r.Opened? ==> key in files && r.data == files[key]
      ensures r.Opened? && Addressed(digest, files) ==> key == StorageKey(digest(r.data))
    {
      if !opens {
        return if key in files then OpenFailed else NotFound;
      }
      if key !in files {
        return NotFound;
      }
      r := Opened(files[key]);
    }

    method Delete(key: string, works: bool) returns (ok: bool)
      modifies this`files
      ensures files == if works then old(files) - {key} else old(files)
      ensures ok <==> works || key !in old(files)
    {
      if works {
        files := files - {key};
        ok := true;
      } else {
        ok := key !in files;
      }
    }
  }

  /** Round trip: what Put stored under its key is what Get returns, deduplicated or not, exactly when
      Stat answered or the file was there already; otherwise the success is followed by not-found. */
  method PutThenGet(store: Local, chunks: seq<Bytes>, temp: TempId, f: Faults, ghost source: Bytes, ghost cuts: seq<nat>)
    returns (r: Stored, got: Fetched)
    requires CollisionFree(store.digest) && Addressed(store.digest, store.files) && temp !in store.temps
    requires Cut(source, chunks, cuts)
    modifies store
    ensures Addressed(store.digest, store.files)
    ensures r.Stored? ==> r.size == |source| && r.checksum == store.digest(source)
    ensures r.Stored? ==> (got == Opened(source) <==> f.stat || r.key in old(store.files))
    ensures r.Stored? && !got.Opened? ==> got == NotFound
    ensures forall k | k in old(store.files) :: k in store.files && store.files[k] == old(store.files)[k]
  {
    r := store.Put(chunks, temp, f, source, cuts);
    PutBlobHolds(store.digest, old(store.files), source);
    if r.Stored? {
      SuccessfulPutIsStoredExactlyWhen(store.digest, old(store.files), source, |chunks|, f);
      got := store.Get(r.key, true);
    } else {
      got := NotFound;
    }
  }

  // ── Any number of Puts at once ────────────────────────────────────────────────

  type PutId = nat

  /** `Missing` and `Present` are what Put makes of os.Stat; `Settled` is after the rename. */
  datatype Phase = Copying | Closed | Missing | Present | Settled

  datatype PutCall = PutCall(source: Bytes, temp: TempId, copied: nat, phase: Phase)

  datatype State = State(files: Blobs, temps: map<TempId, Bytes>, puts: map<PutId, PutCall>)

  datatype Event =
    | Begin(p: PutId, source: Bytes, temp: TempId)
    | Copy(p: PutId, upTo: nat)
    | Close(p: PutId)
    | Stat(p: PutId, answers: bool)
    | Rename(p: PutId)
    | Finish(p: PutId, removed: bool)
    | Abort(p: PutId, removed: bool)
    | Crash
    | DeleteFile(key: string)

  function KeyOf(digest: Digest, c: PutCall): string {
    StorageKey(digest(c.source))
  }

  ghost predicate Enabled(s: State, e: Event) {
    match e
    case Begin(p, _, temp) => p !in s.puts && temp !in s.temps
    case Copy(p, upTo) => p in s.puts && s.puts[p].phase.Copying? && s.puts[p].copied <= upTo <= |s.puts[p].source|
    case Close(p) => p in s.puts && s.puts[p].phase.Copying? && s.puts[p].copied == |s.puts[p].source|
    case Stat(p, _) => p in s.puts && s.puts[p].phase.Closed?
    case Rename(p) => p in s.puts && s.puts[p].phase.Missing? && s.puts[p].temp in s.temps
    case Finish(p, _) => p in s.puts && (s.puts[p].phase.Present? || s.puts[p].phase.Settled?)
    case Abort(p, _) => p in s.puts && !s.puts[p].phase.Present? && !s.puts[p].phase.Settled?
    case Crash => true
    case DeleteFile(_) => true
  }

  function Advance(s: State, p: PutId, c: PutCall): State {
    s.(puts := s.puts[p := c])
  }

  // os.Remove of the temporary file runs on every path but the one that renamed it.
  function End(s: State, p: PutId, removed: bool): State
    requires p in s.puts
  {
    s.(puts := s.puts - {p},
       temps := if removed && !s.puts[p].phase.Settled? then s.temps - {s.puts[p].temp} else s.temps)
  }

  ghost function Apply(digest: Digest, s: State, e: Event): State
    requires Enabled(s, e)
  {
    match e
    case Begin(p, source, temp) => Advance(s, p, PutCall(source, temp, 0, Copying)).(temps := s.temps[temp := []])
    case Copy(p, upTo) =>
      var c := s.puts[p];
      Advance(s, p, c.(copied := upTo)).(
        temps := if c.temp in s.temps then s.temps[c.temp := s.temps[c.temp] + c.source[c.copied..upTo]] else s.temps)
    case Close(p) => Advance(s, p, s.puts[p].(phase := Closed))
    case Stat(p, answers) =>
      Advance(s, p, s.puts[p].(phase := if !answers || KeyOf(digest, s.puts[p]) in s.files then Present else Missing))
    case Rename(p) =>
      var c := s.puts[p];
      Advance(s, p, c.(phase := Settled)).(
        files := s.files[KeyOf(digest, c) := s.temps[c.temp]], temps := s.temps - {c.temp})
    case Finish(p, removed) => End(s, p, removed)
    case Abort(p, removed) => End(s, p, removed)
    case Crash => s.(puts := map[])
    case DeleteFile(key) => s.(files := s.files - {key})
  }

  // The temporary file of a running Put holds what it has copied; no two Puts share one.
  ghost predicate TempFits(s: State, p: PutId)
    requires p in s.puts
  {
    var c := s.puts[p];
    && c.copied <= |c.source|
    && (!c.phase.Copying? ==> c.copied == |c.source|)
    && (!c.phase.Settled? ==> c.temp in s.temps && s.temps[c.temp] == c.source[..c.copied])
  }

  ghost predicate Inv(digest: Digest, s: State) {
    && Addressed(digest, s.files)
    && (forall p | p in s.puts :: TempFits(s, p))
    && (forall p, q | p in s.puts && q in s.puts && p != q && !s.puts[p].phase.Settled? && !s.puts[q].phase.Settled? ::
          s.puts[p].temp != s.puts[q].temp)
  }

  lemma StepKeepsTemps(digest: Digest, s: State, e: Event)
    requires Inv(digest, s) && Enabled(s, e)
    ensures var s' := Apply(digest, s, e);
            && (forall p | p in s'.puts :: TempFits(s', p))
            && (forall p, q | p in s'.puts && q in s'.puts && p != q && !s'.puts[p].phase.Settled? && !s'.puts[q].phase.Settled? ::
                  s'.puts[p].temp != s'.puts[q].temp)
  {
    var s' := Apply(digest, s, e);
    forall p | p in s'.puts
      ensures TempFits(s', p)
    {
      assert p in s.puts ==> TempFits(s, p);
      if e.Copy? && p == e.p {
        var c := s.puts[p];
        assert c.source[..c.copied] + c.source[c.copied..e.upTo] == c.source[..e.upTo];
      }
    }
  }

  /** Each step does to the visible files what one whole Put, one Delete or nothing does: the rename
      is the moment at which a Put takes effect, and it then is an atomic PutBlob. */
  lemma StepIsAtomic(digest: Digest, s: State, e: Event)
    requires CollisionFree(digest) && Inv(digest, s) && Enabled(s, e)
    ensures Apply(digest, s, e).files
            == match e
               case Rename(p) => PutBlob(digest, s.files, s.puts[p].source)
               case DeleteFile(key) => s.files - {key}
               case _ => s.files
    ensures e.Stat? && e.answers && Apply(digest, s, e).puts[e.p].phase.Present?
            ==> PutBlob(digest, s.files, s.puts[e.p].source) == s.files
    ensures e.Crash? ==> Apply(digest, s, e).temps == s.temps && Apply(digest, s, e).puts == map[]
  {
    if e.Rename? {
      var c := s.puts[e.p];
      assert TempFits(s, e.p);
      assert c.source[..c.copied] == c.source;
      PutBlobHolds(digest, s.files, c.source);
    }
  }

  lemma StepKeepsInv(digest: Digest, s: State, e: Event)
    requires CollisionFree(digest) && Inv(digest, s) && Enabled(s, e)
    ensures Inv(digest, Apply(digest, s, e))
  {
    StepKeepsTemps(digest, s, e);
    StepIsAtomic(digest, s, e);
    if e.Rename? {
      PutBlobHolds(digest, s.files, s.puts[e.p].source);
    }
  }

  const NOTHING := State(map[], map[], map[])

  ghost predicate Run(digest: Digest, states: seq<State>, events: seq<Event>) {
    && |states| == |events| + 1 && states[0] == NOTHING
    && forall i | 0 <= i < |events| :: Enabled(states[i], events[i]) && states[i + 1] == Apply(digest, states[i], events[i])
  }

  /** In every intermediate state of every run, crashes included, a file that is visible is complete:
      its bytes hash to its name. */
  lemma {:induction false} VisibleFilesAreComplete(digest: Digest, states: seq<State>, events: seq<Event>, i: nat)
    requires CollisionFree(digest) && Run(digest, states, events) && i < |states|
    ensures Inv(digest, states[i])
    ensures forall k | k in states[i].files :: k == StorageKey(digest(states[i].files[k]))
  {
    if i > 0 {
      VisibleFilesAreComplete(digest, states, events, i - 1);
      StepKeepsInv(digest, states[i - 1], events[i - 1]);
    }
  }

  /** Visible content never changes; only Delete takes it away. */
  lemma {:induction false} VisibleContentStays(digest: Digest, states: seq<State>, events: seq<Event>, i: nat, j: nat, key: string)
    requires CollisionFree(digest) && Run(digest, states, events) && i <= j < |states|
    requires key in states[i].files
    requires forall n | i <= n < j :: events[n] != DeleteFile(key)
    ensures key in states[j].files && states[j].files[key] == states[i].files[key]
    decreases j - i
  {
    if i < j {
      VisibleFilesAreComplete(digest, states, events, i);
      StepIsAtomic(digest, states[i], events[i]);
      VisibleContentStays(digest, states, events, i + 1, j, key);
    }
  }

  // The step at which a Put whose bytes are in place becomes one that can only succeed: the file was
  // there, or has just been moved there.
  ghost predicate Takes(digest: Digest, s: State, e: Event, p: PutId) {
    && Enabled(s, e)
    && ((e.Stat? && e.p == p && KeyOf(digest, s.puts[p]) in s.files) || e == Rename(p))
  }

  /** From the moment a Put has settled, Get returns exactly its bytes until someone deletes the key,
      no matter how many other Puts run, fail or crash in between. A Delete that slips in between the
      Stat of a duplicate and the return of its Put is such a deletion. */
  lemma SettledPutIsReadable(digest: Digest, states: seq<State>, events: seq<Event>, i: nat, j: nat, p: PutId)
    requires CollisionFree(digest) && Run(digest, states, events) && i < j < |states|
    requires Takes(digest, states[i], events[i], p)
    requires forall n | i < n < j :: events[n] != DeleteFile(KeyOf(digest, states[i].puts[p]))
    ensures var c := states[i].puts[p];
            KeyOf(digest, c) in states[j].files && states[j].files[KeyOf(digest, c)] == c.source
  {
    var c := states[i].puts[p];
    VisibleFilesAreComplete(digest, states, events, i);
    StepIsAtomic(digest, states[i], events[i]);
    PutBlobHolds(digest, states[i].files, c.source);
    VisibleContentStays(digest, states, events, i + 1, j, KeyOf(digest, c));
  }

  /** In some run a single Put finishes with success and nothing is visible afterwards: its Stat did
      not answer. */
  lemma LostPutReached(digest: Digest, data: Bytes) returns (states: seq<State>, events: seq<Event>)
    ensures Run(digest, states, events) && |events| == 5 && events[3] == Stat(0, false) && events[4] == Finish(0, true)
    ensures states[4].puts[0].source == data
    ensures states[5] == NOTHING
  {
    var s1 := Apply(digest, NOTHING, Begin(0, data, 0));
    var s2 := Apply(digest, s1, Copy(0, |data|));
    var s3 := Apply(digest, s2, Close(0));
    var s4 := Apply(digest, s3, Stat(0, false));
    var s5 := Apply(digest, s4, Finish(0, true));
    states := [NOTHING, s1, s2, s3, s4, s5];
    events := [Begin(0, data, 0), Copy(0, |data|), Close(0), Stat(0, false), Finish(0, true)];
  }
}
