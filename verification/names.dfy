/** Two documents of one bucket never have the same name, deleted ones included: the UNIQUE
    constraint, seen from the statements that have to respect it. */
module Names {
  import opened Documents
  import opened Cluster

  ghost predicate UniqueNames(t: Tables) {
    forall d, e | d in t.documents && e in t.documents && d != e ::
      t.documents[d].bucket != t.documents[e].bucket || t.documents[d].name != t.documents[e].name
  }

  // One row gets a free name, or comes in with one.
  lemma FreeNameKeepsUnique(t: Tables, t': Tables, d: DocumentId, bucket: string, name: string)
    requires UniqueNames(t) && !NameTaken(t, bucket, name, {d})
    requires d in t'.documents && t'.documents[d].bucket == bucket && t'.documents[d].name == name
    requires forall x | x in t'.documents && x != d :: x in t.documents && t'.documents[x] == t.documents[x]
    ensures UniqueNames(t')
  {
    forall x | x in t'.documents && x != d
      ensures t'.documents[x].bucket != bucket || t'.documents[x].name != name
    {
      assert t.documents[x] == t'.documents[x];
    }
  }

  lemma WriteKeepsUnique(h: Hashes, s: State, e: Event)
    requires UniqueNames(s.tables) && Enabled(h, s, e) && (e.Write? || e.Create?)
    ensures UniqueNames(TablesAfter(s, e))
  {
    var q, t' := s.requests[e.r], TablesAfter(s, e);
    if e.Create? && e.outcome.Applied() {
      FreeNameKeepsUnique(s.tables, t', e.document, q.op.bucket, q.op.name);
    } else if e.Write? && e.outcome.Applied() && Live(s.tables, q.op.document) {
      FreeNameKeepsUnique(s.tables, t', q.op.document, s.tables.documents[q.op.document].bucket, q.at.name);
    }
  }

  lemma OthersKeepUnique(h: Hashes, s: State, e: Event)
    requires UniqueNames(s.tables) && Enabled(h, s, e) && !e.Write? && !e.Create?
    ensures UniqueNames(TablesAfter(s, e))
  {
    var t' := TablesAfter(s, e);
    if e.Rename? && Live(s.tables, e.document) {
      FreeNameKeepsUnique(s.tables, t', e.document, s.tables.documents[e.document].bucket, e.name);
    } else {
      assert forall d | d in t'.documents ::
          d in s.tables.documents && t'.documents[d].bucket == s.tables.documents[d].bucket
          && t'.documents[d].name == s.tables.documents[d].name;
    }
  }

  lemma StepKeepsUnique(h: Hashes, s: State, e: Event)
    requires UniqueNames(s.tables) && Enabled(h, s, e)
    ensures UniqueNames(Apply(h, s, e).tables)
  {
    TablesAfterIs(h, s, e);
    if e.Write? || e.Create? {
      WriteKeepsUnique(h, s, e);
    } else {
      OthersKeepUnique(h, s, e);
    }
  }

  /** At every point of every run, web updates and lost answers included. */
  lemma {:induction false} NamesAreUnique(h: Hashes, states: seq<State>, events: seq<Event>, i: nat, d: DocumentId, e: DocumentId)
    requires Run(h, states, events) && i < |states|
    requires d in states[i].tables.documents && e in states[i].tables.documents
    requires states[i].tables.documents[d].bucket == states[i].tables.documents[e].bucket
    requires states[i].tables.documents[d].name == states[i].tables.documents[e].name
    ensures d == e
  {
    RunsKeepUnique(h, states, events, i);
  }

  lemma {:induction false} RunsKeepUnique(h: Hashes, states: seq<State>, events: seq<Event>, i: nat)
    requires Run(h, states, events) && i < |states|
    ensures UniqueNames(states[i].tables)
  {
    if i > 0 {
      RunsKeepUnique(h, states, events, i - 1);
      StepKeepsUnique(h, states[i - 1], events[i - 1]);
    }
  }
}
