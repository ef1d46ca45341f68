/** The asset registry's own code: the sections its locks delimit, updating the shared tables in place. */
module AssetRegistry {
  import opened Forests
  import A = AssetPipeline

  class Registry {
    var entries: map<A.AssetId, A.Entry>
    var unpushed: multiset<A.AssetId>
    var queue: seq<A.AssetId>
    var workers: seq<A.Worker>
    var completions: seq<A.Completion>
    var applying: seq<A.Completion>
    var stalled: nat
    const caching: bool
    var hits: nat
    var misses: nat
    ghost var granted: multiset<A.AssetId>
    ghost var started: multiset<A.AssetId>
    ghost var applied: multiset<A.AssetId>

    ghost function State(): A.State
      reads this
    {
      A.State(entries, unpushed, queue, workers, completions, applying, stalled, caching, hits, misses,
              granted, started, applied)
    }

    constructor (workerCount: nat, caching: bool)
      ensures State() == A.Started(workerCount, caching)
    {
      this.caching, hits, misses := caching, 0, 0;
      entries, unpushed, queue, workers := map[], multiset{}, [], seq(workerCount, _ => A.Idle);
      completions, applying, stalled := [], [], 0;
      granted, started, applied := multiset{}, multiset{}, multiset{};
    }

    // -------------------------------------------------------------- requesting

    /** A request's first section. `isNew` when a job is to be pushed for it. */
    method RequestEntry(id: A.AssetId) returns (isNew: bool)
      modifies this
      ensures State() == A.Ask(old(State()), id) && isNew == (id !in old(entries))
    {
      if id in entries {
        return false;
      }
      entries := entries[id := A.Asked()];
      unpushed := unpushed + multiset{id};
      granted := granted + multiset{id};
      return true;
    }

    /** Its second. */
    method PushJob(id: A.AssetId)
      modifies this
      ensures State() == A.Push(old(State()), id)
    {
      unpushed := unpushed - multiset{id};
      queue := queue + [id];
    }

    // -------------------------------------------------------------- a worker's turn

    method PopJob(w: nat)
      requires w < |workers| && queue != []
      modifies this
      ensures State() == A.Pop(old(State()), w)
    {
      workers := workers[w := A.Popped(queue[0])];
      queue := queue[1..];
    }

    method MarkLoading(w: nat)
      requires w < |workers| && workers[w].Popped?
      modifies this
      ensures State() == A.Mark(old(State()), w)
    {
      var id := workers[w].id;
      if id in entries {
        entries := entries[id := entries[id].(state := A.Loading)];
      }
      workers := workers[w := A.Marked(id)];
      started := started + multiset{id};
    }

    method RunJob(w: nat, outcome: A.Outcome)
      requires w < |workers| && workers[w].Marked?
      modifies this
      ensures State() == A.RunJob(old(State()), w, outcome)
    {
      workers := workers[w := A.Ran(A.Completion(workers[w].id, outcome))];
    }

    method HandOver(w: nat)
      requires w < |workers| && workers[w].Ran?
      modifies this
      ensures State() == A.Hand(old(State()), w)
    {
      completions := completions + [workers[w].completion];
      workers := workers[w := A.Idle];
    }

    // -------------------------------------------------------------- the main thread

    /** The pump's first section: the completions change hands. */
    method SwapCompletions()
      modifies this
      ensures State() == A.Swap(old(State()))
    {
      applying, completions := completions, [];
    }

    /** Its second: every completion applied in turn, then every decoded asset's wait counted. */
    method ApplyFinished() returns (finished: nat)
      modifies this
      ensures State() == A.Apply(old(State())) && finished == |old(applying)|
    {
      hide A.ApplyAll, A.WaitAll, A.Stalls, A.Ids, A.Textures;
      ApplyEach();
      CountWaits();
      finished := |applying|;
      applied := applied + multiset(A.Ids(applying));
      applying := [];
    }

    method ApplyEach()
      modifies `entries, `hits, `misses
      ensures entries == A.ApplyAll(old(entries), applying)
      ensures hits == old(hits) + A.Textures(old(entries).Keys, applying, A.FromCache)
      ensures misses == old(misses) + (if caching then A.Textures(old(entries).Keys, applying, A.FromFile) else 0)
    {
      hide A.Finish;
      for k := 0 to |applying|
        invariant entries == A.ApplyAll(old(entries), applying[..k]) && entries.Keys == old(entries).Keys
        invariant hits == old(hits) + A.Textures(old(entries).Keys, applying[..k], A.FromCache)
        invariant misses
          == old(misses) + (if caching then A.Textures(old(entries).Keys, applying[..k], A.FromFile) else 0)
      {
        assert applying[..k + 1][..k] == applying[..k];
        var completion := applying[k];
        if completion.id in entries {
          entries := entries[completion.id := A.Finish(entries[completion.id], completion.outcome)];
          CountTexture(completion.outcome);
        }
      }
      assert applying[..|applying|] == applying;
    }

    /** A texture counts as a hit or, when there is a cache to miss, as a miss. */
    method CountTexture(outcome: A.Outcome)
      modifies `hits, `misses
      ensures hits == old(hits) + (if outcome.Imported? && outcome.texture.FromCache? then 1 else 0)
      ensures misses == old(misses) + (if outcome.Imported? && outcome.texture.FromFile? && caching then 1 else 0)
    {
      if outcome.Imported? && !outcome.texture.NoTexture? {
        if outcome.texture.FromCache? {
          hits := hits + 1;
        } else if caching {
          misses := misses + 1;
        }
      }
    }

    method CountWaits()
      modifies `entries, `stalled
      ensures entries == A.WaitAll(old(entries))
      ensures stalled == old(stalled) + |set id | id in old(entries) && A.Stalls(old(entries)[id])|
    {
      ghost var before := entries;
      var left := entries.Keys;
      assert StallsOutside(before, left) == {};
      while left != {}
        invariant left <= before.Keys && WaitedOutside(before, entries, left)
        invariant stalled == old(stalled) + |StallsOutside(before, left)|
        decreases |left|
      {
        hide StallsOutside;
        var id :| id in left;
        assert entries[id] == before[id];
        StallCounted(before, left, id);
        var entry := entries[id];
        left := left - {id};
        if entry.state == A.Decoded {
          if entry.decodedPumps < A.STALLED_PUMPS {
            entries := entries[id := entry.(decodedPumps := entry.decodedPumps + 1)];
          } else if !entry.stallReported {
            entries := entries[id := entry.(stallReported := true)];
            stalled := stalled + 1;
          }
        }
        assert entries[id] == A.Wait(before[id]);
      }
      assert StallsOutside(before, {}) == set id | id in before && A.Stalls(before[id]);
    }

    method TakePayload(id: A.AssetId) returns (payload: Option<int>)
      modifies this
      ensures State() == A.TakePayload(old(State()), id)
      ensures payload == if id in old(entries) then old(entries)[id].payload else None
    {
      payload := None;
      if id in entries {
        payload := entries[id].payload;
        entries := entries[id := entries[id].(payload := None)];
      }
    }

    /** The decoded assets, in order of identifier. */
    method PendingFinalisation() returns (pending: seq<A.AssetId>)
      ensures Increasing(pending)
      ensures forall id :: id in pending <==> A.HasState(State(), id, A.Decoded)
    {
      pending := [];
      var left := entries.Keys;
      while left != {}
        invariant left <= entries.Keys && Increasing(pending)
        invariant forall id :: id in pending <==> A.HasState(State(), id, A.Decoded) && id !in left
        decreases |left|
      {
        var id :| id in left;
        left := left - {id};
        if entries[id].state == A.Decoded {
          pending := InsertSorted(pending, id);
        }
      }
    }

    method MarkReady(id: A.AssetId)
      modifies this
      ensures State() == A.MarkReady(old(State()), id)
    {
      if id in entries {
        var e := entries[id];
        entries := entries[id := e.(state := A.Ready, loadCount := e.loadCount + 1, error := "")];
      }
    }

    method MarkFailed(id: A.AssetId, reason: string)
      modifies this
      ensures State() == A.MarkFailed(old(State()), id, reason)
    {
      if id in entries {
        entries := entries[id := entries[id].(state := A.AssetState.Failed, error := reason)];
      }
    }

    /** Queue again every settled asset whose file has changed; the jobs are pushed after. */
    method ReloadChanged(modified: map<A.AssetId, A.Time>) returns (reloaded: seq<A.AssetId>)
      modifies this
      ensures State() == A.Reload(old(State()), modified)
      ensures Increasing(reloaded)
      ensures forall id :: id in reloaded <==> id in A.ChangedIds(old(entries), modified)
    {
      hide A.Changed, A.Requeued, A.ChangedIds;
      var chosen;
      reloaded, chosen := RequeueChanged(modified);
      unpushed := unpushed + multiset(chosen);
      granted := granted + multiset(chosen);
    }

    method RequeueChanged(modified: map<A.AssetId, A.Time>) returns (reloaded: seq<A.AssetId>, chosen: set<A.AssetId>)
      modifies `entries
      ensures chosen == A.ChangedIds(old(entries), modified) && entries == A.Requeued(old(entries), chosen)
      ensures Increasing(reloaded) && forall id :: id in reloaded <==> id in chosen
    {
      hide A.Changed, A.Requeued, Increasing, InsertSorted, ChosenOutside, A.ChangedIds;
      reloaded, chosen := [], {};
      NoneIncreasing();
      NothingRequeued(entries);
      var left := entries.Keys;
      NoneChosen(entries, modified);
      while left != {}
        invariant left <= old(entries).Keys && Increasing(reloaded) && chosen <= old(entries).Keys - left
        invariant entries == A.Requeued(old(entries), chosen)
        invariant ChosenOutside(old(entries), left, chosen, modified)
        invariant forall id :: id in reloaded <==> id in chosen
        decreases |left|
      {
        var id :| id in left;
        OneRequeued(old(entries), chosen, id);
        ChooseNext(old(entries), left, chosen, id, modified);
        left := left - {id};
        if A.Changed(entries[id], id, modified) {
          entries := entries[id := entries[id].(state := A.Queued)];
          reloaded := InsertSorted(reloaded, id);
          chosen := chosen + {id};
        }
      }
      AllChosen(old(entries), chosen, modified);
    }

    /** The figures a status panel shows. Nothing stored is Unloaded, so they always add up. */
    method Stats() returns (total: nat, ready: nat, failed: nat, inProgress: nat, awaiting: nat)
      requires A.Sound(State())
      ensures total == |entries| == ready + failed + inProgress && awaiting <= inProgress
      ensures ready == |With(entries, READY)| && failed == |With(entries, FAILED)|
      ensures inProgress == |With(entries, IN_PROGRESS)| && awaiting == |With(entries, AWAITING)|
    {
      hide A.Sound, With, Tally;
      total, ready, failed, inProgress, awaiting := |entries|, 0, 0, 0, 0;
      var left := entries.Keys;
      TallyAtEnds(entries);
      while left != {}
        invariant left <= entries.Keys && |left| + ready + failed + inProgress == total && awaiting <= inProgress
        invariant ready == Tally(entries, left, READY) && failed == Tally(entries, left, FAILED)
        invariant inProgress == Tally(entries, left, IN_PROGRESS) && awaiting == Tally(entries, left, AWAITING)
        decreases |left|
      {
        var id :| id in left;
        NeverUnloaded(State(), id);
        TallyNext(entries, left, id);
        left := left - {id};
        match entries[id].state {
          case Ready => ready := ready + 1;
          case Failed => failed := failed + 1;
          case Decoded => inProgress, awaiting := inProgress + 1, awaiting + 1;
          case Queued => inProgress := inProgress + 1;
          case Loading => inProgress := inProgress + 1;
          case Unloaded =>
        }
      }
    }
  }

  const READY: set<A.AssetState> := {A.Ready}
  const FAILED: set<A.AssetState> := {A.AssetState.Failed}
  const IN_PROGRESS: set<A.AssetState> := {A.Queued, A.Loading, A.Decoded}
  const AWAITING: set<A.AssetState> := {A.Decoded}

  /** How many entries outside `left` are in one of these states. */
  ghost function Tally(entries: map<A.AssetId, A.Entry>, left: set<A.AssetId>, states: set<A.AssetState>): nat {
    |With(entries, states) - left|
  }

  lemma TallyAtEnds(entries: map<A.AssetId, A.Entry>)
    ensures forall states :: Tally(entries, entries.Keys, states) == 0
    ensures forall states :: Tally(entries, {}, states) == |With(entries, states)|
  {
    forall states ensures With(entries, states) - entries.Keys == {} && With(entries, states) - {} == With(entries, states) {
    }
  }

  lemma TallyNext(entries: map<A.AssetId, A.Entry>, left: set<A.AssetId>, id: A.AssetId)
    requires id in left && id in entries
    ensures forall states :: Tally(entries, left - {id}, states)
                          == Tally(entries, left, states) + (if entries[id].state in states then 1 else 0)
  {
    hide Tally;
    forall states
      ensures Tally(entries, left - {id}, states) == Tally(entries, left, states) + (if entries[id].state in states then 1 else 0)
    {
      CountedNext(entries, left, id, states);
    }
  }

  ghost predicate WaitedOutside(before: map<A.AssetId, A.Entry>, now: map<A.AssetId, A.Entry>, left: set<A.AssetId>) {
    now.Keys == before.Keys && forall id :: id in before ==> now[id] == if id in left then before[id] else A.Wait(before[id])
  }

  ghost function StallsOutside(before: map<A.AssetId, A.Entry>, left: set<A.AssetId>): set<A.AssetId> {
    set id | id in before && id !in left && A.Stalls(before[id])
  }

  lemma StallCounted(before: map<A.AssetId, A.Entry>, left: set<A.AssetId>, id: A.AssetId)
    requires id in left && id in before
    ensures |StallsOutside(before, left - {id})|
         == |StallsOutside(before, left)| + (if A.Stalls(before[id]) then 1 else 0)
  {
    hide A.Stalls;
    var s := StallsOutside(before, left);
    assert StallsOutside(before, left - {id}) == if A.Stalls(before[id]) then s + {id} else s;
  }

  ghost predicate ChosenOutside(before: map<A.AssetId, A.Entry>, left: set<A.AssetId>, chosen: set<A.AssetId>,
                                modified: map<A.AssetId, A.Time>) {
    forall id :: id in before && id !in left ==> (id in chosen <==> A.Changed(before[id], id, modified))
  }

  lemma NoneChosen(before: map<A.AssetId, A.Entry>, modified: map<A.AssetId, A.Time>)
    ensures ChosenOutside(before, before.Keys, {}, modified)
  {
  }

  lemma ChooseNext(before: map<A.AssetId, A.Entry>, left: set<A.AssetId>, chosen: set<A.AssetId>, id: A.AssetId,
                   modified: map<A.AssetId, A.Time>)
    requires id in left && id in before && id !in chosen && ChosenOutside(before, left, chosen, modified)
    ensures ChosenOutside(before, left - {id}, if A.Changed(before[id], id, modified) then chosen + {id} else chosen,
                          modified)
  {
    hide A.Changed;
  }

  lemma AllChosen(before: map<A.AssetId, A.Entry>, chosen: set<A.AssetId>, modified: map<A.AssetId, A.Time>)
    requires ChosenOutside(before, {}, chosen, modified) && chosen <= before.Keys
    ensures chosen == A.ChangedIds(before, modified)
  {
    hide A.Changed;
  }

  lemma NothingRequeued(entries: map<A.AssetId, A.Entry>)
    ensures A.Requeued(entries, {}) == entries
  {
  }

  lemma OneRequeued(before: map<A.AssetId, A.Entry>, chosen: set<A.AssetId>, id: A.AssetId)
    requires id in before && id !in chosen
    ensures A.Requeued(before, chosen).Keys == before.Keys && A.Requeued(before, chosen)[id] == before[id]
    ensures A.Requeued(before, chosen + {id}) == A.Requeued(before, chosen)[id := before[id].(state := A.Queued)]
  {
  }

  lemma NoneIncreasing()
    ensures Increasing([])
  {
  }

  lemma NeverUnloaded(s: A.State, id: A.AssetId)
    requires A.Sound(s) && id in s.entries
    ensures s.entries[id].state != A.Unloaded
  {
    assert A.SoundAt(s, id);
  }

  ghost function With(entries: map<A.AssetId, A.Entry>, states: set<A.AssetState>): set<A.AssetId> {
    set id | id in entries && entries[id].state in states
  }

  lemma CountedNext(entries: map<A.AssetId, A.Entry>, left: set<A.AssetId>, id: A.AssetId, states: set<A.AssetState>)
    requires id in left && id in entries
    ensures Tally(entries, left - {id}, states)
         == Tally(entries, left, states) + (if entries[id].state in states then 1 else 0)
  {
    var w := With(entries, states);
    if entries[id].state in states {
      assert w - (left - {id}) == (w - left) + {id};
    } else {
      assert w - (left - {id}) == w - left;
    }
  }
}
