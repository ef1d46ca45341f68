/** What each section of the registry does to an asset, read off the table before and after; and over whole
    runs, that only an import makes an asset usable and it is that import's figures the asset shows. */
module AssetLaws {
  import opened Forests
  import opened AssetPipeline

  // ---------------------------------------------------------------- what is applied

  /** The outcome of the asset's load among those finished, if one is. */
  function OutcomeOf(finished: seq<Completion>, id: AssetId): Option<Outcome> {
    if finished == [] then None
    else if finished[|finished| - 1].id == id then Some(finished[|finished| - 1].outcome)
    else OutcomeOf(finished[..|finished| - 1], id)
  }

  /** An asset as a pump leaves it that has just applied this load to it: an import decoded, with its payload,
      bytes and time and no error; an error failed, with its reason and otherwise as it was. */
  predicate CameOut(before: Entry, after: Entry, outcome: Outcome) {
    match outcome
    case Imported(payload, bytes, modified, _) =>
      && after.state == Decoded && after.payload == Some(payload) && after.bytes == bytes
      && after.loadedAt == modified && after.error == "" && after.loadCount == before.loadCount
      && after.decodedPumps == 1 && !after.stallReported
    case Error(reason) =>
      after == before.(state := AssetState.Failed, error := reason)
  }

  /** An asset as a pump leaves it that has applied nothing to it: one pump older if it waits decoded, and
      reported when it has waited too long. */
  predicate OnlyWaited(before: Entry, after: Entry) {
    && after == before.(decodedPumps := after.decodedPumps, stallReported := after.stallReported)
    && (before.state != Decoded ==> after == before)
    && (before.state == Decoded && before.decodedPumps < 600 ==>
          after.decodedPumps == before.decodedPumps + 1 && after.stallReported == before.stallReported)
    && (before.state == Decoded && before.decodedPumps >= 600 ==>
          after.decodedPumps == before.decodedPumps && after.stallReported)
  }

  lemma {:induction false} AppliesOutcome(entries: map<AssetId, Entry>, finished: seq<Completion>, id: AssetId)
    requires id in entries
    ensures id in ApplyAll(entries, finished)
    ensures OutcomeOf(finished, id).None? <==> Count(Ids(finished), id) == 0
    ensures Count(Ids(finished), id) <= 1 ==>
      ApplyAll(entries, finished)[id] ==
        if OutcomeOf(finished, id).Some? then Finish(entries[id], OutcomeOf(finished, id).value) else entries[id]
    decreases |finished|
  {
    hide Count, Ids, Finish;
    if finished == [] {
      NoneCounted(id);
    } else {
      var n := |finished| - 1;
      AppliesOutcome(entries, finished[..n], id);
      IdsAppend(finished[..n], finished[n], id);
      assert finished == finished[..n] + [finished[n]];
      ApplyAllStates(entries, finished[..n], finished[n].id);
    }
  }

  /** A pump's second section leaves every asset as its load came out, if one finished, and otherwise only
      waiting; the loads are used up. */
  lemma ApplyDoes(s: State, id: AssetId)
    requires Sound(s) && id in s.entries
    ensures var t := Apply(s);
      && t.entries.Keys == s.entries.Keys && t.applying == []
      && (OutcomeOf(s.applying, id).Some? ==> CameOut(s.entries[id], t.entries[id], OutcomeOf(s.applying, id).value))
      && (OutcomeOf(s.applying, id).None? ==> OnlyWaited(s.entries[id], t.entries[id]))
  {
    assert SoundAt(s, id);
    OneAtMost(s, id);
    AppliesOutcome(s.entries, s.applying, id);
    KeysStay(s.entries, s.applying);
    hide Count, Ids, ApplyAll, SoundAt, OutcomeOf;
  }

  lemma OneAtMost(s: State, id: AssetId)
    requires SoundAt(s, id)
    ensures Count(Ids(s.applying), id) <= 1
  {
    hide Count, Ids, Runners, Waiting;
  }

  lemma {:induction false} KeysStay(entries: map<AssetId, Entry>, finished: seq<Completion>)
    ensures ApplyAll(entries, finished).Keys == entries.Keys
    decreases |finished|
  {
    if finished != [] {
      KeysStay(entries, finished[..|finished| - 1]);
    }
  }

  // ---------------------------------------------------------------- over whole runs

  /** The outcome of the last load applied to the asset in a run. */
  ghost function LastLoad(s: State, steps: seq<Step>, id: AssetId, last: Option<Outcome>): Option<Outcome>
    requires Possible(s, steps)
    decreases |steps|
  {
    if steps == [] then last else LastLoad(Next(s, steps[0]), steps[1..], id, LoadOf(s, steps[0], id, last))
  }

  ghost function LoadOf(s: State, step: Step, id: AssetId, last: Option<Outcome>): Option<Outcome> {
    if step.ApplyStep? && OutcomeOf(s.applying, id).Some? then OutcomeOf(s.applying, id) else last
  }

  predicate Usable(e: Entry) { e.state == Decoded || e.state == Ready }

  /** A usable asset shows the figures of the import last applied to it. */
  predicate Shows(s: State, id: AssetId, last: Option<Outcome>) {
    id in s.entries && Usable(s.entries[id]) ==>
      var e := s.entries[id];
      && last.Some? && last.value.Imported?
      && e.bytes == last.value.bytes && e.loadedAt == last.value.modified && e.error == ""
      && (e.payload == None || e.payload == Some(last.value.payload))
  }

  lemma StepShows(s: State, step: Step, id: AssetId, last: Option<Outcome>)
    requires Sound(s) && Enabled(s, step) && Shows(s, id, last)
    ensures Shows(Next(s, step), id, LoadOf(s, step, id, last))
  {
    if step.ApplyStep? && id in s.entries {
      ApplyDoes(s, id);
      hide Apply;
    } else if step.ApplyStep? {
      KeysStay(s.entries, s.applying);
    }
    hide Sound, ApplyAll, OutcomeOf;
  }

  lemma {:induction false} RunShows(s: State, steps: seq<Step>, id: AssetId, last: Option<Outcome>)
    requires Sound(s) && Possible(s, steps) && Shows(s, id, last)
    ensures Shows(Run(s, steps), id, LastLoad(s, steps, id, last))
    decreases |steps|
  {
    hide Sound, Enabled, Next, Shows, LoadOf;
    if steps != [] {
      StepShows(s, steps[0], id, last);
      StepKeeps(s, steps[0]);
      RunShows(Next(s, steps[0]), steps[1..], id, LoadOf(s, steps[0], id, last));
    }
  }

  /** In every run an asset is Decoded or Ready only if the last load applied to it was an import; then it has
      no error, and its bytes, its time and, until it is taken, its payload are that import's. */
  lemma OnlyImportsAreUsable(workers: nat, caching: bool, steps: seq<Step>, id: AssetId)
    requires Possible(Started(workers, caching), steps)
    ensures var s := Run(Started(workers, caching), steps);
      var last := LastLoad(Started(workers, caching), steps, id, None);
      id in s.entries && (s.entries[id].state == Decoded || s.entries[id].state == Ready) ==>
        && last.Some? && last.value.Imported? && s.entries[id].error == ""
        && s.entries[id].bytes == last.value.bytes && s.entries[id].loadedAt == last.value.modified
        && (s.entries[id].payload == None || s.entries[id].payload == Some(last.value.payload))
  {
    StartedIsSound(workers, caching);
    hide Sound, Run, Possible, LastLoad;
    RunShows(Started(workers, caching), steps, id, None);
  }

  // ---------------------------------------------------------------- the other sections

  /** A request makes an entry, queued and empty, and one job, for an asset not known, and does nothing for one
      that is. */
  lemma AskDoes(s: State, id: AssetId)
    ensures var t := Ask(s, id);
      && (id in s.entries ==> t == s)
      && (id !in s.entries ==>
            && t.entries.Keys == s.entries.Keys + {id} && t.unpushed == s.unpushed + multiset{id}
            && t.entries[id].state == Queued && t.entries[id].payload == None && t.entries[id].loadCount == 0
            && t.entries[id].loadedAt == None && t.entries[id].error == "" && t.entries[id].bytes == 0
            && t.queue == s.queue && t.workers == s.workers
            && forall x :: x in s.entries ==> t.entries[x] == s.entries[x])
  {
  }

  /** Jobs are run in the order they were pushed. */
  lemma JobsAreFirstInFirstOut(s: State, id: AssetId, w: nat)
    requires w < |s.workers| && s.queue != []
    ensures Push(s, id).queue == s.queue + [id] && Push(s, id).entries == s.entries
    ensures Pop(s, w).queue == s.queue[1..] && Pop(s, w).workers[w] == Popped(s.queue[0]) && Pop(s, w).entries == s.entries
  {
  }

  /** Calling a decoded asset ready counts one load and clears its error; failing it says why. Nothing else
      about it and no other asset is touched. */
  lemma SettlingDoes(s: State, id: AssetId, reason: string)
    requires id in s.entries
    ensures var (r, f, e) := (MarkReady(s, id), MarkFailed(s, id, reason), s.entries[id]);
      && r == s.(entries := r.entries) && f == s.(entries := f.entries)
      && r.entries.Keys == f.entries.Keys == s.entries.Keys
      && (forall x :: x in s.entries && x != id ==> r.entries[x] == f.entries[x] == s.entries[x])
      && r.entries[id].state == Ready && r.entries[id].loadCount == e.loadCount + 1 && r.entries[id].error == ""
      && r.entries[id].payload == e.payload && r.entries[id].bytes == e.bytes && r.entries[id].loadedAt == e.loadedAt
      && f.entries[id].state == AssetState.Failed && f.entries[id].error == reason
      && f.entries[id].loadCount == e.loadCount && f.entries[id].payload == e.payload
      && f.entries[id].bytes == e.bytes && f.entries[id].loadedAt == e.loadedAt
  {
  }

  /** A payload is given away once. */
  lemma TakingDoes(s: State, id: AssetId)
    requires id in s.entries
    ensures var t := TakePayload(s, id);
      && t == s.(entries := s.entries[id := t.entries[id]]) && t.entries[id] == s.entries[id].(payload := None)
  {
  }

  /** A reload queues again just the assets that are Ready or Failed and whose file is there with a time later
      than what was loaded, or of which no time is known: each gets one job and is otherwise as it was. */
  lemma ReloadDoes(s: State, modified: map<AssetId, Time>, id: AssetId)
    ensures var t := Reload(s, modified);
      var stale := id in s.entries && (s.entries[id].state == Ready || s.entries[id].state == AssetState.Failed)
        && id in modified && (s.entries[id].loadedAt == None || modified[id] > s.entries[id].loadedAt.value);
      && (id in t.entries <==> id in s.entries)
      && (id in s.entries ==> t.entries[id] == if stale then s.entries[id].(state := Queued) else s.entries[id])
      && t.unpushed[id] == s.unpushed[id] + (if stale then 1 else 0)
      && t.queue == s.queue && t.workers == s.workers && t.completions == s.completions && t.applying == s.applying
  {
    var ids := ChangedIds(s.entries, modified);
    var each: multiset<AssetId> := multiset(ids);
    assert each[id] == One(id in ids);
  }

  /** So an asset loaded from a file of a known time, and ready, is reloaded exactly when its file is newer. */
  lemma ReloadedWhenNewer(s: State, id: AssetId, loaded: Time, modified: map<AssetId, Time>)
    requires Sound(s) && id in s.entries && OutcomeOf(s.applying, id).Some?
    requires var o := OutcomeOf(s.applying, id).value; o.Imported? && o.modified == Some(loaded)
    requires id in modified
    ensures var t := MarkReady(Apply(s), id);
      && id in t.entries && t.entries[id].state == Ready
      && (Reload(t, modified).entries[id].state == Queued <==> modified[id] > loaded)
  {
    ApplyDoes(s, id);
    hide Sound, Apply, OutcomeOf;
    SettlingDoes(Apply(s), id, "");
    ReloadDoes(MarkReady(Apply(s), id), modified, id);
    hide Reload, MarkReady;
  }

  /** A worker's mark puts its own asset, queued until then, into loading, and what it runs and hands over is
      that asset's. */
  lemma WorkerDoes(s: State, w: nat, outcome: Outcome)
    requires Sound(s) && w < |s.workers| && s.workers[w].Popped?
    ensures var id := s.workers[w].id;
      var (m, r) := (Mark(s, w), RunJob(Mark(s, w), w, outcome));
      && id in s.entries && s.entries[id].state == Queued
      && m.entries == s.entries[id := s.entries[id].(state := Loading)] && m.workers[w] == Marked(id)
      && r.entries == m.entries && Hand(r, w).entries == m.entries
      && Hand(r, w).completions == s.completions + [Completion(id, outcome)] && Hand(r, w).workers[w] == Idle
  {
    assert SoundAt(s, s.workers[w].id);
    MarkFindsQueued(s, w);
    hide SoundAt, Sound;
  }

  // ---------------------------------------------------------------- the cache's figures

  predicate CameFrom(known: set<AssetId>, c: Completion, from: Texture) {
    c.id in known && c.outcome.Imported? && c.outcome.texture == from
  }

  function PlacesFrom(known: set<AssetId>, finished: seq<Completion>, from: Texture): set<nat> {
    set j: nat | j < |finished| && CameFrom(known, finished[j], from)
  }

  lemma {:induction false} TexturesCounted(known: set<AssetId>, finished: seq<Completion>, from: Texture)
    ensures Textures(known, finished, from) == |PlacesFrom(known, finished, from)|
  {
    if finished != [] {
      var n := |finished| - 1;
      TexturesCounted(known, finished[..n], from);
      OnePlaceMore(known, finished, from);
      hide PlacesFrom;
    } else {
      assert PlacesFrom(known, finished, from) == {};
    }
  }

  lemma OnePlaceMore(known: set<AssetId>, finished: seq<Completion>, from: Texture)
    requires finished != []
    ensures var n := |finished| - 1;
      |PlacesFrom(known, finished, from)|
      == |PlacesFrom(known, finished[..n], from)| + (if CameFrom(known, finished[n], from) then 1 else 0)
  {
    var n := |finished| - 1;
    PlacesBefore(known, finished, from);
    LastPlace(known, finished, from);
    hide PlacesFrom, CameFrom;
    var before, all := PlacesFrom(known, finished[..n], from), PlacesFrom(known, finished, from);
    if n in all {
      assert all == before + {n};
    } else {
      assert all == before;
    }
  }

  lemma PlacesBefore(known: set<AssetId>, finished: seq<Completion>, from: Texture)
    requires finished != []
    ensures PlacesFrom(known, finished[..|finished| - 1], from) == PlacesFrom(known, finished, from) - {|finished| - 1}
  {
    hide CameFrom;
  }

  lemma LastPlace(known: set<AssetId>, finished: seq<Completion>, from: Texture)
    requires finished != []
    ensures |finished| - 1 in PlacesFrom(known, finished, from) <==> CameFrom(known, finished[|finished| - 1], from)
  {
    hide CameFrom;
  }

  /** A pump adds to the hits its loads of textures decoded before, and to the misses, if there is a cache at
      all, those decoded from their files; loads of other kinds, failed ones and unknown ones count as neither. */
  lemma CacheCounted(s: State)
    ensures var known, t := s.entries.Keys, Apply(s);
      && t.hits == s.hits + |PlacesFrom(known, s.applying, FromCache)|
      && t.misses == s.misses + (if s.caching then |PlacesFrom(known, s.applying, FromFile)| else 0)
  {
    TexturesCounted(s.entries.Keys, s.applying, FromCache);
    TexturesCounted(s.entries.Keys, s.applying, FromFile);
    hide Textures, ApplyAll, PlacesFrom;
  }

  // ---------------------------------------------------------------- the stalls

  /** What applying the loads can make of an entry, as far as a stall goes. */
  predicate StallKept(before: Entry, after: Entry) {
    && (after.stallReported ==> before.stallReported)
    && (after == before || after.state == AssetState.Failed || (after.state == Decoded && after.decodedPumps == 0))
  }

  lemma {:induction false} ApplyingKeepsStall(entries: map<AssetId, Entry>, finished: seq<Completion>, id: AssetId)
    requires id in entries
    ensures id in ApplyAll(entries, finished) && StallKept(entries[id], ApplyAll(entries, finished)[id])
  {
    if finished != [] {
      ApplyingKeepsStall(entries, finished[..|finished| - 1], id);
    }
  }

  lemma StallNoted(before: Entry, applied: Entry)
    requires StallKept(before, applied)
    ensures Stalls(applied) <==> Wait(applied).stallReported && !before.stallReported
  {
  }

  /** The assets a pump reports. */
  function Reported(s: State, t: State): set<AssetId> {
    set id | id in s.entries && id in t.entries && t.entries[id].stallReported && !s.entries[id].stallReported
  }

  /** The stalled figure counts each report once, and nothing else. */
  lemma StallsCounted(s: State)
    ensures Apply(s).stalled == s.stalled + |Reported(s, Apply(s))|
  {
    var applied, t := ApplyAll(s.entries, s.applying), Apply(s);
    KeysStay(s.entries, s.applying);
    forall id | id in s.entries ensures id in Reported(s, t) <==> Stalls(applied[id]) {
      ApplyingKeepsStall(s.entries, s.applying, id);
      StallNoted(s.entries[id], applied[id]);
    }
    hide ApplyAll, Textures, Stalls, Wait;
    var stalling := set id | id in applied && Stalls(applied[id]);
    assert Reported(s, t) == stalling;
    StalledFigure(s, stalling);
  }

  lemma StalledFigure(s: State, stalling: set<AssetId>)
    requires var applied := ApplyAll(s.entries, s.applying);
      stalling == set id | id in applied && Stalls(applied[id])
    ensures Apply(s).stalled == s.stalled + |stalling|
  {
    hide ApplyAll, Textures, Stalls, Wait;
    var applied := ApplyAll(s.entries, s.applying);
    assert (set id | id in applied && Stalls(applied[id])) == stalling;
  }
}
