/** The asset registry as its threads run it: each section under a lock is one step, and the steps of the
    requesting threads, the workers and the main thread may come in any order. */
module AssetPipeline {
  import opened Forests

  type AssetId = nat
  type Time = int

  datatype AssetState = Unloaded | Queued | Loading | Decoded | Ready | Failed

  /** Whether a load was of a texture, and of one decoded before. */
  datatype Texture = NoTexture | FromFile | FromCache

  /** What reading and decoding a file came to: a payload of some size, or a reason. */
  datatype Outcome =
    | Imported(payload: int, bytes: nat, modified: Option<Time>, texture: Texture)
    | Error(reason: string)

  datatype Completion = Completion(id: AssetId, outcome: Outcome)

  datatype Entry = Entry(
    state: AssetState, error: string, bytes: nat, payload: Option<int>, loadedAt: Option<Time>,
    loadCount: nat, decodedPumps: nat, stallReported: bool)

  /** Where a worker stands between its critical sections. */
  datatype Worker = Idle | Popped(id: AssetId) | Marked(id: AssetId) | Ran(completion: Completion)

  /** `unpushed` holds jobs whose entry was made but which are not in the queue yet; `applying`, what the
      main thread has taken from the completions. The last three count, for each asset, the loads asked
      for, begun and applied. */
  datatype State = State(
    entries: map<AssetId, Entry>, unpushed: multiset<AssetId>, queue: seq<AssetId>, workers: seq<Worker>,
    completions: seq<Completion>, applying: seq<Completion>, stalled: nat,
    caching: bool, hits: nat, misses: nat,
    granted: multiset<AssetId>, started: multiset<AssetId>, applied: multiset<AssetId>)

  const STALLED_PUMPS := 600

  function Asked(): Entry {
    Entry(Queued, "", 0, None, None, 0, 0, false)
  }

  // ---------------------------------------------------------------- the sections

  /** The first section of a request: an asset already known is not loaded again. */
  function Ask(s: State, id: AssetId): State {
    if id in s.entries then s
    else s.(entries := s.entries[id := Asked()], unpushed := s.unpushed + multiset{id},
            granted := s.granted + multiset{id})
  }

  /** A job leaves the thread that made it and joins the queue. */
  function Push(s: State, id: AssetId): State {
    s.(unpushed := s.unpushed - multiset{id}, queue := s.queue + [id])
  }

  function Pop(s: State, w: nat): State
    requires w < |s.workers| && s.queue != []
  {
    s.(queue := s.queue[1..], workers := s.workers[w := Popped(s.queue[0])])
  }

  function Mark(s: State, w: nat): State
    requires w < |s.workers| && s.workers[w].Popped?
  {
    var id := s.workers[w].id;
    s.(entries := if id in s.entries then s.entries[id := s.entries[id].(state := Loading)] else s.entries,
       workers := s.workers[w := Marked(id)], started := s.started + multiset{id})
  }

  function RunJob(s: State, w: nat, outcome: Outcome): State
    requires w < |s.workers| && s.workers[w].Marked?
  {
    s.(workers := s.workers[w := Ran(Completion(s.workers[w].id, outcome))])
  }

  function Hand(s: State, w: nat): State
    requires w < |s.workers| && s.workers[w].Ran?
  {
    s.(workers := s.workers[w := Idle], completions := s.completions + [s.workers[w].completion])
  }

  function Swap(s: State): State {
    s.(applying := s.completions, completions := [])
  }

  function Finish(entry: Entry, outcome: Outcome): Entry {
    match outcome
    case Error(reason) => entry.(state := AssetState.Failed, error := reason)
    case Imported(payload, bytes, modified, _) =>
      entry.(state := Decoded, error := "", bytes := bytes, payload := Some(payload), loadedAt := modified,
             decodedPumps := 0, stallReported := false)
  }

  function ApplyOne(entries: map<AssetId, Entry>, c: Completion): map<AssetId, Entry> {
    if c.id in entries then entries[c.id := Finish(entries[c.id], c.outcome)] else entries
  }

  function ApplyAll(entries: map<AssetId, Entry>, finished: seq<Completion>): map<AssetId, Entry> {
    if finished == [] then entries
    else ApplyOne(ApplyAll(entries, finished[..|finished| - 1]), finished[|finished| - 1])
  }

  /** How many of the loads applied were of a texture that came from there. */
  function Textures(known: set<AssetId>, finished: seq<Completion>, from: Texture): nat {
    if finished == [] then 0
    else
      var c := finished[|finished| - 1];
      Textures(known, finished[..|finished| - 1], from)
      + (if c.id in known && c.outcome.Imported? && c.outcome.texture == from then 1 else 0)
  }

  /** One pump's wait of a decoded asset: counted, and reported once when it has gone on too long. */
  function Wait(entry: Entry): Entry {
    if entry.state != Decoded then entry
    else if entry.decodedPumps < STALLED_PUMPS then entry.(decodedPumps := entry.decodedPumps + 1)
    else entry.(stallReported := true)
  }

  predicate Stalls(entry: Entry) {
    entry.state == Decoded && entry.decodedPumps >= STALLED_PUMPS && !entry.stallReported
  }

  function WaitAll(entries: map<AssetId, Entry>): map<AssetId, Entry> {
    map id | id in entries :: Wait(entries[id])
  }

  function Apply(s: State): State {
    var entries := ApplyAll(s.entries, s.applying);
    s.(entries := WaitAll(entries), applying := [], applied := s.applied + multiset(Ids(s.applying)),
       stalled := s.stalled + |set id | id in entries && Stalls(entries[id])|,
       hits := s.hits + Textures(s.entries.Keys, s.applying, FromCache),
       misses := s.misses + (if s.caching then Textures(s.entries.Keys, s.applying, FromFile) else 0))
  }

  function TakePayload(s: State, id: AssetId): State {
    if id in s.entries then s.(entries := s.entries[id := s.entries[id].(payload := None)]) else s
  }

  function MarkReady(s: State, id: AssetId): State {
    if id in s.entries then
      var e := s.entries[id];
      s.(entries := s.entries[id := e.(state := Ready, loadCount := e.loadCount + 1, error := "")])
    else s
  }

  function MarkFailed(s: State, id: AssetId, reason: string): State {
    if id in s.entries then s.(entries := s.entries[id := s.entries[id].(state := AssetState.Failed, error := reason)]) else s
  }

  predicate IsSettled(state: AssetState) { state == Ready || state == AssetState.Failed }

  /** The settled assets whose file is newer than what was read; `modified` is what the file system says. */
  predicate Changed(entry: Entry, id: AssetId, modified: map<AssetId, Time>) {
    IsSettled(entry.state) && id in modified && (entry.loadedAt.Some? ==> modified[id] > entry.loadedAt.value)
  }

  function ChangedIds(entries: map<AssetId, Entry>, modified: map<AssetId, Time>): set<AssetId> {
    set id | id in entries && Changed(entries[id], id, modified)
  }

  function Requeued(entries: map<AssetId, Entry>, ids: set<AssetId>): map<AssetId, Entry> {
    map id | id in entries :: if id in ids then entries[id].(state := Queued) else entries[id]
  }

  function Reload(s: State, modified: map<AssetId, Time>): State {
    var ids := ChangedIds(s.entries, modified);
    s.(entries := Requeued(s.entries, ids), unpushed := s.unpushed + multiset(ids),
       granted := s.granted + multiset(ids))
  }

  // ---------------------------------------------------------------- tokens

  function Ids(finished: seq<Completion>): (ids: seq<AssetId>)
    ensures |ids| == |finished|
  {
    if finished == [] then [] else Ids(finished[..|finished| - 1]) + [finished[|finished| - 1].id]
  }

  function Count(ids: seq<AssetId>, id: AssetId): nat { multiset(ids)[id] }

  function One(yes: bool): nat { if yes then 1 else 0 }

  /** How many workers hold the asset's load, not yet begun and begun. */
  function Waiters(workers: seq<Worker>, id: AssetId): nat {
    if workers == [] then 0
    else Waiters(workers[..|workers| - 1], id) + One(WaitsOn(workers[|workers| - 1], id))
  }

  function Runners(workers: seq<Worker>, id: AssetId): nat {
    if workers == [] then 0
    else Runners(workers[..|workers| - 1], id) + One(RunsOn(workers[|workers| - 1], id))
  }

  predicate WaitsOn(w: Worker, id: AssetId) { w.Popped? && w.id == id }

  predicate RunsOn(w: Worker, id: AssetId) { (w.Marked? && w.id == id) || (w.Ran? && w.completion.id == id) }

  /** An asset's load tokens not yet begun, and begun. */
  function Waiting(s: State, id: AssetId): nat {
    s.unpushed[id] + Count(s.queue, id) + Waiters(s.workers, id)
  }

  function Working(s: State, id: AssetId): nat {
    Runners(s.workers, id) + Count(Ids(s.completions), id) + Count(Ids(s.applying), id)
  }

  predicate HasState(s: State, id: AssetId, state: AssetState) {
    id in s.entries && s.entries[id].state == state
  }

  /** The asset has exactly one load token while Queued or Loading, at the stage its state says, and none
      otherwise; and every load of it asked for is waiting, at work, or applied. */
  predicate SoundAt(s: State, id: AssetId) {
    && !HasState(s, id, Unloaded)
    && Waiting(s, id) == One(HasState(s, id, Queued))
    && Working(s, id) == One(HasState(s, id, Loading))
    && s.granted[id] == s.started[id] + Waiting(s, id)
    && s.started[id] == s.applied[id] + Working(s, id)
  }

  ghost predicate Sound(s: State) {
    forall id :: SoundAt(s, id)
  }

  // ---------------------------------------------------------------- steps

  datatype Step =
    | AskStep(id: AssetId) | PushStep(id: AssetId)
    | PopStep(w: nat) | MarkStep(w: nat) | RunStep(w: nat, outcome: Outcome) | HandStep(w: nat)
    | SwapStep | ApplyStep
    | TakeStep(id: AssetId) | ReadyStep(id: AssetId) | FailedStep(id: AssetId, reason: string)
    | ReloadStep(modified: map<AssetId, Time>)

  /** A finaliser settles only what is decoded. */
  predicate Settleable(s: State, id: AssetId) {
    id in s.entries ==> s.entries[id].state == Decoded
  }

  predicate Enabled(s: State, step: Step) {
    match step
    case AskStep(_) => true
    case PushStep(id) => id in s.unpushed
    case PopStep(w) => w < |s.workers| && s.workers[w].Idle? && s.queue != []
    case MarkStep(w) => w < |s.workers| && s.workers[w].Popped?
    case RunStep(w, _) => w < |s.workers| && s.workers[w].Marked?
    case HandStep(w) => w < |s.workers| && s.workers[w].Ran?
    case SwapStep => s.applying == []
    case ApplyStep => true
    case TakeStep(_) => true
    case ReadyStep(id) => Settleable(s, id)
    case FailedStep(id, _) => Settleable(s, id)
    case ReloadStep(_) => true
  }

  function Next(s: State, step: Step): State
    requires Enabled(s, step)
  {
    match step
    case AskStep(id) => Ask(s, id)
    case PushStep(id) => Push(s, id)
    case PopStep(w) => Pop(s, w)
    case MarkStep(w) => Mark(s, w)
    case RunStep(w, outcome) => RunJob(s, w, outcome)
    case HandStep(w) => Hand(s, w)
    case SwapStep => Swap(s)
    case ApplyStep => Apply(s)
    case TakeStep(id) => TakePayload(s, id)
    case ReadyStep(id) => MarkReady(s, id)
    case FailedStep(id, reason) => MarkFailed(s, id, reason)
    case ReloadStep(modified) => Reload(s, modified)
  }

  /** Every step enabled when its turn comes. */
  predicate Possible(s: State, steps: seq<Step>)
    decreases |steps|
  {
    steps == [] || (Enabled(s, steps[0]) && Possible(Next(s, steps[0]), steps[1..]))
  }

  function Run(s: State, steps: seq<Step>): State
    requires Possible(s, steps)
    decreases |steps|
  {
    if steps == [] then s else Run(Next(s, steps[0]), steps[1..])
  }

  /** A registry with its workers started and nothing asked for, with or without a cache of textures. */
  function Started(workers: nat, caching: bool): State {
    State(map[], multiset{}, [], seq(workers, _ => Idle), [], [], 0, caching, 0, 0, multiset{}, multiset{}, multiset{})
  }

  // ---------------------------------------------------------------- moving tokens

  lemma {:induction false} WorkerMoves(workers: seq<Worker>, w: nat, to: Worker, x: AssetId)
    requires w < |workers|
    ensures Waiters(workers[w := to], x) + One(WaitsOn(workers[w], x)) == Waiters(workers, x) + One(WaitsOn(to, x))
    ensures Runners(workers[w := to], x) + One(RunsOn(workers[w], x)) == Runners(workers, x) + One(RunsOn(to, x))
    decreases |workers|
  {
    hide WaitsOn, RunsOn, One;
    var n := |workers| - 1;
    if w < n {
      WorkerMoves(workers[..n], w, to, x);
      assert workers[w := to][..n] == workers[..n][w := to];
    } else {
      assert workers[w := to][..n] == workers[..n];
    }
  }

  lemma IdsAppend(finished: seq<Completion>, c: Completion, x: AssetId)
    ensures Count(Ids(finished + [c]), x) == Count(Ids(finished), x) + One(c.id == x)
  {
    assert (finished + [c])[..|finished|] == finished;
  }

  lemma QueueMoves(queue: seq<AssetId>, id: AssetId, x: AssetId)
    ensures Count(queue + [id], x) == Count(queue, x) + One(id == x)
    ensures queue != [] ==> Count(queue, x) == Count(queue[1..], x) + One(queue[0] == x)
  {
    if queue != [] {
      assert queue == [queue[0]] + queue[1..];
    }
  }

  lemma AskKeeps(s: State, id: AssetId, x: AssetId)
    requires SoundAt(s, x)
    ensures SoundAt(Ask(s, id), x)
  {
    hide Waiters, Runners, Count;
  }

  lemma PushKeeps(s: State, id: AssetId, x: AssetId)
    requires SoundAt(s, x) && id in s.unpushed
    ensures SoundAt(Push(s, id), x)
  {
    hide Waiters, Runners, Count;
    QueueMoves(s.queue, id, x);
  }

  lemma PopKeeps(s: State, w: nat, x: AssetId)
    requires SoundAt(s, x) && w < |s.workers| && s.workers[w].Idle? && s.queue != []
    ensures SoundAt(Pop(s, w), x)
  {
    hide Waiters, Runners, Count;
    QueueMoves(s.queue, 0, x);
    WorkerMoves(s.workers, w, Popped(s.queue[0]), x);
  }

  /** A worker's mark always finds its asset Queued: it never overwrites Decoded, Ready or Failed. */
  lemma MarkFindsQueued(s: State, w: nat)
    requires w < |s.workers| && s.workers[w].Popped? && SoundAt(s, s.workers[w].id)
    ensures HasState(s, s.workers[w].id, Queued)
  {
    hide Waiters, Runners, Count;
    WorkerMoves(s.workers, w, Idle, s.workers[w].id);
  }

  lemma MarkKeeps(s: State, w: nat, x: AssetId)
    requires w < |s.workers| && s.workers[w].Popped? && SoundAt(s, s.workers[w].id) && SoundAt(s, x)
    ensures SoundAt(Mark(s, w), x)
  {
    MarkFindsQueued(s, w);
    hide Waiters, Runners, Count;
    WorkerMoves(s.workers, w, Marked(s.workers[w].id), x);
  }

  lemma RunKeeps(s: State, w: nat, outcome: Outcome, x: AssetId)
    requires SoundAt(s, x) && w < |s.workers| && s.workers[w].Marked?
    ensures SoundAt(RunJob(s, w, outcome), x)
  {
    hide Waiters, Runners, Count;
    WorkerMoves(s.workers, w, Ran(Completion(s.workers[w].id, outcome)), x);
  }

  lemma HandKeeps(s: State, w: nat, x: AssetId)
    requires SoundAt(s, x) && w < |s.workers| && s.workers[w].Ran?
    ensures SoundAt(Hand(s, w), x)
  {
    hide Waiters, Runners, Count, Ids;
    WorkerMoves(s.workers, w, Idle, x);
    IdsAppend(s.completions, s.workers[w].completion, x);
  }

  lemma SwapKeeps(s: State, x: AssetId)
    requires SoundAt(s, x) && s.applying == []
    ensures SoundAt(Swap(s), x)
  {
    hide Waiters, Runners, Count;
  }

  /** Applying what finished settles exactly the assets it names, each as its own load came out. */
  lemma {:induction false} ApplyAllStates(entries: map<AssetId, Entry>, finished: seq<Completion>, x: AssetId)
    ensures x in ApplyAll(entries, finished) <==> x in entries
    ensures x in entries && Count(Ids(finished), x) == 0 ==> ApplyAll(entries, finished)[x] == entries[x]
    ensures (x in entries && Count(Ids(finished), x) > 0)
              ==> ApplyAll(entries, finished)[x].state in {Decoded, AssetState.Failed}
    decreases |finished|
  {
    hide Count, Ids;
    if finished == [] {
      assert Count(Ids([]), x) == 0 by { NoneCounted(x); }
    } else {
      var n := |finished| - 1;
      ApplyAllStates(entries, finished[..n], x);
      IdsAppend(finished[..n], finished[n], x);
      assert finished == finished[..n] + [finished[n]];
    }
  }

  lemma NoneCounted(x: AssetId)
    ensures Count(Ids([]), x) == 0
  {
  }

  /** Each completion is applied as it came, since no asset has two. */
  lemma {:induction false} ApplyAllOutcome(entries: map<AssetId, Entry>, finished: seq<Completion>, k: nat)
    requires k < |finished| && finished[k].id in entries && Count(Ids(finished), finished[k].id) == 1
    ensures finished[k].id in ApplyAll(entries, finished)
    ensures ApplyAll(entries, finished)[finished[k].id] == Finish(entries[finished[k].id], finished[k].outcome)
    decreases |finished|
  {
    hide Count, Ids, Finish;
    var n, id := |finished| - 1, finished[k].id;
    IdsAppend(finished[..n], finished[n], id);
    assert finished == finished[..n] + [finished[n]];
    ApplyAllStates(entries, finished[..n], id);
    if k < n {
      IdCounted(finished[..n], k);
      ApplyAllOutcome(entries, finished[..n], k);
    }
  }

  lemma {:induction false} IdCounted(finished: seq<Completion>, k: nat)
    requires k < |finished|
    ensures Count(Ids(finished), finished[k].id) > 0
    decreases |finished|
  {
    hide Count, Ids;
    var n := |finished| - 1;
    IdsAppend(finished[..n], finished[n], finished[k].id);
    assert finished == finished[..n] + [finished[n]];
    if k < n {
      IdCounted(finished[..n], k);
    }
  }

  lemma ApplyKeeps(s: State, x: AssetId)
    requires SoundAt(s, x)
    ensures SoundAt(Apply(s), x)
  {
    hide Waiters, Runners, ApplyAll, Ids, Stalls;
    ApplyAllStates(s.entries, s.applying, x);
    NoneCounted(x);
  }

  lemma ReloadKeeps(s: State, modified: map<AssetId, Time>, x: AssetId)
    requires SoundAt(s, x)
    ensures SoundAt(Reload(s, modified), x)
  {
    hide Waiters, Runners, Count;
    var ids := ChangedIds(s.entries, modified);
    var each: multiset<AssetId> := multiset(ids);
    assert each[x] == One(x in ids);
  }

  lemma TakeKeeps(s: State, id: AssetId, x: AssetId)
    requires SoundAt(s, x)
    ensures SoundAt(TakePayload(s, id), x)
  {
    hide Waiters, Runners, Count;
  }

  predicate InFlight(s: State, id: AssetId) {
    HasState(s, id, Queued) || HasState(s, id, Loading)
  }

  lemma MarkReadyKeepsAt(s: State, id: AssetId, x: AssetId)
    requires SoundAt(s, x)
    ensures SoundAt(MarkReady(s, id), x) <==> !(x == id && InFlight(s, id))
  {
    hide Waiters, Runners, Count;
  }

  /** Calling an asset ready keeps the tokens right exactly when the asset is not in flight. */
  lemma MarkReadyKeepsIff(s: State, id: AssetId)
    requires Sound(s)
    ensures Sound(MarkReady(s, id)) <==> !InFlight(s, id)
  {
    hide SoundAt;
    forall x ensures SoundAt(MarkReady(s, id), x) <==> !(x == id && InFlight(s, id)) {
      MarkReadyKeepsAt(s, id, x);
    }
    assert SoundAt(MarkReady(s, id), id) <==> !InFlight(s, id);
  }

  lemma MarkFailedKeepsAt(s: State, id: AssetId, reason: string, x: AssetId)
    requires SoundAt(s, x)
    ensures SoundAt(MarkFailed(s, id, reason), x) <==> !(x == id && InFlight(s, id))
  {
    hide Waiters, Runners, Count;
  }

  lemma MarkFailedKeepsIff(s: State, id: AssetId, reason: string)
    requires Sound(s)
    ensures Sound(MarkFailed(s, id, reason)) <==> !InFlight(s, id)
  {
    hide SoundAt;
    forall x ensures SoundAt(MarkFailed(s, id, reason), x) <==> !(x == id && InFlight(s, id)) {
      MarkFailedKeepsAt(s, id, reason, x);
    }
    assert SoundAt(MarkFailed(s, id, reason), id) <==> !InFlight(s, id);
  }

  lemma StepKeepsAt(s: State, step: Step, x: AssetId)
    requires Sound(s) && Enabled(s, step)
    ensures SoundAt(Next(s, step), x)
  {
    hide SoundAt, Ask, Push, Pop, Mark, RunJob, Hand, Swap, Apply, TakePayload, MarkReady, MarkFailed, Reload;
    assert SoundAt(s, x);
    match step
    case AskStep(id) => AskKeeps(s, id, x);
    case PushStep(id) => PushKeeps(s, id, x);
    case PopStep(w) => PopKeeps(s, w, x);
    case MarkStep(w) => MarkKeeps(s, w, x);
    case RunStep(w, outcome) => RunKeeps(s, w, outcome, x);
    case HandStep(w) => HandKeeps(s, w, x);
    case SwapStep => SwapKeeps(s, x);
    case ApplyStep => ApplyKeeps(s, x);
    case TakeStep(id) => TakeKeeps(s, id, x);
    case ReadyStep(id) => MarkReadyKeepsAt(s, id, x);
    case FailedStep(id, reason) => MarkFailedKeepsAt(s, id, reason, x);
    case ReloadStep(modified) => ReloadKeeps(s, modified, x);
  }

  lemma StepKeeps(s: State, step: Step)
    requires Sound(s) && Enabled(s, step)
    ensures Sound(Next(s, step))
  {
    hide SoundAt, Enabled, Next;
    forall x ensures SoundAt(Next(s, step), x) {
      StepKeepsAt(s, step, x);
    }
  }

  lemma {:induction false} NoWorkers(n: nat, x: AssetId)
    ensures Waiters(seq(n, _ => Idle), x) == 0 && Runners(seq(n, _ => Idle), x) == 0
  {
    if n > 0 {
      NoWorkers(n - 1, x);
      assert seq(n, _ => Idle)[..n - 1] == seq(n - 1, _ => Idle);
    }
  }

  lemma StartedIsSound(workers: nat, caching: bool)
    ensures Sound(Started(workers, caching))
  {
    hide Waiters, Runners;
    forall x ensures SoundAt(Started(workers, caching), x) {
      NoWorkers(workers, x);
      NoneCounted(x);
    }
  }

  /** In every run, however the threads interleave, each asset has exactly one load token while Queued or
      Loading and none otherwise, so nothing is loaded twice at once. */
  lemma {:induction false} RunIsSound(s: State, steps: seq<Step>)
    requires Sound(s) && Possible(s, steps)
    ensures Sound(Run(s, steps))
    decreases |steps|
  {
    hide Sound, Enabled, Next;
    if steps != [] {
      StepKeeps(s, steps[0]);
      RunIsSound(Next(s, steps[0]), steps[1..]);
    }
  }

  /** A state some run of a registry leads to, from the moment its workers start. */
  ghost predicate Reached(s: State, workers: nat, caching: bool, steps: seq<Step>) {
    Possible(Started(workers, caching), steps) && s == Run(Started(workers, caching), steps)
  }

  /** So nothing is ever loaded twice at once: in every reachable state an asset has one load token while it
      is Queued or Loading and none otherwise, and every load of it asked for is waiting, at work or applied. */
  lemma OneLoadAtATime(s: State, workers: nat, caching: bool, steps: seq<Step>, id: AssetId)
    requires Reached(s, workers, caching, steps)
    ensures Waiting(s, id) + Working(s, id) == One(InFlight(s, id))
    ensures s.granted[id] == s.applied[id] + One(InFlight(s, id))
  {
    hide Sound, Run, Possible;
    StartedIsSound(workers, caching);
    RunIsSound(Started(workers, caching), steps);
    SoundMeans(s, id);
  }

  lemma SoundMeans(s: State, id: AssetId)
    requires Sound(s)
    ensures Waiting(s, id) + Working(s, id) == One(InFlight(s, id))
    ensures s.granted[id] == s.applied[id] + One(InFlight(s, id))
  {
    hide Waiting, Working;
    assert SoundAt(s, id);
  }

  /** Were an asset called ready while it is still queued, a changed file would queue it again: two tokens,
      so two workers may load it at once. */
  lemma TwoTokensIfReadyTooSoon()
    ensures Waiting(Reload(MarkReady(Ask(Started(2, false), 7), 7), map[7 := 1]), 7) == 2
  {
    var s := MarkReady(Ask(Started(2, false), 7), 7);
    NoWorkers(2, 7);
    assert Changed(s.entries[7], 7, map[7 := 1]);
    assert ChangedIds(s.entries, map[7 := 1]) == {7};
  }

  // ---------------------------------------------------------------- progress

  /** How many steps a worker still has before it is idle, and its job applied. */
  function LeftOf(w: Worker): nat {
    match w
    case Idle => 0
    case Popped(_) => 5
    case Marked(_) => 4
    case Ran(_) => 3
  }

  function LeftOfAll(workers: seq<Worker>): nat {
    if workers == [] then 0 else LeftOfAll(workers[..|workers| - 1]) + LeftOf(workers[|workers| - 1])
  }

  /** The steps left before every load is applied. */
  function Left(s: State): nat {
    7 * |s.unpushed| + 6 * |s.queue| + LeftOfAll(s.workers) + 2 * |s.completions| + |s.applying|
  }

  /** The steps that move a load along. */
  predicate Moves(s: State, step: Step)
    requires Enabled(s, step)
  {
    match step
    case AskStep(_) => false
    case PushStep(_) => true
    case PopStep(_) => true
    case MarkStep(_) => true
    case RunStep(_, _) => true
    case HandStep(_) => true
    case SwapStep => s.completions != []
    case ApplyStep => s.applying != []
    case TakeStep(_) => false
    case ReadyStep(_) => false
    case FailedStep(_, _) => false
    case ReloadStep(_) => false
  }

  lemma {:induction false} LeftMoves(workers: seq<Worker>, w: nat, to: Worker)
    requires w < |workers|
    ensures LeftOfAll(workers[w := to]) + LeftOf(workers[w]) == LeftOfAll(workers) + LeftOf(to)
    decreases |workers|
  {
    var n := |workers| - 1;
    if w < n {
      LeftMoves(workers[..n], w, to);
      assert workers[w := to][..n] == workers[..n][w := to];
    } else {
      assert workers[w := to][..n] == workers[..n];
    }
  }

  /** Without new requests or reloads the measure never rises, and a step that moves a load lowers it. */
  lemma StepLowers(s: State, step: Step)
    requires Enabled(s, step) && !step.AskStep? && !step.ReloadStep?
    ensures Left(Next(s, step)) <= Left(s)
    ensures Moves(s, step) ==> Left(Next(s, step)) < Left(s)
  {
    hide LeftOfAll;
    match step
    case AskStep(_) =>
    case PushStep(id) => assert s.unpushed == (s.unpushed - multiset{id}) + multiset{id};
    case PopStep(w) => LeftMoves(s.workers, w, Popped(s.queue[0]));
    case MarkStep(w) => LeftMoves(s.workers, w, Marked(s.workers[w].id));
    case RunStep(w, outcome) => LeftMoves(s.workers, w, Ran(Completion(s.workers[w].id, outcome)));
    case HandStep(w) => LeftMoves(s.workers, w, Idle);
    case SwapStep =>
    case ApplyStep =>
    case TakeStep(_) =>
    case ReadyStep(_) =>
    case FailedStep(_, _) =>
    case ReloadStep(_) =>
  }

  lemma {:induction false} BusyWorker(workers: seq<Worker>) returns (w: nat)
    requires LeftOfAll(workers) > 0
    ensures w < |workers| && !workers[w].Idle?
    decreases |workers|
  {
    var n := |workers| - 1;
    if workers[n].Idle? {
      w := BusyWorker(workers[..n]);
    } else {
      w := n;
    }
  }

  lemma SomeMember(m: multiset<AssetId>) returns (id: AssetId)
    requires m != multiset{}
    ensures id in m
  {
    NoMembers(m);
    id :| id in m;
  }

  lemma NoMembers(m: multiset<AssetId>)
    ensures (forall x :: x !in m) ==> m == multiset{}
  {
    if forall x :: x !in m {
      assert m == multiset{};
    }
  }

  /** While the measure is not zero, some step can lower it: with a worker there is never a deadlock. */
  lemma SomeStepMoves(s: State) returns (step: Step)
    requires Left(s) > 0 && s.workers != []
    ensures Enabled(s, step) && Moves(s, step)
  {
    if s.applying != [] {
      step := ApplyStep;
    } else if s.completions != [] {
      step := SwapStep;
    } else if LeftOfAll(s.workers) > 0 {
      var w := BusyWorker(s.workers);
      step := match s.workers[w]
        case Popped(_) => MarkStep(w)
        case Marked(_) => RunStep(w, Error(""))
        case Ran(_) => HandStep(w);
    } else if s.queue != [] {
      NoneBusy(s.workers, 0);
      step := PopStep(0);
    } else {
      var id := SomeMember(s.unpushed);
      step := PushStep(id);
    }
  }

  lemma {:induction false} NoneBusy(workers: seq<Worker>, w: nat)
    requires LeftOfAll(workers) == 0 && w < |workers|
    ensures workers[w].Idle?
    decreases |workers|
  {
    if w < |workers| - 1 {
      NoneBusy(workers[..|workers| - 1], w);
    }
  }

  lemma {:induction false} NoneOnIdle(workers: seq<Worker>, x: AssetId)
    requires LeftOfAll(workers) == 0
    ensures Waiters(workers, x) == 0 && Runners(workers, x) == 0
    decreases |workers|
  {
    if workers != [] {
      NoneOnIdle(workers[..|workers| - 1], x);
    }
  }

  /** If the measure is not zero, some asset has a token. */
  lemma SomeToken(s: State) returns (id: AssetId)
    requires Left(s) > 0
    ensures Waiting(s, id) > 0 || Working(s, id) > 0
  {
    hide Ids;
    if s.unpushed != multiset{} {
      id := SomeMember(s.unpushed);
    } else if s.queue != [] {
      id := s.queue[0];
    } else if s.completions != [] {
      id := s.completions[0].id;
      IdCounted(s.completions, 0);
    } else if s.applying != [] {
      id := s.applying[0].id;
      IdCounted(s.applying, 0);
    } else {
      var w := BusyWorker(s.workers);
      id := if s.workers[w].Ran? then s.workers[w].completion.id else s.workers[w].id;
      hide LeftOfAll, Waiters, Runners;
      WorkerMoves(s.workers, w, Idle, id);
    }
  }

  predicate Landed(s: State, id: AssetId) {
    id in s.entries ==> s.entries[id].state in {Decoded, Ready, AssetState.Failed}
  }

  lemma LandedAt(s: State, id: AssetId)
    requires SoundAt(s, id)
    ensures Landed(s, id) <==> Waiting(s, id) == 0 && Working(s, id) == 0
    ensures Landed(s, id) ==> s.granted[id] == s.started[id] == s.applied[id]
  {
    hide Waiting, Working;
  }

  lemma NoTokens(s: State, id: AssetId)
    requires Left(s) == 0
    ensures Waiting(s, id) == 0 && Working(s, id) == 0
  {
    NoneOnIdle(s.workers, id);
    NoneCounted(id);
  }

  /** The measure is zero exactly when every asset is Decoded, Ready or Failed. */
  lemma LandedIff(s: State)
    requires Sound(s)
    ensures Left(s) == 0 <==> forall id :: Landed(s, id)
  {
    hide SoundAt, Landed, Waiting, Working;
    if Left(s) == 0 {
      forall id ensures Landed(s, id) {
        NoTokens(s, id);
        LandedAt(s, id);
      }
    } else {
      var id := SomeToken(s);
      LandedAt(s, id);
    }
  }

  /** By then every load asked for has been begun once and applied once. */
  lemma LoadedOnceEach(s: State, id: AssetId)
    requires Sound(s) && Landed(s, id)
    ensures s.granted[id] == s.started[id] == s.applied[id]
  {
    hide Landed;
    assert SoundAt(s, id);
    LandedAt(s, id);
  }

  /** No request and no reload among them. */
  predicate NothingAsked(steps: seq<Step>) {
    forall k :: 0 <= k < |steps| ==> !steps[k].AskStep? && !steps[k].ReloadStep?
  }

  /** How many steps of a run move a load along. */
  function Moving(s: State, steps: seq<Step>): nat
    requires Possible(s, steps)
    decreases |steps|
  {
    if steps == [] then 0 else One(Moves(s, steps[0])) + Moving(Next(s, steps[0]), steps[1..])
  }

  ghost predicate Stuck(s: State) {
    forall step :: Enabled(s, step) ==> !Moves(s, step)
  }

  lemma {:induction false} MovingLowers(s: State, steps: seq<Step>)
    requires Possible(s, steps) && NothingAsked(steps)
    ensures Moving(s, steps) + Left(Run(s, steps)) <= Left(s)
    decreases |steps|
  {
    hide Enabled, Next, Moves, Left;
    if steps != [] {
      StepLowers(s, steps[0]);
      MovingLowers(Next(s, steps[0]), steps[1..]);
    }
  }

  lemma {:induction false} RunKeepsWorkers(s: State, steps: seq<Step>)
    requires Possible(s, steps)
    ensures |Run(s, steps).workers| == |s.workers|
    decreases |steps|
  {
    if steps != [] {
      NextKeepsWorkers(s, steps[0]);
      hide Enabled, Next;
      RunKeepsWorkers(Next(s, steps[0]), steps[1..]);
    }
  }

  lemma NextKeepsWorkers(s: State, step: Step)
    requires Enabled(s, step)
    ensures |Next(s, step).workers| == |s.workers|
  {
    hide ApplyAll, WaitAll, ChangedIds, Requeued;
  }

  lemma StuckIsDone(s: State)
    requires Stuck(s) && s.workers != []
    ensures Left(s) == 0
  {
    hide Left, Enabled, Moves;
    if Left(s) > 0 {
      var _ := SomeStepMoves(s);
      assert false;
    }
  }

  /** Every load lands. From any reachable state, while nothing new is asked for, a run moves loads along at
      most as often as the measure says, however its steps interleave; one that has done so that often, or
      that can be moved along no further, has every asset Decoded, Ready or Failed. */
  lemma EveryLoadLands(s: State, workers: nat, caching: bool, before: seq<Step>, steps: seq<Step>)
    requires Reached(s, workers, caching, before) && workers > 0 && Possible(s, steps) && NothingAsked(steps)
    ensures Moving(s, steps) <= Left(s)
    ensures Moving(s, steps) == Left(s) || Stuck(Run(s, steps)) ==> forall id :: Landed(Run(s, steps), id)
  {
    hide Sound, Left, Stuck, Possible, Landed, Moving;
    StartedIsSound(workers, caching);
    RunIsSound(Started(workers, caching), before);
    RunKeepsWorkers(Started(workers, caching), before);
    hide Run, Started;
    RunIsSound(s, steps);
    RunKeepsWorkers(s, steps);
    MovingLowers(s, steps);
    if Stuck(Run(s, steps)) {
      StuckIsDone(Run(s, steps));
    }
    LandedIff(Run(s, steps));
  }

  /** And there is always a run that brings them all in, of no more steps than that. */
  lemma {:induction false} LandingRun(s: State) returns (steps: seq<Step>)
    requires s.workers != []
    ensures Possible(s, steps) && NothingAsked(steps) && |steps| == Moving(s, steps) <= Left(s)
    ensures Left(Run(s, steps)) == 0
    decreases Left(s)
  {
    steps := [];
    if Left(s) > 0 {
      hide Enabled, Moves, Left, Next;
      var step := SomeStepMoves(s);
      MovesAsksNothing(s, step);
      StepLowers(s, step);
      NextKeepsWorkers(s, step);
      var rest := LandingRun(Next(s, step));
      steps := [step] + rest;
      assert steps[1..] == rest;
    }
  }

  lemma MovesAsksNothing(s: State, step: Step)
    requires Enabled(s, step) && Moves(s, step)
    ensures !step.AskStep? && !step.ReloadStep?
  {
  }

  /** A decoded asset nobody claims is reported on its six hundred and first pump, and only then. */
  function Waits(entry: Entry, pumps: nat): Entry {
    if pumps == 0 then entry else Wait(Waits(entry, pumps - 1))
  }

  lemma {:induction false} StallsOnce(entry: Entry, pumps: nat)
    requires entry.state == Decoded && entry.decodedPumps == 0 && !entry.stallReported
    ensures Stalls(Waits(entry, pumps)) <==> pumps == STALLED_PUMPS
    ensures Waits(entry, pumps).stallReported <==> pumps > STALLED_PUMPS
    ensures Waits(entry, pumps).state == Decoded
    ensures Waits(entry, pumps).decodedPumps == if pumps < STALLED_PUMPS then pumps else STALLED_PUMPS
  {
    if pumps > 0 {
      StallsOnce(entry, pumps - 1);
    }
  }
}
