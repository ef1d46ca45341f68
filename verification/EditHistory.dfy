/** The history object: two stacks of owned commands over a scene it alone writes to. */
module EditHistories {
  import opened Forests
  import opened Scenes
  import opened Commands
  import opened EditCommands
  import H = Histories

  ghost function Edits(commands: seq<Command>): (edits: seq<Edit>)
    reads commands
    ensures |edits| == |commands| && forall i :: 0 <= i < |commands| ==> edits[i] == commands[i].edit
  {
    seq(|commands|, i requires 0 <= i < |commands| reads commands => commands[i].edit)
  }

  /** No command is owned twice. */
  predicate Owned(undo: seq<Command>, redo: seq<Command>) {
    && (forall i, j :: 0 <= i < j < |undo| ==> undo[i] != undo[j])
    && (forall i, j :: 0 <= i < j < |redo| ==> redo[i] != redo[j])
    && (forall i, j :: 0 <= i < |undo| && 0 <= j < |redo| ==> undo[i] != redo[j])
  }

  class History {
    const scene: Scene
    const capacity: nat
    var undo: seq<Command>
    var redo: seq<Command>
    var coalescingOpen: bool
    var revision: nat
    var lastError: Option<Error>

    ghost predicate Valid()
      reads this, scene
    {
      scene.Valid() && Owned(undo, redo)
    }

    ghost function State(): H.HistoryState
      reads this, scene, undo, redo
    {
      H.HistoryState(scene.State(), Edits(undo), Edits(redo), capacity, coalescingOpen, revision, lastError)
    }

    constructor (scene: Scene, capacity: nat)
      requires scene.Valid()
      ensures Valid() && this.scene == scene && H.Initial(State()) && undo == [] && redo == []
      ensures this.capacity == if capacity == 0 then 1 else capacity
    {
      this.scene := scene;
      this.capacity := if capacity == 0 then 1 else capacity;
      undo, redo, coalescingOpen, revision, lastError := [], [], false, 0, None;
    }

    method ApplyCommand(command: Command?, coalesce: bool) returns (status: Status)
      requires Valid() && (command != null ==> command !in undo && command !in redo)
      modifies this, scene, undo, command
      ensures Valid()
      ensures command == null ==> status == Failed(InvalidArgument) && State() == old(State())
      ensures command != null ==> (State(), status) == H.ApplyStep(old(State()), old(command.edit), coalesce)
    {
      if command == null {
        return Failed(InvalidArgument);
      }
      status := ApplyOwned(command, coalesce);
    }

    method ApplyOwned(command: Command, coalesce: bool) returns (status: Status)
      requires Valid() && command !in undo && command !in redo
      modifies this, scene, undo, command
      ensures Valid() && (State(), status) == H.ApplyStep(old(State()), old(command.edit), coalesce)
    {
      hide Commands.Apply, WellFormedState, Listed, H.Keep, Owned, Merge, H.Absorbed;
      status := ApplyToScene(command);
      if status.Ok? {
        revision := revision + 1;
        KeepCommand(command, coalesce);
      }
    }

    method ApplyToScene(command: Command) returns (status: Status)
      requires Valid() && command !in undo && command !in redo
      modifies scene, command
      ensures Valid() && Edits(undo) == old(Edits(undo)) && Edits(redo) == old(Edits(redo))
      ensures Outcome(status, command.edit, scene.State()) == Commands.Apply(old(command.edit), old(scene.State()))
    {
      hide Commands.Apply, WellFormedState, Listed, Owned;
      status := command.Apply(scene);
    }

    method KeepCommand(command: Command, coalesce: bool)
      requires Valid() && command !in undo && command !in redo
      modifies this`undo, this`redo, this`coalescingOpen, undo
      ensures Valid() && State() == H.Keep(old(State()), command.edit, coalesce)
    {
      hide WellFormedState, Listed, Merge;
      ghost var edits := Edits(undo);
      if coalesce && coalescingOpen && undo != [] {
        var absorbed := undo[|undo| - 1].Merge(command);
        if absorbed {
          assert Edits(undo) == H.Front(edits) + [Merge(H.Last(edits), command.edit).value];
          assert Edits(redo) == old(Edits(redo));
          return;
        }
      }
      Push(command, coalesce);
    }

    method Push(command: Command, coalesce: bool)
      requires Valid() && command !in undo && command !in redo
      modifies this`undo, this`redo, this`coalescingOpen
      ensures Valid() && Edits(undo) == H.Evict(old(Edits(undo)) + [command.edit], capacity)
      ensures redo == [] && coalescingOpen == coalesce
    {
      hide WellFormedState, Listed;
      ghost var edits := Edits(undo);
      redo := [];
      undo := undo + [command];
      assert Edits(undo) == edits + [command.edit];
      if |undo| > capacity {
        undo := undo[1..];
        assert Edits(undo) == (edits + [command.edit])[1..];
      }
      coalescingOpen := coalesce;
    }

    method Undo() returns (done: bool)
      requires Valid()
      modifies this, scene
      ensures Valid()
      ensures (State(), done) == H.UndoStep(old(State()))
    {
      hide Commands.Revert, Commands.Apply, WellFormedState, Listed;
      if undo == [] {
        return false;
      }
      var command := undo[|undo| - 1];
      undo := undo[..|undo| - 1];
      var status := command.Revert(scene);
      assert Edits(undo) == H.Front(old(Edits(undo)));
      if !status.Ok? {
        lastError := Some(status.error);
        Clear();
        return false;
      }
      redo := redo + [command];
      assert Edits(redo) == old(Edits(redo)) + [command.edit];
      coalescingOpen := false;
      revision := revision + 1;
      done := true;
    }

    method Redo() returns (done: bool)
      requires Valid()
      modifies this, scene, redo
      ensures Valid()
      ensures (State(), done) == H.RedoStep(old(State()))
    {
      hide Commands.Apply, WellFormedState, Listed;
      if redo == [] {
        return false;
      }
      var command := redo[|redo| - 1];
      redo := redo[..|redo| - 1];
      ghost var edits := Edits(redo);
      assert edits == H.Front(old(Edits(redo)));
      var status := command.Apply(scene);
      assert Edits(redo) == edits;
      assert Edits(undo) == old(Edits(undo));
      if !status.Ok? {
        lastError := Some(status.error);
        Clear();
        return false;
      }
      undo := undo + [command];
      assert Edits(undo) == old(Edits(undo)) + [command.edit];
      coalescingOpen := false;
      revision := revision + 1;
      done := true;
    }

    method BreakCoalescing()
      requires Valid()
      modifies this`coalescingOpen
      ensures Valid() && State() == H.Step(old(State()), H.BreakCoalescing)
    {
      coalescingOpen := false;
    }

    method Clear()
      requires Valid()
      modifies this`undo, this`redo, this`coalescingOpen
      ensures Valid() && State() == H.Cleared(old(State()))
      ensures undo == [] && redo == []
    {
      undo, redo, coalescingOpen := [], [], false;
    }
  }
}
