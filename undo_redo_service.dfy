/** The injectable history store used by the template editor. */
module UndoRedoServices {
  import opened Wrappers
  import Snapshots

  class UndoRedoService<T> {
    var undoStack: seq<T>
    var redoStack: seq<T>

    function State(): Snapshots.Stacks<T>
      reads this
    {
      Snapshots.Stacks(undoStack, redoStack)
    }

    constructor ()
      ensures undoStack == [] && redoStack == []
    {
      undoStack, redoStack := [], [];
    }

    method Push(state: T)
      modifies this
      ensures State() == Snapshots.Push(old(State()), state)
      ensures undoStack == old(undoStack) + [state] && redoStack == []
    {
      undoStack := undoStack + [state];
      redoStack := [];
    }

    method Undo(current: T) returns (r: Option<T>)
      modifies this
      ensures Snapshots.Step(State(), r) == Snapshots.Undo(old(State()), current)
      ensures old(undoStack) == [] ==> r == None && undoStack == old(undoStack) && redoStack == old(redoStack)
      ensures old(undoStack) != [] ==>
                r == Some(old(undoStack)[|old(undoStack)| - 1]) &&
                undoStack == old(undoStack)[..|old(undoStack)| - 1] &&
                redoStack == old(redoStack) + [current]
    {
      if |undoStack| == 0 {
        return None;
      }
      redoStack := redoStack + [current];
      r := Some(undoStack[|undoStack| - 1]);
      undoStack := undoStack[..|undoStack| - 1];
    }

    method Redo(current: T) returns (r: Option<T>)
      modifies this
      ensures Snapshots.Step(State(), r) == Snapshots.Redo(old(State()), current)
      ensures old(redoStack) == [] ==> r == None && undoStack == old(undoStack) && redoStack == old(redoStack)
      ensures old(redoStack) != [] ==>
                r == Some(old(redoStack)[|old(redoStack)| - 1]) &&
                redoStack == old(redoStack)[..|old(redoStack)| - 1] &&
                undoStack == old(undoStack) + [current]
    {
      if |redoStack| == 0 {
        return None;
      }
      undoStack := undoStack + [current];
      r := Some(redoStack[|redoStack| - 1]);
      redoStack := redoStack[..|redoStack| - 1];
    }

    /**
     * The `clear` the template editor calls. The service does not define it;
     * it is modelled as the reset of the unbounded store: both stacks emptied.
     */
    method Clear()
      modifies this
      ensures undoStack == [] && redoStack == []
    {
      undoStack, redoStack := [], [];
    }
  }
}
