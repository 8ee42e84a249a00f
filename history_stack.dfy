/** The unbounded history store with `canUndo`, `canRedo` and `reset`. */
module HistoryStacks {
  import opened Wrappers
  import Snapshots

  class HistoryStack<T> {
    var undoStack: seq<T>
    var redoStack: seq<T>

    /** The stacks as a history value. */
    function State(): Snapshots.Stacks<T>
      reads this
    {
      Snapshots.Stacks(undoStack, redoStack)
    }

    constructor ()
      ensures undoStack == [] && redoStack == []
    {
      undoStack, redoStack := [], [];
    }

    method Push(state: T)
      modifies this
      ensures State() == Snapshots.Push(old(State()), state)
      ensures undoStack == old(undoStack) + [state] && redoStack == []
    {
      undoStack := undoStack + [state];
      redoStack := [];
    }

    method Undo(current: T) returns (r: Option<T>)
      modifies this
      ensures Snapshots.Step(State(), r) == Snapshots.Undo(old(State()), current)
      ensures old(undoStack) == [] ==> r == None && undoStack == old(undoStack) && redoStack == old(redoStack)
      ensures old(undoStack) != [] ==>
                r == Some(old(undoStack)[|old(undoStack)| - 1]) &&
                undoStack == old(undoStack)[..|old(undoStack)| - 1] &&
                redoStack == old(redoStack) + [current]
    {
      if |undoStack| == 0 {
        return None;
      }
      redoStack := redoStack + [current];
      r := Some(undoStack[|undoStack| - 1]);
      undoStack := undoStack[..|undoStack| - 1];
    }

    method Redo(current: T) returns (r: Option<T>)
      modifies this
      ensures Snapshots.Step(State(), r) == Snapshots.Redo(old(State()), current)
      ensures old(redoStack) == [] ==> r == None && undoStack == old(undoStack) && redoStack == old(redoStack)
      ensures old(redoStack) != [] ==>
                r == Some(old(redoStack)[|old(redoStack)| - 1]) &&
                redoStack == old(redoStack)[..|old(redoStack)| - 1] &&
                undoStack == old(undoStack) + [current]
    {
      if |redoStack| == 0 {
        return None;
      }
      undoStack := undoStack + [current];
      r := Some(redoStack[|redoStack| - 1]);
      redoStack := redoStack[..|redoStack| - 1];
    }

    method CanUndo() returns (b: bool)
      ensures b <==> undoStack != []
    {
      b := |undoStack| > 0;
    }

    method CanRedo() returns (b: bool)
      ensures b <==> redoStack != []
    {
      b := |redoStack| > 0;
    }

    method Reset()
      modifies this
      ensures undoStack == [] && redoStack == []
    {
      undoStack, redoStack := [], [];
    }
  }
}
