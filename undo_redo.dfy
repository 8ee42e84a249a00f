/** The bounded history store: at most `limit` snapshots, 30 by default. */
module UndoRedo {
  import opened Wrappers
  import Snapshots

  const DefaultLimit: nat := 30

  class UndoRedoStack<T> {
    var stack: seq<T>
    var redoStack: seq<T>
    const limit: nat

    /** The capacity invariant: both stacks together hold at most `limit` snapshots. */
    ghost predicate Valid()
      reads this
    {
      |stack| + |redoStack| <= limit
    }

    function State(): Snapshots.Stacks<T>
      reads this
    {
      Snapshots.Stacks(stack, redoStack)
    }

    constructor (limit: nat := DefaultLimit)
      ensures Valid() && this.limit == limit
      ensures stack == [] && redoStack == []
    {
      this.limit := limit;
      stack, redoStack := [], [];
    }

    method Push(state: T)
      requires Valid()
      modifies this
      ensures Valid()
      ensures State() == Snapshots.BoundedPush(old(State()), state, limit)
      ensures redoStack == []
      ensures stack == if |old(stack)| < limit then old(stack) + [state] else (old(stack) + [state])[1..]
      ensures limit > 0 ==> stack[|stack| - 1] == state
    {
      Snapshots.BoundedPushKeepsCapacity(State(), state, limit);
      stack := stack + [state];
      if |stack| > limit {
        stack := stack[1..];
      }
      redoStack := [];
    }

    method Undo(current: T) returns (r: Option<T>)
      requires Valid()
      modifies this
      ensures Valid()
      ensures Snapshots.Step(State(), r) == Snapshots.Undo(old(State()), current)
      ensures old(stack) == [] ==> r == None && stack == old(stack) && redoStack == old(redoStack)
      ensures old(stack) != [] ==>
                r == Some(old(stack)[|old(stack)| - 1]) &&
                stack == old(stack)[..|old(stack)| - 1] &&
                redoStack == old(redoStack) + [current]
    {
      if |stack| == 0 {
        return None;
      }
      var last := stack[|stack| - 1];
      stack := stack[..|stack| - 1];
      redoStack := redoStack + [current];
      r := Some(last);
    }

    /** `redo` appends without shifting; the capacity invariant is what keeps the undo stack within `limit`. */
    method Redo(current: T) returns (r: Option<T>)
      requires Valid()
      modifies this
      ensures Valid() && |stack| <= limit
      ensures Snapshots.Step(State(), r) == Snapshots.Redo(old(State()), current)
      ensures old(redoStack) == [] ==> r == None && stack == old(stack) && redoStack == old(redoStack)
      ensures old(redoStack) != [] ==>
                r == Some(old(redoStack)[|old(redoStack)| - 1]) &&
                redoStack == old(redoStack)[..|old(redoStack)| - 1] &&
                stack == old(stack) + [current]
    {
      if |redoStack| == 0 {
        return None;
      }
      var next := redoStack[|redoStack| - 1];
      redoStack := redoStack[..|redoStack| - 1];
      stack := stack + [current];
      r := Some(next);
    }
  }
}
