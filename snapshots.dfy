/**
 * The linear undo/redo history that the three history stores implement.
 * A history is two stacks of snapshots whose last element is the top; the
 * stores deep-copy every snapshot, and snapshots here are immutable values,
 * so a copy is the value itself.
 */
module Snapshots {
  import opened Wrappers

  datatype Stacks<T> = Stacks(undo: seq<T>, redo: seq<T>) {
    /** The number of snapshots stored on both stacks. */
    function Size(): nat { |undo| + |redo| }
  }

  /** What an undo or a redo yields: the new stacks and the snapshot handed back, if any. */
  datatype Step<T> = Step(stacks: Stacks<T>, restored: Option<T>)

  /** `push`: the snapshot goes on top of the undo stack; the redo stack is emptied. */
  function Push<T>(h: Stacks<T>, s: T): Stacks<T> {
    Stacks(h.undo + [s], [])
  }

  /** The bounded `push`: as `Push`, then the oldest snapshot is shifted out when more than `limit` are kept. */
  function BoundedPush<T>(h: Stacks<T>, s: T, limit: nat): Stacks<T> {
    var u := h.undo + [s];
    Stacks(if |u| > limit then u[1..] else u, [])
  }

  /** `undo(current)`: nothing when the undo stack is empty; else its top is handed back and `current` goes on the redo stack. */
  function Undo<T>(h: Stacks<T>, current: T): Step<T> {
    if |h.undo| == 0 then Step(h, None)
    else Step(Stacks(h.undo[..|h.undo| - 1], h.redo + [current]), Some(h.undo[|h.undo| - 1]))
  }

  /** `redo(current)`: nothing when the redo stack is empty; else its top is handed back and `current` goes on the undo stack. */
  function Redo<T>(h: Stacks<T>, current: T): Step<T> {
    if |h.redo| == 0 then Step(h, None)
    else Step(Stacks(h.undo + [current], h.redo[..|h.redo| - 1]), Some(h.redo[|h.redo| - 1]))
  }

  /** Undo hands back the most recent snapshot, or nothing and no change when there is none. */
  lemma UndoTakesTop<T>(h: Stacks<T>, current: T)
    ensures Undo(h, current).restored.None? <==> h.undo == []
    ensures h.undo == [] ==> Undo(h, current).stacks == h
    ensures h.undo != [] ==> Undo(h, current).stacks.undo + [Undo(h, current).restored.value] == h.undo
    ensures h.undo != [] ==> Undo(h, current).stacks.redo == h.redo + [current]
  {
  }

  /** Redo hands back the most recently undone snapshot, or nothing and no change when there is none. */
  lemma RedoTakesTop<T>(h: Stacks<T>, current: T)
    ensures Redo(h, current).restored.None? <==> h.redo == []
    ensures h.redo == [] ==> Redo(h, current).stacks == h
    ensures h.redo != [] ==> Redo(h, current).stacks.redo + [Redo(h, current).restored.value] == h.redo
    ensures h.redo != [] ==> Redo(h, current).stacks.undo == h.undo + [current]
  {
  }

  /** Undo and redo move one snapshot between the stacks: the total stored is unchanged. */
  lemma UndoRedoKeepSize<T>(h: Stacks<T>, current: T)
    ensures Undo(h, current).stacks.Size() == h.Size()
    ensures Redo(h, current).stacks.Size() == h.Size()
  {
  }

  /** Redo after undo, handing back what undo restored, returns the stacks to where they were and restores `current`. */
  lemma RedoUndoes<T>(h: Stacks<T>, current: T)
    requires h.undo != []
    ensures Redo(Undo(h, current).stacks, Undo(h, current).restored.value) == Step(h, Some(current))
  {
    assert h.undo[..|h.undo| - 1] + [h.undo[|h.undo| - 1]] == h.undo;
  }

  /** Undo after redo, handing back what redo restored, returns the stacks to where they were and restores `current`. */
  lemma UndoRedoes<T>(h: Stacks<T>, current: T)
    requires h.redo != []
    ensures Undo(Redo(h, current).stacks, Redo(h, current).restored.value) == Step(h, Some(current))
  {
    assert h.redo[..|h.redo| - 1] + [h.redo[|h.redo| - 1]] == h.redo;
  }

  /** After a push nothing can be redone, and the pushed snapshot is the next one undone. */
  lemma PushInvalidatesRedo<T>(h: Stacks<T>, s: T, current: T)
    ensures Redo(Push(h, s), current) == Step(Push(h, s), None)
    ensures Undo(Push(h, s), current) == Step(Stacks(h.undo, [current]), Some(s))
  {
  }

  /**
   * The bounded push keeps the capacity invariant: at most `limit` snapshots on
   * both stacks together; it keeps the newest ones, in order, with the pushed
   * snapshot on top unless the capacity is zero.
   */
  lemma BoundedPushKeepsCapacity<T>(h: Stacks<T>, s: T, limit: nat)
    requires h.Size() <= limit
    ensures BoundedPush(h, s, limit).Size() <= limit
    ensures BoundedPush(h, s, limit).redo == []
    ensures var u := BoundedPush(h, s, limit).undo;
            u == (h.undo + [s])[|h.undo| + 1 - |u|..]
    ensures limit > 0 ==> BoundedPush(h, s, limit).undo[|BoundedPush(h, s, limit).undo| - 1] == s
    ensures limit == 0 ==> BoundedPush(h, s, limit).undo == []
    ensures |h.undo| < limit ==> BoundedPush(h, s, limit) == Push(h, s)
  {
    var u := h.undo + [s];
    if |u| > limit {
      assert |u| == limit + 1;
      assert BoundedPush(h, s, limit).undo == u[1..];
    } else {
      assert BoundedPush(h, s, limit).undo == u;
      assert u[0..] == u;
    }
  }

  // ---------------------------------------------------------------------
  // Editing sessions: a current state beside its history.
  // ---------------------------------------------------------------------

  /** A controller's current state `cur` and the history `h` it records into. */
  datatype Session<T> = Session(h: Stacks<T>, cur: T)

  /** A mutation recorded as two of the controllers do: snapshot the current state, then replace it by `next`. */
  function Commit<T>(s: Session<T>, next: T): Session<T> {
    Session(Push(s.h, s.cur), next)
  }

  /** A mutation recorded as the flat-list controller does: replace the state by `next`, then snapshot that. */
  function CommitAfter<T>(s: Session<T>, next: T): Session<T> {
    Session(Push(s.h, next), next)
  }

  /** The controllers' `undo()`: replace the state only when the history hands a snapshot back. */
  function UndoSession<T>(s: Session<T>): Session<T> {
    var st := Undo(s.h, s.cur);
    Session(st.stacks, st.restored.GetOr(s.cur))
  }

  /** The controllers' `redo()`: replace the state only when the history hands a snapshot back. */
  function RedoSession<T>(s: Session<T>): Session<T> {
    var st := Redo(s.h, s.cur);
    Session(st.stacks, st.restored.GetOr(s.cur))
  }

  /** A sequence of committed mutations, the i-th replacing the state by `edits[i]`. */
  function CommitAll<T>(s: Session<T>, edits: seq<T>): Session<T>
    decreases |edits|
  {
    if |edits| == 0 then s else CommitAll(Commit(s, edits[0]), edits[1..])
  }

  /** Pressing undo `n` times. */
  function UndoTimes<T>(s: Session<T>, n: nat): Session<T>
    decreases n
  {
    if n == 0 then s else UndoTimes(UndoSession(s), n - 1)
  }

  /** Pressing redo `n` times. */
  function RedoTimes<T>(s: Session<T>, n: nat): Session<T>
    decreases n
  {
    if n == 0 then s else RedoTimes(RedoSession(s), n - 1)
  }

  function Reversed<T>(s: seq<T>): (r: seq<T>)
    ensures |r| == |s|
    ensures forall i :: 0 <= i < |s| ==> r[i] == s[|s| - 1 - i]
  {
    if |s| == 0 then [] else Reversed(s[1..]) + [s[0]]
  }

  /** After committed mutations the undo stack holds the state before each of them, and the redo stack is empty. */
  lemma {:induction false} CommitAllStacks<T>(s: Session<T>, edits: seq<T>)
    requires edits != []
    ensures CommitAll(s, edits) ==
            Session(Stacks(s.h.undo + [s.cur] + edits[..|edits| - 1], []), edits[|edits| - 1])
    decreases |edits|
  {
    if |edits| == 1 {
      assert edits[..0] == [];
    } else {
      CommitAllStacks(Commit(s, edits[0]), edits[1..]);
      assert [edits[0]] + edits[1..][..|edits| - 2] == edits[..|edits| - 1];
    }
  }

  /** Undoing k times pops the k snapshots on top of the undo stack and stacks up the states they replace. */
  lemma {:induction false} UndoTimesPops<T>(base: seq<T>, top: seq<T>, redo: seq<T>, cur: T)
    requires top != []
    ensures UndoTimes(Session(Stacks(base + top, redo), cur), |top|) ==
            Session(Stacks(base, redo + Reversed(top[1..] + [cur])), top[0])
    decreases |top|
  {
    var k := |top|;
    var s := Session(Stacks(base + top, redo), cur);
    assert (base + top)[..|base + top| - 1] == base + top[..k - 1];
    assert (base + top)[|base + top| - 1] == top[k - 1];
    var u := UndoSession(s);
    assert u == Session(Stacks(base + top[..k - 1], redo + [cur]), top[k - 1]);
    if k == 1 {
      assert top[1..] + [cur] == [cur];
      assert Reversed([cur]) == [cur];
    } else {
      UndoTimesPops(base, top[..k - 1], redo + [cur], top[k - 1]);
      var rest := top[..k - 1][1..] + [top[k - 1]];
      assert rest == top[1..];
      assert Reversed(rest + [cur]) == [cur] + Reversed(rest) by {
        ReversedAppend(rest, cur);
      }
      assert redo + [cur] + Reversed(rest) == redo + Reversed(top[1..] + [cur]);
    }
  }

  lemma ReversedAppend<T>(s: seq<T>, x: T)
    ensures Reversed(s + [x]) == [x] + Reversed(s)
  {
  }

  /**
   * The undo law: after any non-empty run of committed mutations, pressing
   * undo once per mutation restores the state before the first one, leaves
   * the older history as it was, and holds every mutation for redo.
   */
  lemma UndoAllCommits<T>(s: Session<T>, edits: seq<T>)
    requires edits != []
    ensures UndoTimes(CommitAll(s, edits), |edits|) == Session(Stacks(s.h.undo, Reversed(edits)), s.cur)
  {
    var n := |edits|;
    CommitAllStacks(s, edits);
    var top := [s.cur] + edits[..n - 1];
    assert s.h.undo + [s.cur] + edits[..n - 1] == s.h.undo + top;
    UndoTimesPops(s.h.undo, top, [], edits[n - 1]);
    assert top[1..] + [edits[n - 1]] == edits;
  }

  /** Redo undoes an undo at the level of sessions. */
  lemma RedoAfterUndo<T>(s: Session<T>)
    requires s.h.undo != []
    ensures RedoSession(UndoSession(s)) == s
  {
    RedoUndoes(s.h, s.cur);
  }

  /** Peeling the last of n redos instead of the first. */
  lemma {:induction false} RedoTimesLast<T>(s: Session<T>, n: nat)
    requires n > 0
    ensures RedoTimes(s, n) == RedoSession(RedoTimes(s, n - 1))
    decreases n
  {
    if n > 1 {
      RedoTimesLast(RedoSession(s), n - 1);
    }
  }

  /** Undoing n times and redoing n times returns to the same session, when n snapshots are there to undo. */
  lemma {:induction false} RedoTimesUndoesUndoTimes<T>(s: Session<T>, n: nat)
    requires n <= |s.h.undo|
    ensures RedoTimes(UndoTimes(s, n), n) == s
    decreases n
  {
    if n > 0 {
      var u := UndoSession(s);
      assert |u.h.undo| == |s.h.undo| - 1;
      RedoTimesUndoesUndoTimes(u, n - 1);
      RedoTimesLast(UndoTimes(u, n - 1), n);
      RedoAfterUndo(s);
    }
  }

  /** The redo law: redoing as many times as was undone returns to the state after the last mutation. */
  lemma RedoAllCommits<T>(s: Session<T>, edits: seq<T>)
    requires edits != []
    ensures RedoTimes(UndoTimes(CommitAll(s, edits), |edits|), |edits|) == CommitAll(s, edits)
  {
    CommitAllStacks(s, edits);
    RedoTimesUndoesUndoTimes(CommitAll(s, edits), |edits|);
  }

  /** Any mutation after an undo discards what could have been redone. */
  lemma CommitAfterUndoClearsRedo<T>(s: Session<T>, next: T)
    ensures RedoSession(Commit(UndoSession(s), next)) == Commit(UndoSession(s), next)
  {
  }

  /** A snapshot taken before the mutation is what the next undo restores. */
  lemma UndoRestoresCommit<T>(s: Session<T>, next: T)
    ensures UndoSession(Commit(s, next)).cur == s.cur
  {
  }

  /**
   * A snapshot taken after the mutation is what the next undo hands back: the
   * first undo leaves the state as it is.
   */
  lemma UndoAfterCommitAfterIsNoOp<T>(s: Session<T>, next: T)
    ensures UndoSession(CommitAfter(s, next)).cur == next
    ensures UndoSession(CommitAfter(s, next)).h == Stacks(s.h.undo, [next])
  {
  }
}
