/**
 Admissible is the exact condition for lockstep: a run is admissible if and only if, at every
 point of it, no completion of what has already been written can bring wire and map apart.
 */
module Exactness {
  import opened Wire
  import opened Lockstep

  /**
   A step that only completes what is under way: it begins no operation, writes no operation's frame, rebinds
   nothing.
   */
  predicate Completes(st: Step) {
    st.Finish? || st.Abort? || st.Deliver? || st.Drop? || st.Replay? || st.ReplayFails?
  }

  predicate AllComplete(steps: seq<Step>) {
    forall i :: 0 <= i < |steps| ==> Completes(steps[i])
  }

  /** While the bound connection is up, wire and map are reconciled. */
  ghost predicate InLockstep(s: State) {
    s.fc < |s.sessions| && (s.sessions[s.fc].up ==> Reconciled(s))
  }

  /** However the operations under way complete, wire and map are reconciled. */
  ghost predicate Safe(s: State) {
    forall steps :: Runnable(s, steps) && AllComplete(steps) ==> InLockstep(Exec(s, steps))
  }

  lemma {:induction false} CompletionKeepsInv(s: State, steps: seq<Step>)
    requires Inv(s) && Runnable(s, steps) && AllComplete(steps)
    ensures Inv(Exec(s, steps))
    decreases |steps|
  {
    if steps == [] {
    } else {
      assert Completes(steps[0]);
      StepKeepsInv(s, steps[0]);
      CompletionKeepsInv(Next(s, steps[0]), steps[1..]);
    }
  }

  lemma InvIsSafe(s: State)
    requires Inv(s)
    ensures Safe(s)
  {
    forall steps | Runnable(s, steps) && AllComplete(steps) ensures InLockstep(Exec(s, steps)) {
      CompletionKeepsInv(s, steps);
    }
  }

  // ---------------------------------------------------------------- outside the invariant something can go wrong

  /** A run that ends out of lockstep, after one more completing step in front. */
  lemma Before(s: State, st: Step, rest: seq<Step>)
    requires Enabled(s, st) && Completes(st) && Runnable(Next(s, st), rest) && AllComplete(rest)
    requires !InLockstep(Exec(Next(s, st), rest))
    ensures !Safe(s)
  {
    ExecCons(s, st, rest);
    assert AllComplete([st] + rest);
  }

  lemma UnsafeBefore(s: State, st: Step)
    requires Enabled(s, st) && Completes(st) && !Safe(Next(s, st))
    ensures !Safe(s)
  {
    var rest :| Runnable(Next(s, st), rest) && AllComplete(rest) && !InLockstep(Exec(Next(s, st), rest));
    Before(s, st, rest);
  }

  lemma OutOfLockstepNow(s: State)
    requires !InLockstep(s)
    ensures !Safe(s)
  {
    assert Runnable(s, []) && AllComplete([]) && Exec(s, []) == s;
  }

  /** Whether the equation's two sides hold the key. */
  ghost predicate WireHas(s: State, k: Key)
    requires s.fc < |s.sessions|
  {
    k in Upcoming(s) + Unreplayed(s)
  }

  ghost predicate MapHas(s: State, k: Key) {
    k in s.entries.Keys + SentAdds(s.ops) - SentRemoves(s.ops)
  }

  lemma KeyApart(s: State, k: Key)
    requires s.fc < |s.sessions| && s.sessions[s.fc].up && WireHas(s, k) != MapHas(s, k)
    ensures !Safe(s)
  {
    assert !Reconciled(s);
    OutOfLockstepNow(s);
  }

  /** Committing a Remove of k changes neither what the wire has nor which adds are under way. */
  lemma CommitRemove(s: State, id: nat, k: Key)
    requires WellFormed(s) && id in s.ops && k in RemovesInFlight(s.ops[id])
    ensures Enabled(s, Finish(id))
    ensures var t := Next(s, Finish(id));
      && WellFormed(t) && t.sessions == s.sessions && t.fc == s.fc && t.rebind == s.rebind
      && |t.ops| < |s.ops| && SentAdds(t.ops) == SentAdds(s.ops)
  {
    FinishEffect(s, id);
    StepKeepsWellFormed(s, Finish(id));
    assert Keys(FrameOf(s.ops[id].op).add) == {};
    OneFewer(s.ops, id);
  }

  lemma OneFewer(ops: map<nat, Pending>, id: nat)
    requires id in ops
    ensures |ops - {id}| < |ops|
  {
    assert ops.Keys == (ops - {id}).Keys + {id};
  }

  /** A key both being added and being removed: committing the removes first leaves the add, which the wire has not. */
  lemma {:induction false} OppositesAreUnsafe(s: State, k: Key)
    requires WellFormed(s) && s.sessions[s.fc].up
    requires k in SentAdds(s.ops) && k in SentRemoves(s.ops)
    ensures !Safe(s)
    decreases |s.ops|
  {
    if WireHas(s, k) {
      KeyApart(s, k);
    } else {
      var id :| id in s.ops && k in RemovesInFlight(s.ops[id]);
      var t := Next(s, Finish(id));
      CommitRemove(s, id, k);
      assert !WireHas(t, k);
      if k in SentRemoves(t.ops) {
        OppositesAreUnsafe(t, k);
      } else {
        KeyApart(t, k);
      }
      UnsafeBefore(s, Finish(id));
    }
  }

  predicate Abandoned(s: State, id: nat, k: Key) {
    id in s.ops && s.ops[id].phase.Written? && s.ops[id].phase.sid != s.fc
    && (k in AddsInFlight(s.ops[id]) || k in RemovesInFlight(s.ops[id]))
  }

  /** The connection an abandoned operation wrote to dies, and the operation gives up. */
  lemma GiveUp(s: State, id: nat, k: Key)
    requires WellFormed(s) && s.sessions[s.fc].up && Abandoned(s, id, k)
    ensures Enabled(s, Drop(s.ops[id].phase.sid)) && Enabled(Next(s, Drop(s.ops[id].phase.sid)), Abort(id))
    ensures var t := Next(Next(s, Drop(s.ops[id].phase.sid)), Abort(id));
      && WellFormed(t) && t.sessions[t.fc].up && t.ops == s.ops - {id} && t.fc == s.fc && t.entries == s.entries
      && Upcoming(t) == Upcoming(s) && Unreplayed(t) == Unreplayed(s)
  {
    StepKeepsWellFormed(s, Drop(s.ops[id].phase.sid));
    StepKeepsWellFormed(Next(s, Drop(s.ops[id].phase.sid)), Abort(id));
  }

  /**
   A key on whose membership wire and map differ, but for operations written on abandoned sessions alone: when
   those give up, nothing hides the difference.
   */
  lemma {:induction false} AbandonedAreUnsafe(s: State, k: Key)
    requires WellFormed(s) && s.sessions[s.fc].up && (WireHas(s, k) <==> k !in s.entries)
    requires forall id :: id in s.ops && (k in AddsInFlight(s.ops[id]) || k in RemovesInFlight(s.ops[id])) ==>
      Abandoned(s, id, k)
    ensures !Safe(s)
    decreases |s.ops|
  {
    if id :| id in s.ops && Abandoned(s, id, k) {
      var t := Next(s, Drop(s.ops[id].phase.sid));
      var u := Next(t, Abort(id));
      GiveUp(s, id, k);
      OneFewer(s.ops, id);
      AbandonedAreUnsafe(u, k);
      UnsafeBefore(t, Abort(id));
      UnsafeBefore(s, Drop(s.ops[id].phase.sid));
    } else {
      assert k !in SentAdds(s.ops) && k !in SentRemoves(s.ops);
      KeyApart(s, k);
    }
  }

  lemma CurrentOrAbandoned(s: State, id: nat, k: Key)
    requires id in s.ops && (k in AddsInFlight(s.ops[id]) || k in RemovesInFlight(s.ops[id]))
    ensures Abandoned(s, id, k) || k in SentAdds(Current(s)) || k in SentRemoves(Current(s))
  {
    if s.ops[id].phase.sid == s.fc {
      assert Current(s)[id] == s.ops[id];
    }
  }

  lemma NoneCurrent(s: State, k: Key)
    requires k !in SentAdds(Current(s)) && k !in SentRemoves(Current(s))
    ensures forall id :: id in s.ops && (k in AddsInFlight(s.ops[id]) || k in RemovesInFlight(s.ops[id])) ==>
      Abandoned(s, id, k)
  {
    forall id | id in s.ops && (k in AddsInFlight(s.ops[id]) || k in RemovesInFlight(s.ops[id])) {
      CurrentOrAbandoned(s, id, k);
    }
  }

  lemma CurrentIsPart(s: State)
    ensures SentAdds(Current(s)) <= SentAdds(s.ops) && SentRemoves(Current(s)) <= SentRemoves(s.ops)
  {
    forall id | id in Current(s) ensures id in s.ops && s.ops[id] == Current(s)[id] {}
  }

  lemma UnsettledIsUnsafe(s: State)
    requires WellFormed(s) && s.sessions[s.fc].up
    requires Reconciled(s) && SentAdds(s.ops) !! SentRemoves(s.ops) && !Settled(s)
    ensures !Safe(s)
  {
    CurrentIsPart(s);
    if k :| k in SentAdds(s.ops) && k !in s.entries && k !in SentAdds(Current(s)) {
      assert MapHas(s, k);
      NoneCurrent(s, k);
      AbandonedAreUnsafe(s, k);
    } else {
      var k :| k in SentRemoves(s.ops) * s.entries.Keys && k !in SentRemoves(Current(s));
      assert !MapHas(s, k);
      NoneCurrent(s, k);
      AbandonedAreUnsafe(s, k);
    }
  }

  lemma SafeMeansInv(s: State)
    requires WellFormed(s) && Safe(s)
    ensures Inv(s)
  {
    if s.sessions[s.fc].up {
      if !Reconciled(s) {
        OutOfLockstepNow(s);
      } else if k :| k in SentAdds(s.ops) && k in SentRemoves(s.ops) {
        OppositesAreUnsafe(s, k);
      } else if !Settled(s) {
        UnsettledIsUnsafe(s);
      }
    }
  }

  /** The invariant is no stronger than lockstep needs. */
  lemma InvIffSafe(s: State)
    requires WellFormed(s)
    ensures Inv(s) <==> Safe(s)
  {
    if Inv(s) {
      InvIsSafe(s);
    }
    if Safe(s) {
      SafeMeansInv(s);
    }
  }

  // ---------------------------------------------------------------- the exact condition

  /** One step: admissible exactly when it leaves no way to fall out of lockstep. */
  lemma StepSafeIff(s: State, st: Step)
    requires WellFormed(s) && Safe(s) && Enabled(s, st)
    ensures Safe(Next(s, st)) <==> Admissible(s, st)
  {
    InvIffSafe(s);
    StepKeepsWellFormed(s, st);
    InvIffSafe(Next(s, st));
    StepKeepsInvIff(s, st);
  }

  ghost predicate SafeThroughout(s: State, steps: seq<Step>)
    requires Runnable(s, steps)
    decreases |steps|
  {
    Safe(s) && (steps == [] || SafeThroughout(Next(s, steps[0]), steps[1..]))
  }

  /** Whole runs: admissible exactly when safe at every point. */
  lemma {:induction false} RunSafeIff(s: State, steps: seq<Step>)
    requires WellFormed(s) && Safe(s) && Runnable(s, steps)
    ensures AdmissibleRun(s, steps) <==> SafeThroughout(s, steps)
    decreases |steps|
  {
    if steps == [] {
    } else {
      StepSafeIff(s, steps[0]);
      StepKeepsWellFormed(s, steps[0]);
      if Admissible(s, steps[0]) {
        RunSafeIff(Next(s, steps[0]), steps[1..]);
      } else {
        assert !SafeThroughout(Next(s, steps[0]), steps[1..]);
      }
    }
  }

  /** From service start. */
  lemma LockstepExactly(steps: seq<Step>)
    requires Runnable(Init(), steps)
    ensures AdmissibleRun(Init(), steps) <==> SafeThroughout(Init(), steps)
  {
    InvIffSafe(Init());
    RunSafeIff(Init(), steps);
  }
}
