/**
 One call at a time, the step machine does what the SubscriptionManager's methods promise: the small steps add up
 to the whole call.
 */
module WholeCalls {
  import opened Wire
  import opened Lockstep
  import opened Discipline
  import A = Accounting

  /** Registering leaves registered keys with their objects, and gives every other key one of its own, all zero. */
  lemma {:induction false} RegisterMeans(s: State, missing: seq<Key>)
    requires forall k :: k in s.entries ==> s.entries[k] < |s.objs|
    ensures var r := Register(s, missing);
      && (forall k :: k in s.entries ==> k in r.entries && r.entries[k] == s.entries[k])
      && (forall k :: k in r.entries && k !in s.entries ==> |s.objs| <= r.entries[k] < |r.objs|)
      && |s.objs| <= |r.objs|
    decreases |missing|
  {
    if missing == [] {
    } else if missing[0] in s.entries {
      RegisterMeans(s, missing[1..]);
    } else {
      RegisterMeans(s.(entries := s.entries[missing[0] := |s.objs|], objs := s.objs + [Counters(0, 0, 0)]),
        missing[1..]);
    }
  }

  lemma Four(s: State, a: Step, b: Step, c: Step, d: Step)
    requires Enabled(s, a) && Enabled(Next(s, a), b) && Enabled(Next(Next(s, a), b), c)
    requires Enabled(Next(Next(Next(s, a), b), c), d)
    ensures Runnable(s, [a, b, c, d]) && Exec(s, [a, b, c, d]) == Next(Next(Next(Next(s, a), b), c), d)
  {
    Three(Next(s, a), b, c, d);
    ExecCons(s, a, [b, c, d]);
    assert [a] + [b, c, d] == [a, b, c, d];
  }

  /** Up to its commit, a call puts one frame on the bound session and touches nothing else. */
  lemma WrittenCall(s: State, id: nat, op: Op)
    requires WellFormed(s) && id !in s.ops
    ensures var s1 := s.(ops := s.ops[id := Pending(op, Checked)]);
      && Enabled(s1, Call(id)) && Enabled(Next(s1, Call(id)), Write(id))
      && Next(Next(s1, Call(id)), Write(id))
         == Send(s, s.fc, FrameOf(op)).(ops := s.ops[id := Pending(op, Written(s.fc))])
  {
    var s2 := Next(s.(ops := s.ops[id := Pending(op, Checked)]), Call(id));
    assert s2.ops == s.ops[id := Pending(op, Called(s.fc))];
  }

  /** The state after a whole batch add that found something to do. */
  function AfterAdd(s: State, missing: seq<Key>): State
    requires s.fc < |s.sessions|
  {
    Register(Send(s, s.fc, Frame(missing, [])), missing)
  }

  /** BulkAdd, and Add with a single pair: check, send, commit. */
  lemma WholeAdd(s: State, id: nat, pairs: seq<Key>)
    requires WellFormed(s) && id !in s.ops && Missing(s.entries.Keys, pairs) != []
    ensures var steps := [BeginAdd(id, pairs), Call(id), Write(id), Finish(id)];
      Runnable(s, steps) && Exec(s, steps) == AfterAdd(s, Missing(s.entries.Keys, pairs))
  {
    var missing := Missing(s.entries.Keys, pairs);
    WrittenCall(s, id, AddOp(missing));
    var t := Send(s, s.fc, Frame(missing, [])).(ops := s.ops[id := Pending(AddOp(missing), Written(s.fc))]);
    RegisterIgnoresOps(Send(s, s.fc, Frame(missing, [])), t.ops, missing);
    assert t.ops - {id} == s.ops;
    Four(s, BeginAdd(id, pairs), Call(id), Write(id), Finish(id));
  }

  lemma {:induction false} RegisterIgnoresOps(s: State, ops: map<nat, Pending>, missing: seq<Key>)
    ensures Register(s.(ops := ops), missing) == Register(s, missing).(ops := ops)
    ensures Register(s, missing).ops == s.ops
    decreases |missing|
  {
    if missing == [] {
    } else if missing[0] in s.entries {
      RegisterIgnoresOps(s, ops, missing[1..]);
    } else {
      var t := s.(entries := s.entries[missing[0] := |s.objs|], objs := s.objs + [Counters(0, 0, 0)]);
      RegisterIgnoresOps(t, ops, missing[1..]);
    }
  }

  /**
   What that means: one frame of the missing keys, each registered with zero counters, the others left as they were.
   */
  lemma AfterAddMeans(s: State, pairs: seq<Key>)
    requires WellFormed(s) && forall k :: k in s.entries ==> s.entries[k] < |s.objs|
    ensures var missing := Missing(s.entries.Keys, pairs);
      var t := AfterAdd(s, missing);
      && t.entries.Keys == s.entries.Keys + Keys(pairs)
      && t.sessions == Send(s, s.fc, Frame(missing, [])).sessions
      && t == s.(entries := t.entries, objs := t.objs, sessions := t.sessions)
      && (forall k :: k in s.entries ==>
          t.entries[k] == s.entries[k] < |t.objs| && t.objs[t.entries[k]] == s.objs[s.entries[k]])
      && (forall k :: k in t.entries && k !in s.entries ==>
          t.entries[k] < |t.objs| && t.objs[t.entries[k]] == Counters(0, 0, 0))
  {
    var missing := Missing(s.entries.Keys, pairs);
    var sent := Send(s, s.fc, Frame(missing, []));
    RegisterEntries(sent, missing);
    RegisterMeans(sent, missing);
    A.RegisterAllocates(sent, missing);
    MissingKeys(s.entries.Keys, pairs);
    var t := Register(sent, missing);
    forall k | k in s.entries ensures t.objs[t.entries[k]] == s.objs[s.entries[k]] {
      assert t.objs[..|s.objs|][s.entries[k]] == s.objs[s.entries[k]];
    }
  }

  /** A batch with nothing new ends at its check. */
  lemma NothingToAdd(s: State, id: nat, pairs: seq<Key>)
    requires id !in s.ops && Keys(pairs) <= s.entries.Keys
    ensures Enabled(s, BeginAdd(id, pairs)) && Next(s, BeginAdd(id, pairs)) == s
  {
    MissingKeys(s.entries.Keys, pairs);
    NoKeysNoItems(Missing(s.entries.Keys, pairs));
  }

  lemma NoKeysNoItems(ks: seq<Key>)
    ensures ks == [] || Keys(ks) != {}
  {
    if ks != [] {
      assert ks[0] in Keys(ks);
    }
  }

  /** Remove: check, send, commit; an unknown key ends at its check. */
  lemma WholeRemove(s: State, id: nat, k: Key)
    requires WellFormed(s) && id !in s.ops
    ensures k !in s.entries ==> Enabled(s, BeginRemove(id, k)) && Next(s, BeginRemove(id, k)) == s
    ensures k in s.entries ==>
      var steps := [BeginRemove(id, k), Call(id), Write(id), Finish(id)];
      Runnable(s, steps) && Exec(s, steps) == Send(s, s.fc, Frame([], [k])).(entries := s.entries - {k})
  {
    if k in s.entries {
      WrittenCall(s, id, RemoveOp(k));
      var ops := s.ops[id := Pending(RemoveOp(k), Written(s.fc))];
      assert ops - {id} == s.ops;
      Four(s, BeginRemove(id, k), Call(id), Write(id), Finish(id));
    }
  }

  /** A call whose connection is dead, and which writes nothing, leaves no trace. */
  lemma RefusedCall(s: State, id: nat, begin: Step)
    requires WellFormed(s) && id !in s.ops && !s.sessions[s.fc].up
    requires begin.BeginAdd? || begin.BeginRemove?
    requires begin.id == id && id in Next(s, begin).ops
    ensures Runnable(s, [begin, Call(id), Abort(id)]) && Exec(s, [begin, Call(id), Abort(id)]) == s
  {
    var s2 := Next(Next(s, begin), Call(id));
    assert s2.ops - {id} == s.ops;
    Three(s, begin, Call(id), Abort(id));
  }

  /** The counters of one object after an observation at clock reading `at`. */
  function Observed(c: Counters, at: int): Counters {
    Counters(c.msgCount + 1, if c.firstSeenAt == 0 then at else c.firstSeenAt, at)
  }

  lemma CountStep(s: State, oid: nat, o: Observer)
    requires oid in s.observers && s.observers[oid] == o && o.stage == Looked && o.obj < |s.objs|
    ensures var c := s.objs[o.obj];
      && Enabled(s, Count(oid))
      && Next(s, Count(oid)) == s.(objs := s.objs[o.obj := Counters(c.msgCount + 1, c.firstSeenAt, c.lastSeenAt)],
                                   observers := s.observers[oid := o.(stage := Counted)])
  {
  }

  lemma StampSteps(s: State, oid: nat, o: Observer)
    requires oid in s.observers && s.observers[oid] == o && o.stage == Counted && o.obj < |s.objs|
    ensures var c := s.objs[o.obj];
      && Runnable(s, [StampFirst(oid), StampLast(oid)])
      && Exec(s, [StampFirst(oid), StampLast(oid)]) == s.(observers := s.observers - {oid}, objs := s.objs[o.obj :=
           Counters(c.msgCount, if c.firstSeenAt == 0 then o.at else c.firstSeenAt, o.at)])
  {
    var s1 := Next(s, StampFirst(oid));
    assert s1.observers == s.observers[oid := o.(stage := Stamped)];
    assert s1.observers - {oid} == s.observers - {oid};
    Two(s, StampFirst(oid), StampLast(oid));
  }

  /** An observer that has found its object: count, first sighting if none, last sighting. */
  lemma RestOfObserve(s: State, oid: nat, o: Observer)
    requires oid in s.observers && s.observers[oid] == o && o.stage == Looked && o.obj < |s.objs|
    ensures Runnable(s, [Count(oid)] + [StampFirst(oid), StampLast(oid)])
    ensures Exec(s, [Count(oid)] + [StampFirst(oid), StampLast(oid)]) ==
            s.(observers := s.observers - {oid}, objs := s.objs[o.obj := Observed(s.objs[o.obj], o.at)])
  {
    CountStep(s, oid, o);
    var s1 := Next(s, Count(oid));
    StampSteps(s1, oid, o.(stage := Counted));
    assert s1.observers - {oid} == s.observers - {oid};
    ExecCons(s, Count(oid), [StampFirst(oid), StampLast(oid)]);
  }

  /** Observe: count, first sighting if none, last sighting; an unregistered key changes nothing. */
  lemma WholeObserve(s: State, oid: nat, k: Key, at: int)
    requires oid !in s.observers && (k in s.entries ==> s.entries[k] < |s.objs|)
    ensures k !in s.entries ==> Enabled(s, Look(oid, k, at)) && Next(s, Look(oid, k, at)) == s
    ensures k in s.entries ==>
      var steps := [Look(oid, k, at)] + ([Count(oid)] + [StampFirst(oid), StampLast(oid)]);
      && Runnable(s, steps)
      && Exec(s, steps) == s.(objs := s.objs[s.entries[k] := Observed(s.objs[s.entries[k]], at)])
  {
    if k in s.entries {
      var s1 := Next(s, Look(oid, k, at));
      RestOfObserve(s1, oid, Observer(s.entries[k], at, Looked));
      assert s1.observers - {oid} == s.observers;
      ExecCons(s, Look(oid, k, at), [Count(oid)] + [StampFirst(oid), StampLast(oid)]);
    }
  }

  /** Rebind: the lock taken, the frame sent, on the newest session. */
  lemma WholeRebind(s: State, subs: seq<Key>)
    requires WellFormed(s) && Enabled(s, Snapshot(subs)) && subs != []
    ensures var n := |s.sessions| - 1;
      && Runnable(s, [Snapshot(subs), Replay])
      && Exec(s, [Snapshot(subs), Replay]) == Send(s, n, Frame(subs, [])).(fc := n)
  {
    Two(s, Snapshot(subs), Replay);
  }

  /** A dial adds a live session with nothing on it; a drop takes it down and touches nothing else. */
  lemma Dialling(s: State, sid: nat)
    ensures Next(s, Connect) == s.(sessions := s.sessions + [Session(true, [], {})])
    ensures Enabled(s, Drop(sid)) ==>
      Next(s, Drop(sid)) == s.(sessions := s.sessions[sid := s.sessions[sid].(up := false)])
  {
  }
}
