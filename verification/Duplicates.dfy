/** When an Add asks the gateway for what it already has: the manager skips registered keys only. */
module Duplicates {
  import opened Wire
  import opened Lockstep
  import opened Discipline

  /** Some key is listed twice and not registered. */
  predicate RepeatsUnregistered(registered: set<Key>, pairs: seq<Key>) {
    exists i, j :: 0 <= i < j < |pairs| && pairs[i] == pairs[j] && pairs[i] !in registered
  }

  predicate HasRepeats(ks: seq<Key>) {
    RepeatsUnregistered({}, ks)
  }

  /**
   The pending Add is about to name, to the bound session, a key twice or one it holds, will hold or will be
   replayed.
   */
  ghost predicate SendsDuplicate(s: State, id: nat)
    requires s.fc < |s.sessions| && id in s.ops && s.ops[id].op.AddOp?
  {
    HasRepeats(s.ops[id].op.keys) || exists k :: k in s.ops[id].op.keys && k in Upcoming(s) + Unreplayed(s)
  }

  lemma InMissing(registered: set<Key>, pairs: seq<Key>, k: Key)
    ensures k in Missing(registered, pairs) <==> k in pairs && k !in registered
  {
    MissingKeys(registered, pairs);
    assert k in Keys(Missing(registered, pairs)) <==> k in Keys(pairs) - registered;
  }

  lemma HeadRepeats(registered: set<Key>, k: Key, rest: seq<Key>)
    ensures RepeatsUnregistered(registered, [k] + rest) <==>
            (k !in registered && k in rest) || RepeatsUnregistered(registered, rest)
  {
    var ks := [k] + rest;
    if k !in registered && k in rest {
      var j :| 0 <= j < |rest| && rest[j] == k;
      assert ks[0] == ks[j + 1];
    }
    if i, j :| 0 <= i < j < |rest| && rest[i] == rest[j] && rest[i] !in registered {
      assert ks[i + 1] == ks[j + 1];
    }
    if i, j :| 0 <= i < j < |ks| && ks[i] == ks[j] && ks[i] !in registered {
      assert ks[j] == rest[j - 1] && (i > 0 ==> ks[i] == rest[i - 1]);
    }
  }

  /** A batch add's frame names a key twice exactly when the caller listed an unregistered key twice. */
  lemma {:induction false} RepeatsIff(registered: set<Key>, pairs: seq<Key>)
    ensures HasRepeats(Missing(registered, pairs)) <==> RepeatsUnregistered(registered, pairs)
  {
    if pairs == [] {
    } else {
      var k, rest := pairs[0], pairs[1..];
      RepeatsIff(registered, rest);
      HeadRepeats(registered, k, rest);
      assert pairs == [k] + rest;
      if k !in registered {
        HeadRepeats({}, k, Missing(registered, rest));
        InMissing(registered, rest, k);
      } else {
        assert Missing(registered, pairs) == Missing(registered, rest);
      }
    }
  }

  /**
   The exact condition, on a live connection in step: the Add's frame is a duplicate when the caller repeats a key,
   or when one of its keys is registered by now, or written by an Add and not yet committed, and not being removed.
   */
  lemma DuplicateIff(s: State, id: nat)
    requires Inv(s) && s.sessions[s.fc].up
    requires Enabled(s, Write(id)) && s.ops[id].op.AddOp? && s.ops[id].phase.sid == s.fc
    ensures SendsDuplicate(s, id) <==>
            || HasRepeats(s.ops[id].op.keys)
            || exists k :: k in s.ops[id].op.keys && k in s.entries.Keys + SentAdds(s.ops) - SentRemoves(s.ops)
  {
    assert Upcoming(s) + Unreplayed(s) == s.entries.Keys + SentAdds(s.ops) - SentRemoves(s.ops);
  }

  // ---------------------------------------------------------------- careful callers never send one

  /** The discipline, and no caller lists an unregistered key twice. */
  predicate Careful(s: State, st: Step) {
    Disciplined(s, st) && (st.BeginAdd? ==> !RepeatsUnregistered(s.entries.Keys, st.pairs))
  }

  predicate CarefulRun(s: State, steps: seq<Step>)
    requires Runnable(s, steps)
    decreases |steps|
  {
    steps == [] || (Careful(s, steps[0]) && CarefulRun(Next(s, steps[0]), steps[1..]))
  }

  /** A pending Add names unregistered keys, each once. */
  predicate FreshAdds(s: State) {
    forall id :: id in s.ops && s.ops[id].op.AddOp? ==>
      Keys(s.ops[id].op.keys) !! s.entries.Keys && !HasRepeats(s.ops[id].op.keys)
  }

  lemma BeginKeepsFreshAdds(s: State, id: nat, pairs: seq<Key>)
    requires FreshAdds(s) && Enabled(s, BeginAdd(id, pairs)) && !RepeatsUnregistered(s.entries.Keys, pairs)
    ensures FreshAdds(Next(s, BeginAdd(id, pairs)))
  {
    MissingKeys(s.entries.Keys, pairs);
    RepeatsIff(s.entries.Keys, pairs);
  }

  lemma FinishKeepsFreshAdds(s: State, id: nat)
    requires FreshAdds(s) && Apart(s) && Enabled(s, Finish(id))
    ensures FreshAdds(Next(s, Finish(id)))
  {
    FinishEffect(s, id);
    assert Keys(FrameOf(s.ops[id].op).add) <= Names(s.ops[id].op);
    forall i | i in s.ops && i != id && s.ops[i].op.AddOp? ensures Keys(s.ops[i].op.keys) !! Names(s.ops[id].op) {
      assert Names(s.ops[i].op) !! Names(s.ops[id].op);
    }
  }

  lemma NoNewAdds(s: State, t: State)
    requires FreshAdds(s) && t.entries == s.entries
    requires forall id :: id in t.ops && t.ops[id].op.AddOp? ==> id in s.ops && t.ops[id].op == s.ops[id].op
    ensures FreshAdds(t)
  {
  }

  lemma StepKeepsFreshAdds(s: State, st: Step)
    requires FreshAdds(s) && Apart(s) && Enabled(s, st) && Careful(s, st)
    ensures FreshAdds(Next(s, st))
  {
    match st
    case BeginAdd(id, pairs) => BeginKeepsFreshAdds(s, id, pairs);
    case Finish(id) => FinishKeepsFreshAdds(s, id);
    case _ => NoNewAdds(s, Next(s, st));
  }

  lemma {:induction false} CarefulRunKeepsFreshAdds(s: State, steps: seq<Step>)
    requires Inv(s) && Apart(s) && FreshAdds(s) && Runnable(s, steps) && CarefulRun(s, steps)
    ensures Inv(Exec(s, steps)) && Apart(Exec(s, steps)) && FreshAdds(Exec(s, steps))
    decreases |steps|
  {
    if steps == [] {
    } else {
      ApartStep(s, steps[0]);
      ApartIsAdmissible(s, steps[0]);
      StepKeepsInv(s, steps[0]);
      StepKeepsFreshAdds(s, steps[0]);
      CarefulRunKeepsFreshAdds(Next(s, steps[0]), steps[1..]);
    }
  }

  lemma NotSentByAnother(s: State, id: nat)
    requires Apart(s) && id in s.ops && s.ops[id].op.AddOp? && !s.ops[id].phase.Written?
    ensures Keys(s.ops[id].op.keys) !! SentAdds(s.ops)
  {
    forall i, k | i in s.ops && k in AddsInFlight(s.ops[i]) ensures k !in s.ops[id].op.keys {
      assert k in Names(s.ops[i].op) && i != id;
      assert Names(s.ops[i].op) !! Names(s.ops[id].op);
    }
  }

  /**
   From service start, careful callers never write, on a live connection, a frame that names a key twice or a key
   already asked for.
   */
  lemma CarefulCallersSendNoDuplicate(steps: seq<Step>, id: nat)
    requires Runnable(Init(), steps) && CarefulRun(Init(), steps)
    requires Enabled(Exec(Init(), steps), Write(id)) && Exec(Init(), steps).ops[id].op.AddOp?
    ensures Exec(Init(), steps).fc < |Exec(Init(), steps).sessions|
    ensures Exec(Init(), steps).sessions[Exec(Init(), steps).fc].up ==> !SendsDuplicate(Exec(Init(), steps), id)
  {
    CarefulRunKeepsFreshAdds(Init(), steps);
    var s := Exec(Init(), steps);
    if !s.sessions[s.fc].up {
      return;
    }
    NotSentByAnother(s, id);
    DuplicateIff(s, id);
    assert forall k :: k in s.ops[id].op.keys ==> k in Keys(s.ops[id].op.keys);
  }

  // ---------------------------------------------------------------- careless ones do

  /** One session, up, with these frames in flight. */
  function OneSession(queue: seq<Frame>): seq<Session> {
    [Session(true, queue, {})]
  }

  lemma RegisterOne(s: State, k: Key)
    ensures Register(s, [k]) ==
            if k in s.entries then s else s.(entries := s.entries[k := |s.objs|], objs := s.objs + [Counters(0, 0, 0)])
  {
    assert [k][1..] == [];
  }

  lemma WriteOn(s: State, id: nat, queue: seq<Frame>)
    requires s.sessions == OneSession(queue) && id in s.ops && s.ops[id].phase == Called(0)
    ensures Enabled(s, Write(id))
    ensures Next(s, Write(id)) == s.(sessions := OneSession(queue + [FrameOf(s.ops[id].op)]),
                                     ops := s.ops[id := Pending(s.ops[id].op, Written(0))])
  {
  }

  /** Both Adds of k written, before either commits. */
  lemma BothCommit(s: State, k: Key)
    requires s.entries == map[] && s.objs == []
    requires s.ops == map[0 := Pending(AddOp([k]), Written(0)), 1 := Pending(AddOp([k]), Written(0))]
    ensures Runnable(s, [Finish(0), Finish(1)])
    ensures Exec(s, [Finish(0), Finish(1)]) == s.(entries := map[k := 0], objs := [Counters(0, 0, 0)], ops := map[])
  {
    RegisterOne(s, k);
    var s1 := Next(s, Finish(0));
    assert s1 == s.(entries := map[k := 0], objs := [Counters(0, 0, 0)],
      ops := map[1 := Pending(AddOp([k]), Written(0))]);
    RegisterOne(s1, k);
    assert Next(s1, Finish(1)).ops == map[];
    Two(s, Finish(0), Finish(1));
  }

  lemma BothChecked(s: State, k: Key)
    requires s == Init()
    ensures Runnable(s, [BeginAdd(0, [k]), BeginAdd(1, [k])])
    ensures Exec(s, [BeginAdd(0, [k]), BeginAdd(1, [k])]) ==
            s.(ops := map[0 := Pending(AddOp([k]), Checked), 1 := Pending(AddOp([k]), Checked)])
  {
    MissingOne(s.entries.Keys, k);
    Two(s, BeginAdd(0, [k]), BeginAdd(1, [k]));
  }

  lemma BothCalled(s: State, k: Key)
    requires s.fc == 0 && s.ops == map[0 := Pending(AddOp([k]), Checked), 1 := Pending(AddOp([k]), Checked)]
    ensures Runnable(s, [Call(0), Call(1)])
    ensures Exec(s, [Call(0), Call(1)]) ==
            s.(ops := map[0 := Pending(AddOp([k]), Called(0)), 1 := Pending(AddOp([k]), Called(0))])
  {
    Two(s, Call(0), Call(1));
  }

  lemma BothWritten(s: State, k: Key)
    requires s.fc == 0 && s.sessions == OneSession([]) && s.rebind == None
    requires s.ops == map[0 := Pending(AddOp([k]), Called(0)), 1 := Pending(AddOp([k]), Called(0))]
    ensures Runnable(s, [Write(0), Write(1)]) && Runnable(s, [Write(0)])
    ensures SendsDuplicate(Exec(s, [Write(0)]), 1)
    ensures Exec(s, [Write(0), Write(1)]) == s.(sessions := OneSession([Frame([k], []), Frame([k], [])]),
              ops := map[0 := Pending(AddOp([k]), Written(0)), 1 := Pending(AddOp([k]), Written(0))])
  {
    WriteOn(s, 0, []);
    var s1 := Next(s, Write(0));
    assert [] + [Frame([k], [])] == [Frame([k], [])];
    WriteOn(s1, 1, [Frame([k], [])]);
    assert [Frame([k], [])] + [Frame([k], [])] == [Frame([k], []), Frame([k], [])];
    Two(s, Write(0), Write(1));
    ExecCons(s, Write(0), []);
    assert [Write(0)] + [] == [Write(0)];
    SendEffect(s, Frame([k], []));
    assert Upcoming(s1) == Apply({}, Frame([k], []));
    assert k in s1.ops[1].op.keys && k in Upcoming(s1);
  }

  /** Two Adds of one key that both pass the check send it twice; the map gets one entry with one set of counters. */
  lemma TwoAddsSendTwice(k: Key) returns (steps: seq<Step>)
    ensures steps == [BeginAdd(0, [k]), BeginAdd(1, [k])] +
      ([Call(0), Call(1)] + ([Write(0), Write(1)] + [Finish(0), Finish(1)]))
    ensures Runnable(Init(), steps)
    ensures Exec(Init(), steps) ==
            State(map[k := 0], [Counters(0, 0, 0)], 0, OneSession([Frame([k], []), Frame([k], [])]), map[], None, map[])
  {
    BothChecked(Init(), k);
    var s1 := Exec(Init(), [BeginAdd(0, [k]), BeginAdd(1, [k])]);
    BothCalled(s1, k);
    var s2 := Exec(s1, [Call(0), Call(1)]);
    BothWritten(s2, k);
    var s3 := Exec(s2, [Write(0), Write(1)]);
    BothCommit(s3, k);
    ExecSplit(s2, [Write(0), Write(1)], [Finish(0), Finish(1)]);
    ExecSplit(s1, [Call(0), Call(1)], [Write(0), Write(1)] + [Finish(0), Finish(1)]);
    steps := [Call(0), Call(1)] + ([Write(0), Write(1)] + [Finish(0), Finish(1)]);
    ExecSplit(Init(), [BeginAdd(0, [k]), BeginAdd(1, [k])], steps);
    steps := [BeginAdd(0, [k]), BeginAdd(1, [k])] + steps;
  }

  /** A single batch that lists an unregistered key twice sends it twice in one frame. */
  lemma RepeatedPairIsSentTwice(k: Key)
    ensures var steps := [BeginAdd(0, [k, k]), Call(0), Write(0)];
      Runnable(Init(), steps) &&
      Exec(Init(), steps) == State(map[], [], 0, OneSession([Frame([k, k], [])]),
        map[0 := Pending(AddOp([k, k]), Written(0))], None, map[])
  {
    var s := Init();
    MissingOne(s.entries.Keys, k);
    MissingSnoc(s.entries.Keys, [k], k);
    assert [k] + [k] == [k, k];
    var s1 := Next(s, BeginAdd(0, [k, k]));
    assert s1 == s.(ops := map[0 := Pending(AddOp([k, k]), Checked)]);
    var s2 := Next(s1, Call(0));
    WriteOn(s2, 0, []);
    assert [] + [Frame([k, k], [])] == [Frame([k, k], [])];
    Three(s, BeginAdd(0, [k, k]), Call(0), Write(0));
  }
}
