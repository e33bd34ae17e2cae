/** What reconnecting and counting do to the manager's map, over every interleaving of the step machine. */
module Accounting {
  import opened Wire
  import opened Lockstep

  // ---------------------------------------------------------------- reconnecting

  /** The connection-side steps: dials, drops, gateway progress and Rebind, in any order and number. */
  predicate ConnectionStep(st: Step) {
    st.Connect? || st.Drop? || st.Deliver? || st.Snapshot? || st.Replay? || st.ReplayFails?
  }

  predicate OnlyConnectionSteps(steps: seq<Step>) {
    forall i :: 0 <= i < |steps| ==> ConnectionStep(steps[i])
  }

  lemma {:induction false} ReconnectsKeepTheMap(s: State, steps: seq<Step>)
    requires Runnable(s, steps) && OnlyConnectionSteps(steps)
    ensures var t := Exec(s, steps);
      t.entries == s.entries && t.objs == s.objs && t.ops == s.ops && t.observers == s.observers
    decreases |steps|
  {
    if steps == [] {
    } else {
      assert ConnectionStep(steps[0]);
      ConnectionKeepsCounts(s, steps[0]);
      ReconnectsKeepTheMap(Next(s, steps[0]), steps[1..]);
    }
  }

  lemma {:induction false} ReconnectsAreAdmissible(s: State, steps: seq<Step>)
    requires Inv(s) && s.ops == map[] && Runnable(s, steps) && OnlyConnectionSteps(steps)
    ensures AdmissibleRun(s, steps) && Inv(Exec(s, steps))
    decreases |steps|
  {
    if steps == [] {
    } else {
      assert ConnectionStep(steps[0]);
      assert SentAdds(s.ops) == {} && SentRemoves(s.ops) == {};
      StepKeepsInv(s, steps[0]);
      ReconnectsAreAdmissible(Next(s, steps[0]), steps[1..]);
    }
  }

  /** The bound session is fresh but for one frame adding subs; with nothing to add it is fresh. */
  predicate ReplaysExactly(t: State, subs: seq<Key>) {
    if subs == [] then t.rebind.None? && t.fc < |t.sessions| && t.sessions[t.fc] == FreshSession()
    else Enabled(t, Replay) && Next(t, Replay).sessions[t.fc] == Session(true, [Frame(subs, [])], {})
  }

  /** Only a commit changes which keys are registered, whatever else goes on. */
  lemma {:induction false} OnlyCommitsChangeTheMap(s: State, steps: seq<Step>)
    requires Runnable(s, steps) && forall i :: 0 <= i < |steps| ==> !steps[i].Finish?
    ensures Exec(s, steps).entries == s.entries
    decreases |steps|
  {
    if steps == [] {
    } else {
      assert !steps[0].Finish?;
      OnlyCommitsChangeTheMap(Next(s, steps[0]), steps[1..]);
    }
  }

  /** Observers at rest and no commit: every counter and timestamp stays as it was too. */
  predicate Quiet(st: Step) {
    !st.Finish? && !st.Count? && !st.StampFirst? && !st.StampLast?
  }

  /**
   So an outage in which callers begin, write and give up, and connections come and go, changes neither map nor
   counters.
   */
  lemma {:induction false} QuietRunsKeepTheCounters(s: State, steps: seq<Step>)
    requires Runnable(s, steps) && forall i :: 0 <= i < |steps| ==> Quiet(steps[i])
    ensures Exec(s, steps).entries == s.entries && Exec(s, steps).objs == s.objs
    decreases |steps|
  {
    if steps == [] {
    } else {
      assert Quiet(steps[0]);
      QuietRunsKeepTheCounters(Next(s, steps[0]), steps[1..]);
    }
  }

  lemma RebindWritesOneFrame(s: State, subs: seq<Key>)
    requires Enabled(s, Snapshot(subs)) && s.sessions[|s.sessions| - 1] == FreshSession()
    ensures ReplaysExactly(Next(s, Snapshot(subs)), subs)
  {
  }

  /**
   No subscription is lost or invented: after any run at all, with callers in flight, aborting or none, the
   attempt that succeeds puts one frame on its fresh session (none when nothing is registered), naming each
   registered key exactly once and removing nothing, and touches neither the map nor a counter. If nothing was
   committed meanwhile, the keys are those from before the outage.
   */
  lemma ReconnectReplaysExactly(s: State, outage: seq<Step>, subs: seq<Key>)
    requires WellFormed(s) && Runnable(s, outage)
    requires Enabled(Exec(s, outage), Snapshot(subs)) && Exec(s, outage).sessions[|Exec(s, outage).sessions| - 1].up
    ensures Keys(subs) == Exec(s, outage).entries.Keys
    ensures forall i, j :: 0 <= i < j < |subs| ==> subs[i] != subs[j]
    ensures (forall i :: 0 <= i < |outage| ==> !outage[i].Finish?) ==> Keys(subs) == s.entries.Keys
    ensures (forall i :: 0 <= i < |outage| ==> Quiet(outage[i])) ==> Exec(s, outage).objs == s.objs
    ensures var t := Exec(s, outage); var u := Next(t, Snapshot(subs));
      && u.entries == t.entries && u.objs == t.objs && u.ops == t.ops && u.observers == t.observers
      && ReplaysExactly(u, subs)
  {
    var t := Exec(s, outage);
    RunKeepsWellFormed(s, outage);
    assert t.sessions[|t.sessions| - 1] == FreshSession();
    CoveringFrameHasNoRepeats(subs, t.entries.Keys);
    RebindWritesOneFrame(t, subs);
    if forall i :: 0 <= i < |outage| ==> !outage[i].Finish? {
      OnlyCommitsChangeTheMap(s, outage);
    }
    if forall i :: 0 <= i < |outage| ==> Quiet(outage[i]) {
      QuietRunsKeepTheCounters(s, outage);
    }
  }

  /** Whatever callers do between Rebind's snapshot and its send, the frame it sends is the one it snapshotted. */
  lemma {:induction false} SnapshotIsReplayed(s: State, subs: seq<Key>, steps: seq<Step>)
    requires s.rebind == Some(subs) && Runnable(s, steps)
    requires forall i :: 0 <= i < |steps| ==> !steps[i].Replay? && !steps[i].ReplayFails?
    ensures var t := Exec(s, steps);
      && t.rebind == Some(subs) && t.fc == s.fc
      && (Enabled(t, Replay) ==> Next(t, Replay).sessions[t.fc].queue == t.sessions[t.fc].queue + [Frame(subs, [])])
    decreases |steps|
  {
    if steps == [] {
    } else {
      assert !steps[0].Replay? && !steps[0].ReplayFails?;
      KeepsSnapshot(s, steps[0]);
      SnapshotIsReplayed(Next(s, steps[0]), subs, steps[1..]);
    }
  }

  lemma KeepsSnapshot(s: State, st: Step)
    requires s.rebind.Some? && Enabled(s, st) && !st.Replay? && !st.ReplayFails?
    ensures Next(s, st).rebind == s.rebind && Next(s, st).fc == s.fc
  {
    if st.Finish? {
      CommitEntries(s, s.ops[st.id].op);
    }
  }

  // ---------------------------------------------------------------- counting

  /** No subState object is shared, and observers hold allocated objects. */
  predicate Sound(entries: map<Key, nat>, n: nat, observers: map<nat, Observer>) {
    && (forall k :: k in entries ==> entries[k] < n)
    && (forall j, k :: j in entries && k in entries && j != k ==> entries[j] != entries[k])
    && (forall o :: o in observers ==> observers[o].obj < n)
  }

  /** Observations that have found the object but not yet bumped its count. */
  function Uncounted(observers: map<nat, Observer>, obj: nat): set<nat> {
    set o | o in observers && observers[o].obj == obj && observers[o].stage == Looked
  }

  predicate Balanced(entries: map<Key, nat>, objs: seq<Counters>, observers: map<nat, Observer>, tally: map<Key, nat>) {
    && tally.Keys == entries.Keys
    && (forall k :: k in entries ==>
        entries[k] < |objs| && objs[entries[k]].msgCount + |Uncounted(observers, entries[k])| == tally[k])
  }

  /** A new registration starts at 0; an observation adds 1; the rest keep their tally. */
  function Retally(tally: map<Key, nat>, now: set<Key>, observed: set<Key>): map<Key, nat> {
    map k | k in now :: if k !in tally then 0 else if k in observed then tally[k] + 1 else tally[k]
  }

  function Observed(st: Step): set<Key> {
    if st.Look? then {st.key} else {}
  }

  /** Per registered key, the observations made since its current registration. */
  function Tally(s: State, tally: map<Key, nat>, steps: seq<Step>): map<Key, nat>
    requires Runnable(s, steps)
    decreases |steps|
  {
    if steps == [] then tally else
      var t := Next(s, steps[0]);
      Tally(t, Retally(tally, t.entries.Keys, Observed(steps[0])), steps[1..])
  }

  predicate Tallied(s: State, tally: map<Key, nat>) {
    Sound(s.entries, |s.objs|, s.observers) && Balanced(s.entries, s.objs, s.observers, tally)
  }

  lemma Allocate(entries: map<Key, nat>, objs: seq<Counters>, observers: map<nat, Observer>, tally: map<Key, nat>,
                 key: Key)
    requires Sound(entries, |objs|, observers) && Balanced(entries, objs, observers, tally) && key !in entries
    ensures var e, o := entries[key := |objs|], objs + [Counters(0, 0, 0)];
      Sound(e, |o|, observers) && Balanced(e, o, observers, Retally(tally, e.Keys, {}))
  {
    assert Uncounted(observers, |objs|) == {};
  }

  lemma RetallyTwice(tally: map<Key, nat>, mid: set<Key>, all: set<Key>)
    requires tally.Keys <= mid <= all
    ensures Retally(Retally(tally, mid, {}), all, {}) == Retally(tally, all, {})
  {
  }

  lemma {:induction false} RegisterBalances(s: State, tally: map<Key, nat>, keys: seq<Key>)
    requires Tallied(s, tally)
    ensures var t := Register(s, keys); Tallied(t, Retally(tally, t.entries.Keys, {}))
    decreases |keys|
  {
    if keys == [] {
      assert Retally(tally, s.entries.Keys, {}) == tally;
    } else if keys[0] in s.entries {
      RegisterBalances(s, tally, keys[1..]);
    } else {
      Allocate(s.entries, s.objs, s.observers, tally, keys[0]);
      var t := s.(entries := s.entries[keys[0] := |s.objs|], objs := s.objs + [Counters(0, 0, 0)]);
      var next := Retally(tally, t.entries.Keys, {});
      RegisterBalances(t, next, keys[1..]);
      RegisterEntries(t, keys[1..]);
      RetallyTwice(tally, t.entries.Keys, Register(t, keys[1..]).entries.Keys);
    }
  }

  lemma OneMore(few: set<nat>, many: set<nat>, x: nat, also: bool)
    requires x !in few && forall y :: y in many <==> y in few || (y == x && also)
    ensures |many| == |few| + if also then 1 else 0
  {
    assert many == few + if also then {x} else {};
  }

  lemma UncountedAfterLook(observers: map<nat, Observer>, oid: nat, o: Observer, obj: nat)
    requires oid !in observers && o.stage == Looked
    ensures |Uncounted(observers[oid := o], obj)| == |Uncounted(observers, obj)| + if o.obj == obj then 1 else 0
  {
    var before, after := Uncounted(observers, obj), Uncounted(observers[oid := o], obj);
    forall x ensures x in after <==> x in before || (x == oid && o.obj == obj) {
      assert x != oid && x in observers ==> observers[oid := o][x] == observers[x];
    }
    OneMore(before, after, oid, o.obj == obj);
  }

  lemma UncountedAfterCount(observers: map<nat, Observer>, oid: nat, obj: nat)
    requires oid in observers && observers[oid].stage == Looked
    ensures |Uncounted(observers, obj)| ==
            |Uncounted(observers[oid := observers[oid].(stage := Counted)], obj)| +
            if observers[oid].obj == obj then 1 else 0
  {
    var c := observers[oid].(stage := Counted);
    var before, after := Uncounted(observers, obj), Uncounted(observers[oid := c], obj);
    forall x ensures x in before <==> x in after || (x == oid && observers[oid].obj == obj) {
      assert x != oid && x in observers ==> observers[oid := c][x] == observers[x];
    }
    OneMore(after, before, oid, observers[oid].obj == obj);
  }

  lemma LookBalances(entries: map<Key, nat>, objs: seq<Counters>, observers: map<nat, Observer>, tally: map<Key, nat>,
                     oid: nat, key: Key, o: Observer)
    requires Sound(entries, |objs|, observers) && Balanced(entries, objs, observers, tally)
    requires oid !in observers && key in entries && o.obj == entries[key] && o.stage == Looked
    ensures Sound(entries, |objs|, observers[oid := o])
    ensures Balanced(entries, objs, observers[oid := o], Retally(tally, entries.Keys, {key}))
  {
    forall k | k in entries
      ensures objs[entries[k]].msgCount + |Uncounted(observers[oid := o], entries[k])| ==
              tally[k] + if k == key then 1 else 0
    {
      UncountedAfterLook(observers, oid, o, entries[k]);
    }
  }

  lemma CountBalances(entries: map<Key, nat>, objs: seq<Counters>, observers: map<nat, Observer>, tally: map<Key, nat>,
                      oid: nat, c: Counters)
    requires Sound(entries, |objs|, observers) && Balanced(entries, objs, observers, tally)
    requires oid in observers && observers[oid].stage == Looked
    requires c.msgCount == objs[observers[oid].obj].msgCount + 1
    ensures Balanced(entries, objs[observers[oid].obj := c], observers[oid := observers[oid].(stage := Counted)], tally)
  {
    var after := observers[oid := observers[oid].(stage := Counted)];
    forall k | k in entries
      ensures objs[observers[oid].obj := c][entries[k]].msgCount + |Uncounted(after, entries[k])| == tally[k]
    {
      UncountedAfterCount(observers, oid, entries[k]);
    }
  }

  lemma StampBalances(entries: map<Key, nat>, objs: seq<Counters>, objs': seq<Counters>,
                      observers: map<nat, Observer>, observers': map<nat, Observer>, tally: map<Key, nat>)
    requires Sound(entries, |objs|, observers) && Balanced(entries, objs, observers, tally)
    requires |objs'| == |objs| && forall i :: 0 <= i < |objs| ==> objs'[i].msgCount == objs[i].msgCount
    requires observers'.Keys <= observers.Keys
    requires forall o :: o in observers && observers[o].stage == Looked ==>
      o in observers' && observers'[o] == observers[o]
    requires forall o :: o in observers' ==>
      observers'[o].obj == observers[o].obj && (observers'[o].stage == Looked ==> observers[o].stage == Looked)
    ensures Sound(entries, |objs'|, observers') && Balanced(entries, objs', observers', tally)
  {
    forall k | k in entries ensures Uncounted(observers', entries[k]) == Uncounted(observers, entries[k]) {}
  }

  lemma ObserverBalances(s: State, tally: map<Key, nat>, st: Step)
    requires Tallied(s, tally) && Enabled(s, st) && (st.Count? || st.StampFirst? || st.StampLast?)
    ensures Tallied(Next(s, st), tally) && Next(s, st).entries == s.entries
  {
    var t := Next(s, st);
    if st.Count? {
      CountBalances(s.entries, s.objs, s.observers, tally, st.oid, t.objs[s.observers[st.oid].obj]);
    } else {
      StampBalances(s.entries, s.objs, t.objs, s.observers, t.observers, tally);
    }
  }

  lemma FinishBalances(s: State, tally: map<Key, nat>, id: nat)
    requires Tallied(s, tally) && Enabled(s, Finish(id))
    ensures var t := Next(s, Finish(id)); Tallied(t, Retally(tally, t.entries.Keys, {}))
  {
    if s.ops[id].op.AddOp? {
      RegisterBalances(s, tally, s.ops[id].op.keys);
    }
  }

  lemma LookStepBalances(s: State, tally: map<Key, nat>, oid: nat, k: Key, at: int)
    requires Tallied(s, tally) && Enabled(s, Look(oid, k, at))
    ensures Tallied(Next(s, Look(oid, k, at)), Retally(tally, s.entries.Keys, {k}))
  {
    if k in s.entries {
      LookBalances(s.entries, s.objs, s.observers, tally, oid, k, Observer(s.entries[k], at, Looked));
    } else {
      assert Retally(tally, s.entries.Keys, {k}) == tally;
    }
  }

  lemma StepBalances(s: State, tally: map<Key, nat>, st: Step)
    requires Tallied(s, tally) && Enabled(s, st)
    ensures Tallied(Next(s, st), Retally(tally, Next(s, st).entries.Keys, Observed(st)))
  {
    if st.Look? {
      LookStepBalances(s, tally, st.oid, st.key, st.at);
    } else if st.Finish? {
      FinishBalances(s, tally, st.id);
    } else if st.Count? || st.StampFirst? || st.StampLast? {
      ObserverBalances(s, tally, st);
      NothingToTally(s, tally);
    } else {
      if ConnectionStep(st) {
        ConnectionKeepsCounts(s, st);
      } else {
        CallersKeepCounts(s, st);
      }
      NothingToTally(s, tally);
      QuietStep(s, Next(s, st), tally);
    }
  }

  lemma NothingToTally(s: State, tally: map<Key, nat>)
    requires tally.Keys == s.entries.Keys
    ensures Retally(tally, s.entries.Keys, {}) == tally
  {
  }

  lemma QuietStep(s: State, t: State, tally: map<Key, nat>)
    requires Tallied(s, tally) && t.entries == s.entries && t.objs == s.objs && t.observers == s.observers
    ensures Tallied(t, tally)
  {
  }

  lemma ConnectionKeepsCounts(s: State, st: Step)
    requires Enabled(s, st) && ConnectionStep(st)
    ensures var t := Next(s, st);
      t.entries == s.entries && t.objs == s.objs && t.observers == s.observers && t.ops == s.ops
  {
  }

  lemma CallersKeepCounts(s: State, st: Step)
    requires Enabled(s, st) && (st.BeginAdd? || st.BeginRemove? || st.Call? || st.Write? || st.Abort?)
    ensures var t := Next(s, st); t.entries == s.entries && t.objs == s.objs && t.observers == s.observers
  {
  }

  /**
   Conservation, over every run at all: a key's msgCount plus the observations still between lookup and
   increment is the number of observations of that key since its current registration.
   */
  lemma {:induction false} CountsAreConserved(s: State, tally: map<Key, nat>, steps: seq<Step>)
    requires Tallied(s, tally) && Runnable(s, steps)
    ensures Tallied(Exec(s, steps), Tally(s, tally, steps))
    decreases |steps|
  {
    if steps == [] {
    } else {
      StepBalances(s, tally, steps[0]);
      var t := Next(s, steps[0]);
      CountsAreConserved(t, Retally(tally, t.entries.Keys, Observed(steps[0])), steps[1..]);
    }
  }

  // ---------------------------------------------------------------- sightings

  /** Some observer of this object has counted, and has yet to stamp the first or the last sighting. */
  predicate Stamping(observers: map<nat, Observer>, obj: nat, stages: set<ObserverStage>) {
    exists o :: o in observers && observers[o].obj == obj && observers[o].stage in stages
  }

  /** A counted object lacks a timestamp only while the observer that will set it is under way. */
  predicate Sighted(objs: seq<Counters>, observers: map<nat, Observer>) {
    && (forall o :: o in observers ==> observers[o].at != 0)
    && (forall i :: 0 <= i < |objs| && objs[i].msgCount > 0 && objs[i].firstSeenAt == 0 ==>
      Stamping(observers, i, {Counted}))
    && (forall i :: 0 <= i < |objs| && objs[i].msgCount > 0 && objs[i].lastSeenAt == 0 ==>
      Stamping(observers, i, {Counted, Stamped}))
  }

  /** Objects are only added; counts never fall; a first sighting, once set, stays. */
  predicate Grown(objs: seq<Counters>, later: seq<Counters>) {
    |objs| <= |later| && forall i :: 0 <= i < |objs| ==>
      objs[i].msgCount <= later[i].msgCount &&
        (objs[i].firstSeenAt != 0 ==> later[i].firstSeenAt == objs[i].firstSeenAt)
  }

  predicate ClockSet(st: Step) {
    st.Look? ==> st.at != 0
  }

  lemma {:induction false} RegisterAllocates(s: State, keys: seq<Key>)
    ensures var r := Register(s, keys); |s.objs| <= |r.objs| && r.objs[..|s.objs|] == s.objs
    ensures forall i :: |s.objs| <= i < |Register(s, keys).objs| ==> Register(s, keys).objs[i] == Counters(0, 0, 0)
    decreases |keys|
  {
    if keys == [] {
    } else {
      if keys[0] in s.entries {
        RegisterAllocates(s, keys[1..]);
      } else {
        var t := s.(entries := s.entries[keys[0] := |s.objs|], objs := s.objs + [Counters(0, 0, 0)]);
        RegisterAllocates(t, keys[1..]);
        var r := Register(t, keys[1..]);
        assert r.objs[..|s.objs|] == r.objs[..|t.objs|][..|s.objs|] == s.objs;
        assert r.objs[|s.objs|] == r.objs[..|t.objs|][|s.objs|];
      }
    }
  }

  /** One observer moving on: its object's counters and its own stage are all that change. */
  lemma ObserverSights(objs: seq<Counters>, observers: map<nat, Observer>, oid: nat, c: Counters,
                       observers': map<nat, Observer>)
    requires Sighted(objs, observers) && oid in observers && observers[oid].obj < |objs|
    requires observers' - {oid} == observers - {oid} &&
      (oid in observers' ==> observers'[oid].obj == observers[oid].obj && observers'[oid].at != 0)
    requires c.msgCount > 0 && c.firstSeenAt == 0 ==>
      || (oid in observers' && observers'[oid].stage == Counted)
      || (objs[observers[oid].obj].msgCount > 0 && objs[observers[oid].obj].firstSeenAt == 0 &&
        observers[oid].stage != Counted)
    requires c.msgCount > 0 && c.lastSeenAt == 0 ==> oid in observers' && observers'[oid].stage in {Counted, Stamped}
    ensures Sighted(objs[observers[oid].obj := c], observers')
  {
    forall o | o in observers' ensures observers'[o].at != 0 {
      assert o != oid ==> o in observers' - {oid};
    }
    var obj := observers[oid].obj;
    forall i, stages | 0 <= i < |objs| && (i != obj || observers[oid].stage !in stages) &&
      Stamping(observers, i, stages)
      ensures Stamping(observers', i, stages)
    {
      var o :| o in observers && observers[o].obj == i && observers[o].stage in stages;
      assert o in observers - {oid};
    }
  }

  lemma ObserverStepSights(s: State, st: Step)
    requires Enabled(s, st) && (st.Count? || st.StampFirst? || st.StampLast?) && Sighted(s.objs, s.observers)
    ensures Sighted(Next(s, st).objs, Next(s, st).observers) && Grown(s.objs, Next(s, st).objs)
  {
    var o, t := s.observers[st.oid], Next(s, st);
    ObserverSights(s.objs, s.observers, st.oid, t.objs[o.obj], t.observers);
    assert t.objs == s.objs[o.obj := t.objs[o.obj]];
  }

  lemma LookSights(objs: seq<Counters>, observers: map<nat, Observer>, oid: nat, o: Observer)
    requires Sighted(objs, observers) && oid !in observers && o.at != 0
    ensures Sighted(objs, observers[oid := o])
  {
    forall i, stages | Stamping(observers, i, stages) ensures Stamping(observers[oid := o], i, stages) {
      var w :| w in observers && observers[w].obj == i && observers[w].stage in stages;
      assert observers[oid := o][w] == observers[w];
    }
  }

  lemma FinishSights(s: State, id: nat)
    requires Enabled(s, Finish(id)) && Sighted(s.objs, s.observers)
    ensures Sighted(Next(s, Finish(id)).objs, s.observers) && Grown(s.objs, Next(s, Finish(id)).objs)
  {
    if s.ops[id].op.AddOp? {
      RegisterAllocates(s, s.ops[id].op.keys);
      var objs := Register(s, s.ops[id].op.keys).objs;
      assert forall i :: 0 <= i < |s.objs| ==> objs[i] == objs[..|s.objs|][i];
    }
  }

  lemma StepSights(s: State, st: Step)
    requires Enabled(s, st) && ClockSet(st) && Sighted(s.objs, s.observers)
    ensures Sighted(Next(s, st).objs, Next(s, st).observers) && Grown(s.objs, Next(s, st).objs)
  {
    if st.Look? {
      if st.key in s.entries {
        LookSights(s.objs, s.observers, st.oid, Observer(s.entries[st.key], st.at, Looked));
      }
    } else if st.Finish? {
      FinishSights(s, st.id);
      CommitEntries(s, s.ops[st.id].op);
    } else if st.Count? || st.StampFirst? || st.StampLast? {
      ObserverStepSights(s, st);
    } else if ConnectionStep(st) {
      ConnectionKeepsCounts(s, st);
    } else {
      CallersKeepCounts(s, st);
    }
  }

  /**
   Over every run on a clock that never reads 0: counts never fall, a first sighting never changes once set, and
   when no observer is under way every counted key has both its timestamps.
   */
  lemma {:induction false} SightingsSettle(s: State, steps: seq<Step>)
    requires Sighted(s.objs, s.observers) && Runnable(s, steps)
    requires forall i :: 0 <= i < |steps| ==> ClockSet(steps[i])
    ensures var t := Exec(s, steps); Sighted(t.objs, t.observers) && Grown(s.objs, t.objs)
    ensures var t := Exec(s, steps);
      t.observers == map[] ==> forall i :: 0 <= i < |t.objs| && t.objs[i].msgCount > 0 ==>
        t.objs[i].firstSeenAt != 0 && t.objs[i].lastSeenAt != 0
    decreases |steps|
  {
    if steps == [] {
    } else {
      assert ClockSet(steps[0]);
      StepSights(s, steps[0]);
      SightingsSettle(Next(s, steps[0]), steps[1..]);
    }
  }
}
