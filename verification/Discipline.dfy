/** What callers must respect for lockstep: a sufficient calling discipline, and what goes wrong without it. */
module Discipline {
  import opened Wire
  import opened Lockstep

  function Names(op: Op): set<Key> {
    match op
    case AddOp(keys) => Keys(keys)
    case RemoveOp(k) => {k}
  }

  predicate Untouched(s: State, ks: set<Key>) {
    forall id :: id in s.ops ==> Names(s.ops[id].op) !! ks
  }

  /** Operations that find work overlap neither on a key nor with a Rebind. */
  predicate Disciplined(s: State, st: Step) {
    match st
    case BeginAdd(_, pairs) => s.rebind.None? && Untouched(s, Keys(Missing(s.entries.Keys, pairs)))
    case BeginRemove(_, k) => s.rebind.None? && Untouched(s, {k})
    case Snapshot(_) => s.ops == map[]
    case _ => true
  }

  predicate DisciplinedRun(s: State, steps: seq<Step>)
    requires Runnable(s, steps)
    decreases |steps|
  {
    steps == [] || (Disciplined(s, steps[0]) && DisciplinedRun(Next(s, steps[0]), steps[1..]))
  }

  predicate Apart(s: State) {
    && (s.rebind.Some? ==> s.ops == map[])
    && (forall id :: id in s.ops && !s.ops[id].phase.Checked? ==> s.ops[id].phase.sid == s.fc)
    && (forall i, j :: i in s.ops && j in s.ops && i != j ==> Names(s.ops[i].op) !! Names(s.ops[j].op))
  }

  lemma ApartBegin(s: State, id: nat, op: Op)
    requires Apart(s) && s.rebind.None? && id !in s.ops && Untouched(s, Names(op))
    ensures Apart(s.(ops := s.ops[id := Pending(op, Checked)]))
  {
  }

  /** Forgetting an operation or moving one along keeps operations apart. */
  lemma ApartAfter(s: State, t: State)
    requires Apart(s) && t.fc == s.fc && t.rebind == s.rebind && t.ops.Keys <= s.ops.Keys
    requires forall id :: id in t.ops ==>
      t.ops[id].op == s.ops[id].op && (t.ops[id].phase.Checked? || t.ops[id].phase.sid == s.fc)
    ensures Apart(t)
  {
  }

  lemma ApartStep(s: State, st: Step)
    requires Apart(s) && Enabled(s, st) && Disciplined(s, st)
    ensures Apart(Next(s, st))
  {
    match st
    case BeginAdd(id, pairs) =>
      if Missing(s.entries.Keys, pairs) != [] {
        ApartBegin(s, id, AddOp(Missing(s.entries.Keys, pairs)));
      }
    case BeginRemove(id, k) =>
      if k in s.entries {
        ApartBegin(s, id, RemoveOp(k));
      }
    case Call(_) => ApartAfter(s, Next(s, st));
    case Write(_) => ApartAfter(s, Next(s, st));
    case Abort(_) => ApartAfter(s, Next(s, st));
    case Finish(id) =>
      CommitEntries(s, s.ops[id].op);
      ApartAfter(s, Next(s, st));
    case _ =>
  }

  lemma ApartIsAdmissible(s: State, st: Step)
    requires WellFormed(s) && Apart(s) && Enabled(s, st) && Disciplined(s, st)
    ensures Admissible(s, st)
  {
    if st.Write? {
      var f := FrameOf(s.ops[st.id].op);
      forall id, k | id in s.ops && k in RemovesInFlight(s.ops[id])
        ensures k !in Keys(f.add)
      {
        assert k in Names(s.ops[id].op);
      }
      forall id, k | id in s.ops && k in AddsInFlight(s.ops[id])
        ensures k !in Keys(f.remove)
      {
        assert k in Names(s.ops[id].op);
      }
    }
  }

  /** The discipline is enough: every disciplined run is an admissible one. */
  lemma {:induction false} DisciplineSuffices(s: State, steps: seq<Step>)
    requires Apart(s) && Inv(s) && Runnable(s, steps) && DisciplinedRun(s, steps)
    ensures AdmissibleRun(s, steps) && Inv(Exec(s, steps)) && Apart(Exec(s, steps))
    decreases |steps|
  {
    if steps == [] {
    } else {
      ApartStep(s, steps[0]);
      ApartIsAdmissible(s, steps[0]);
      StepKeepsInv(s, steps[0]);
      DisciplineSuffices(Next(s, steps[0]), steps[1..]);
    }
  }

  /** Disciplined callers from service start: a settled live connection holds exactly the manager's keys. */
  lemma SettledMeansEqual(steps: seq<Step>)
    requires Runnable(Init(), steps) && DisciplinedRun(Init(), steps)
    ensures var t := Exec(Init(), steps);
      t.fc < |t.sessions| &&
      (t.sessions[t.fc].up && t.ops == map[] && t.rebind.None? && t.sessions[t.fc].queue == []
       ==> t.sessions[t.fc].subscribed == t.entries.Keys)
  {
    DisciplineSuffices(Init(), steps);
  }

  // ---------------------------------------------------------------- what goes wrong without it

  /** The live wire and the map disagree about k, and no operation is left to repair it. */
  ghost predicate Diverged(s: State, k: Key) {
    && s.fc < |s.sessions| && s.sessions[s.fc].up && s.rebind.None? && s.ops == map[]
    && (k in Upcoming(s) <==> k !in s.entries)
  }

  lemma SendEffect(s: State, f: Frame)
    requires s.fc < |s.sessions|
    ensures Upcoming(Send(s, s.fc, f)) == Apply(Upcoming(s), f)
  {
    FoldSnoc(s.sessions[s.fc].subscribed, s.sessions[s.fc].queue, f);
  }

  lemma Two(s: State, a: Step, b: Step)
    requires Enabled(s, a) && Enabled(Next(s, a), b)
    ensures Runnable(s, [a, b]) && Exec(s, [a, b]) == Next(Next(s, a), b)
  {
    ExecCons(Next(s, a), b, []);
    ExecCons(s, a, [b]);
    assert [b] + [] == [b] && [a] + [b] == [a, b];
  }

  lemma Three(s: State, a: Step, b: Step, c: Step)
    requires Enabled(s, a) && Enabled(Next(s, a), b) && Enabled(Next(Next(s, a), b), c)
    ensures Runnable(s, [a, b, c]) && Exec(s, [a, b, c]) == Next(Next(Next(s, a), b), c)
  {
    Two(Next(s, a), b, c);
    ExecCons(s, a, [b, c]);
    assert [a] + [b, c] == [a, b, c];
  }

  /** Two written opposite operations whose commits run against the order of their frames. */
  lemma CrossedCommits(s: State, first: nat, second: nat, k: Key)
    requires s.fc < |s.sessions| && s.sessions[s.fc].up && s.rebind.None?
    requires first != second && s.ops.Keys == {first, second}
    requires s.ops[first].phase.Written? && s.ops[second].phase.Written?
    requires k in Names(s.ops[first].op) && k in Names(s.ops[second].op)
    requires s.ops[first].op.AddOp? != s.ops[second].op.AddOp?
    requires k in Upcoming(s) <==> s.ops[second].op.AddOp?
    ensures Diverged(Next(Next(s, Finish(second)), Finish(first)), k)
  {
    FinishEffect(s, second);
    var s2 := Next(s, Finish(second));
    FinishEffect(s2, first);
    assert s2.ops - {first} == map[];
  }

  /** Opposite frames for one key, the second written before the first operation commits, commits crossed. */
  lemma OverlapDiverges(s: State, first: nat, second: nat, k: Key)
    requires WellFormed(s) && s.sessions[s.fc].up && s.rebind.None?
    requires first != second && s.ops.Keys == {first, second}
    requires s.ops[first].phase.Written? && s.ops[second].phase == Called(s.fc)
    requires k in Names(s.ops[first].op) && k in Names(s.ops[second].op)
    requires s.ops[first].op.AddOp? != s.ops[second].op.AddOp?
    ensures Enabled(s, Write(second)) && !Admissible(s, Write(second))
    ensures var steps := [Write(second), Finish(second), Finish(first)];
      Runnable(s, steps) && Diverged(Exec(s, steps), k)
  {
    assert k in AddsInFlight(s.ops[first]) || k in RemovesInFlight(s.ops[first]);
    SendEffect(s, FrameOf(s.ops[second].op));
    var s1 := Next(s, Write(second));
    CrossedCommits(s1, first, second, k);
    Three(s, Write(second), Finish(second), Finish(first));
  }

  /** Once a Rebind is bound to a fresh session, replaying and then committing leaves k wrong. */
  lemma ReplayThenCommit(s: State, id: nat, k: Key)
    requires s.fc < |s.sessions| && s.sessions[s.fc] == FreshSession()
    requires s.rebind.Some? && Keys(s.rebind.value) == s.entries.Keys
    requires s.ops.Keys == {id} && s.ops[id].phase.Written? && k in Names(s.ops[id].op)
    requires s.ops[id].op.AddOp? <==> k !in s.entries
    ensures Diverged(Next(Next(s, Replay), Finish(id)), k)
  {
    SendEffect(s, Frame(s.rebind.value, []));
    var t := Next(s, Replay);
    assert t == Send(s, s.fc, Frame(s.rebind.value, [])).(rebind := None);
    FinishEffect(t, id);
    assert s.ops - {id} == map[];
  }

  /** Rebind binds a fresh session; with no entries it returns at once, writing nothing. */
  lemma SnapshotThenCommit(s: State, id: nat, k: Key)
    requires s.fc < |s.sessions| && s.sessions[s.fc] == FreshSession() && s.rebind.None? && s.entries == map[]
    requires s.ops.Keys == {id} && s.ops[id].phase.Written? && k in Names(s.ops[id].op) && s.ops[id].op.AddOp?
    ensures Diverged(Next(s, Finish(id)), k)
  {
    FinishEffect(s, id);
    assert s.ops - {id} == map[];
  }

  lemma StraddleInadmissible(s: State, id: nat, k: Key, subs: seq<Key>)
    requires WellFormed(s) && Enabled(s, Snapshot(subs)) && s.sessions[|s.sessions| - 1].up
    requires id in s.ops && s.ops[id].phase.Written? && k in Names(s.ops[id].op)
    requires s.ops[id].op.AddOp? <==> k !in s.entries
    ensures !Admissible(s, Snapshot(subs))
  {
    assert k in AddsInFlight(s.ops[id]) || k in RemovesInFlight(s.ops[id]);
  }

  /** An Add written before the snapshot of an empty map and committed after it is lost from the wire. */
  lemma LostAddDiverges(s: State, id: nat, k: Key)
    requires WellFormed(s) && Enabled(s, Snapshot([])) && s.sessions[|s.sessions| - 1] == FreshSession()
    requires s.ops.Keys == {id} && s.ops[id].phase.Written? && s.ops[id].op.AddOp? && k in s.ops[id].op.keys
    ensures !Admissible(s, Snapshot([]))
    ensures var steps := [Snapshot([]), Finish(id)];
      Runnable(s, steps) && Diverged(Exec(s, steps), k)
  {
    assert k !in s.entries by { assert s.entries.Keys == Keys([]) == {}; }
    StraddleInadmissible(s, id, k, []);
    SnapshotThenCommit(Next(s, Snapshot([])), id, k);
    Two(s, Snapshot([]), Finish(id));
  }

  /** A written operation that Rebind's snapshot does not reflect is lost (Add) or undone (Remove). */
  lemma StraddleDiverges(s: State, id: nat, k: Key, subs: seq<Key>)
    requires WellFormed(s) && Enabled(s, Snapshot(subs)) && s.sessions[|s.sessions| - 1] == FreshSession() && subs != []
    requires s.ops.Keys == {id} && s.ops[id].phase.Written? && k in Names(s.ops[id].op)
    requires s.ops[id].op.AddOp? <==> k !in s.entries
    ensures !Admissible(s, Snapshot(subs))
    ensures var steps := [Snapshot(subs), Replay, Finish(id)];
      Runnable(s, steps) && Diverged(Exec(s, steps), k)
  {
    StraddleInadmissible(s, id, k, subs);
    ReplayThenCommit(Next(s, Snapshot(subs)), id, k);
    Three(s, Snapshot(subs), Replay, Finish(id));
  }

  lemma ReplayOverRemove(s: State, id: nat, k: Key)
    requires s.fc < |s.sessions| && s.sessions[s.fc].up && s.rebind.Some? && k in Unreplayed(s)
    requires s.ops == map[id := Pending(RemoveOp(k), Written(s.fc))]
    ensures Diverged(Next(Next(s, Replay), Finish(id)), k)
  {
    SendEffect(s, Frame(s.rebind.value, []));
    FinishEffect(Next(s, Replay), id);
    assert s.ops - {id} == map[];
  }

  /** A Remove written on the new session between Rebind's snapshot and its replay is overtaken by the replay. */
  lemma OvertakenRemoveDiverges(s: State, id: nat, k: Key)
    requires WellFormed(s) && s.sessions[s.fc].up && s.rebind.Some? && k in Unreplayed(s)
    requires s.ops == map[id := Pending(RemoveOp(k), Called(s.fc))]
    ensures Enabled(s, Write(id)) && !Admissible(s, Write(id))
    ensures var steps := [Write(id), Replay, Finish(id)];
      Runnable(s, steps) && Diverged(Exec(s, steps), k)
  {
    SendEffect(s, Frame([], [k]));
    var s1 := Next(s, Write(id));
    ReplayOverRemove(s1, id, k);
    Three(s, Write(id), Replay, Finish(id));
  }

  /** An operation that read the controller before Rebind swapped it writes to the abandoned session. */
  lemma StaleControllerDiverges(s: State, id: nat, k: Key, stale: nat)
    requires WellFormed(s) && stale < s.fc && s.sessions[stale].up
    requires s.sessions[s.fc].up && s.rebind.None? && k !in Upcoming(s)
    requires s.ops == map[id := Pending(AddOp([k]), Called(stale))] && k !in s.entries
    ensures Enabled(s, Write(id)) && !Admissible(s, Write(id))
    ensures var steps := [Write(id), Finish(id)];
      Runnable(s, steps) && Diverged(Exec(s, steps), k)
  {
    var s1 := Next(s, Write(id));
    assert Upcoming(s1) == Upcoming(s);
    FinishEffect(s1, id);
    assert s1.ops - {id} == map[];
    Two(s, Write(id), Finish(id));
  }

  // ---------------------------------------------------------------- two are reached from service start

  lemma OneAddWritten(k: Key) returns (steps: seq<Step>)
    ensures Runnable(Init(), steps) && Exec(Init(), steps) == State(
      map[], [], 0, [Session(true, [Frame([k], [])], {})], map[0 := Pending(AddOp([k]), Written(0))], None, map[])
    ensures steps == [BeginAdd(0, [k]), Call(0), Write(0)]
  {
    MissingOne(Init().entries.Keys, k);
    var s1 := Next(Init(), BeginAdd(0, [k]));
    var s2 := Next(s1, Call(0));
    var s3 := Next(s2, Write(0));
    assert [] + [Frame([k], [])] == [Frame([k], [])];
    assert s3.sessions == [Session(true, [Frame([k], [])], {})];
    assert s3.ops == map[0 := Pending(AddOp([k]), Written(0))];
    Three(Init(), BeginAdd(0, [k]), Call(0), Write(0));
    steps := [BeginAdd(0, [k]), Call(0), Write(0)];
  }

  /** One Add racing one reconnect is enough: the manager lists k, the new gateway session never hears of it. */
  lemma OneCallerReachesDivergence(k: Key) returns (steps: seq<Step>)
    ensures Runnable(Init(), steps) && Diverged(Exec(Init(), steps), k)
  {
    var a := OneAddWritten(k);
    var s := Exec(Init(), a);
    var t := Next(Next(s, Drop(0)), Connect);
    Two(s, Drop(0), Connect);
    ExecSplit(Init(), a, [Drop(0), Connect]);
    LostAddDiverges(t, 0, k);
    ExecSplit(Init(), a + [Drop(0), Connect], [Snapshot([]), Finish(0)]);
    steps := a + [Drop(0), Connect] + [Snapshot([]), Finish(0)];
  }

  /** A second caller's Add that misses, then the first one's commit, then a Remove that sees it. */
  lemma MissCommitSee(s: State, k: Key)
    requires s.entries == map[] && s.ops == map[0 := Pending(AddOp([k]), Written(0))]
    ensures Runnable(s, [BeginAdd(1, [k]), Finish(0), BeginRemove(0, k)])
    ensures var t := Exec(s, [BeginAdd(1, [k]), Finish(0), BeginRemove(0, k)]);
      && t.sessions == s.sessions && t.fc == s.fc && t.rebind == s.rebind
      && t.ops == map[1 := Pending(AddOp([k]), Checked), 0 := Pending(RemoveOp(k), Checked)]
  {
    MissingOne(s.entries.Keys, k);
    var s1 := Next(s, BeginAdd(1, [k]));
    FinishEffect(s1, 0);
    assert Next(s1, Finish(0)).ops == map[1 := Pending(AddOp([k]), Checked)];
    Three(s, BeginAdd(1, [k]), Finish(0), BeginRemove(0, k));
  }

  lemma CallCallWrite(s: State, k: Key)
    requires WellFormed(s) && s.sessions[s.fc].up && s.rebind.None?
    requires s.ops == map[1 := Pending(AddOp([k]), Checked), 0 := Pending(RemoveOp(k), Checked)]
    ensures Runnable(s, [Call(0), Call(1), Write(1)])
    ensures var t := Exec(s, [Call(0), Call(1), Write(1)]);
      && WellFormed(t) && t.sessions[t.fc].up && t.rebind.None? && t.fc == s.fc
      && t.ops == map[1 := Pending(AddOp([k]), Written(s.fc)), 0 := Pending(RemoveOp(k), Called(s.fc))]
  {
    Three(s, Call(0), Call(1), Write(1));
  }

  /** Both operations written, the Add first, and committed the other way round. */
  lemma AddThenRemoveCross(s: State, k: Key)
    requires WellFormed(s) && s.sessions[s.fc].up && s.rebind.None?
    requires s.ops == map[1 := Pending(AddOp([k]), Checked), 0 := Pending(RemoveOp(k), Checked)]
    ensures var steps := [Call(0), Call(1), Write(1)] + [Write(0), Finish(0), Finish(1)];
      Runnable(s, steps) && Diverged(Exec(s, steps), k)
  {
    CallCallWrite(s, k);
    OverlapDiverges(Exec(s, [Call(0), Call(1), Write(1)]), 1, 0, k);
    ExecSplit(s, [Call(0), Call(1), Write(1)], [Write(0), Finish(0), Finish(1)]);
  }

  lemma MissCommitSeeCross(s: State, k: Key)
    requires WellFormed(s) && s.sessions[s.fc].up && s.rebind.None?
    requires s.entries == map[] && s.ops == map[0 := Pending(AddOp([k]), Written(0))]
    ensures var steps := [BeginAdd(1, [k]), Finish(0), BeginRemove(0, k)] +
      ([Call(0), Call(1), Write(1)] + [Write(0), Finish(0), Finish(1)]);
      Runnable(s, steps) && Diverged(Exec(s, steps), k)
  {
    MissCommitSee(s, k);
    var t := Exec(s, [BeginAdd(1, [k]), Finish(0), BeginRemove(0, k)]);
    AddThenRemoveCross(t, k);
    ExecSplit(s, [BeginAdd(1, [k]), Finish(0), BeginRemove(0, k)],
      [Call(0), Call(1), Write(1)] + [Write(0), Finish(0), Finish(1)]);
  }

  /**
   Without a reconnect two callers are enough: one adds k and then removes it while the other's Add, which missed, is
   under way.
   */
  lemma TwoCallersReachDivergence(k: Key) returns (steps: seq<Step>)
    ensures steps == [BeginAdd(0, [k]), Call(0), Write(0)] + ([BeginAdd(1, [k]), Finish(0), BeginRemove(0, k)]
                     + ([Call(0), Call(1), Write(1)] + [Write(0), Finish(0), Finish(1)]))
    ensures Runnable(Init(), steps) && Diverged(Exec(Init(), steps), k)
  {
    var a := OneAddWritten(k);
    var rest := [BeginAdd(1, [k]), Finish(0), BeginRemove(0, k)] +
      ([Call(0), Call(1), Write(1)] + [Write(0), Finish(0), Finish(1)]);
    MissCommitSeeCross(Exec(Init(), a), k);
    ExecSplit(Init(), a, rest);
    steps := a + rest;
  }
}
