/**
 The subscription protocol as a step machine: concurrent Add/BulkAdd/Remove
 callers, the reconnect path, the observers on the ingress path, the FIFO of
 in-flight FEED_SUBSCRIPTION frames and the gateway's session set.

 One step is one atomic action of the source: a critical section of the
 manager's mutex, a read of the unlocked controller field, one frame written by
 the client, one frame handled by the gateway, one atomic counter update.
 */
module Lockstep {
  import opened Wire

  /** One dxLink connection: the client end and the gateway's session. */
  datatype Session = Session(up: bool, queue: seq<Frame>, subscribed: set<Key>)

  /** A `subState` object; timestamps are unix nanos, 0 meaning unset. */
  datatype Counters = Counters(msgCount: nat, firstSeenAt: int, lastSeenAt: int)

  /** What an operation still has to do after the check under the lock found work. */
  datatype Op = AddOp(keys: seq<Key>) | RemoveOp(key: Key)

  /** Checked: found work. Called: has read the controller field. Written: its frame is on the wire. */
  datatype Phase = Checked | Called(sid: nat) | Written(sid: nat)

  datatype Pending = Pending(op: Op, phase: Phase)

  datatype ObserverStage = Looked | Counted | Stamped

  datatype Observer = Observer(obj: nat, at: int, stage: ObserverStage)

  datatype State = State(
    entries: map<Key, nat>,      // the manager's map; the value names a subState object
    objs: seq<Counters>,         // every subState object allocated so far
    fc: nat,                     // the session the manager's controller drives
    sessions: seq<Session>,      // every connection dialled so far
    ops: map<nat, Pending>,      // operations between their check and their return
    rebind: Option<seq<Key>>,    // Rebind between its snapshot and its send
    observers: map<nat, Observer>)

  datatype Step =
    | BeginAdd(id: nat, pairs: seq<Key>)
    | BeginRemove(id: nat, key: Key)
    | Call(id: nat)
    | Write(id: nat)
    | Finish(id: nat)
    | Abort(id: nat)
    | Deliver(sid: nat)
    | Drop(sid: nat)
    | Connect
    | Snapshot(subs: seq<Key>)
    | Replay
    | ReplayFails
    | Look(oid: nat, key: Key, at: int)
    | Count(oid: nat)
    | StampFirst(oid: nat)
    | StampLast(oid: nat)

  function FreshSession(): Session {
    Session(true, [], {})
  }

  /** The first dialAndSubscribe: one open session bound to an empty manager. */
  function Init(): State {
    State(map[], [], 0, [FreshSession()], map[], None, map[])
  }

  // ---------------------------------------------------------------- steps

  /** The locked commit loop of BulkAdd: a new object for every key still unregistered. */
  function Register(s: State, missing: seq<Key>): State
    decreases |missing|
  {
    if missing == [] then s
    else if missing[0] in s.entries then Register(s, missing[1..])
    else Register(s.(entries := s.entries[missing[0] := |s.objs|], objs := s.objs + [Counters(0, 0, 0)]), missing[1..])
  }

  function FrameOf(op: Op): Frame {
    match op
    case AddOp(missing) => Frame(missing, [])
    case RemoveOp(k) => Frame([], [k])
  }

  function Commit(s: State, op: Op): State {
    match op
    case AddOp(missing) => Register(s, missing)
    case RemoveOp(k) => s.(entries := s.entries - {k})
  }

  function Send(s: State, sid: nat, f: Frame): State
    requires sid < |s.sessions|
  {
    s.(sessions := s.sessions[sid := s.sessions[sid].(queue := s.sessions[sid].queue + [f])])
  }

  predicate Enabled(s: State, st: Step) {
    match st
    case BeginAdd(id, _) => id !in s.ops
    case BeginRemove(id, _) => id !in s.ops
    case Call(id) => id in s.ops && s.ops[id].phase == Checked
    case Write(id) => id in s.ops && s.ops[id].phase.Called? && s.ops[id].phase.sid < |s.sessions|
    case Finish(id) => id in s.ops && s.ops[id].phase.Written?
    case Abort(id) =>
      && id in s.ops && !s.ops[id].phase.Checked?
      && s.ops[id].phase.sid < |s.sessions| && !s.sessions[s.ops[id].phase.sid].up
    case Deliver(sid) => sid < |s.sessions| && s.sessions[sid].queue != []
    case Drop(sid) => sid < |s.sessions|
    case Connect => true
    case Snapshot(subs) =>
      && s.rebind.None? && s.fc + 1 < |s.sessions|
      && Keys(subs) == s.entries.Keys && |subs| == |s.entries|
    case Replay => s.rebind.Some? && s.fc < |s.sessions|
    case ReplayFails => s.rebind.Some? && s.fc < |s.sessions| && !s.sessions[s.fc].up
    case Look(oid, _, _) => oid !in s.observers
    case Count(oid) => oid in s.observers && s.observers[oid].stage == Looked && s.observers[oid].obj < |s.objs|
    case StampFirst(oid) => oid in s.observers && s.observers[oid].stage == Counted && s.observers[oid].obj < |s.objs|
    case StampLast(oid) => oid in s.observers && s.observers[oid].stage == Stamped && s.observers[oid].obj < |s.objs|
  }

  function Next(s: State, st: Step): State
    requires Enabled(s, st)
  {
    match st
    case BeginAdd(id, pairs) =>
      var missing := Missing(s.entries.Keys, pairs);
      if missing == [] then s else s.(ops := s.ops[id := Pending(AddOp(missing), Checked)])
    case BeginRemove(id, k) =>
      if k !in s.entries then s else s.(ops := s.ops[id := Pending(RemoveOp(k), Checked)])
    case Call(id) => s.(ops := s.ops[id := s.ops[id].(phase := Called(s.fc))])
    case Write(id) =>
      var sid := s.ops[id].phase.sid;
      Send(s, sid, FrameOf(s.ops[id].op)).(ops := s.ops[id := s.ops[id].(phase := Written(sid))])
    case Finish(id) => Commit(s, s.ops[id].op).(ops := s.ops - {id})
    case Abort(id) => s.(ops := s.ops - {id})
    case Deliver(sid) =>
      var c := s.sessions[sid];
      s.(sessions := s.sessions[sid := Session(c.up, c.queue[1..], Apply(c.subscribed, c.queue[0]))])
    case Drop(sid) => s.(sessions := s.sessions[sid := s.sessions[sid].(up := false)])
    case Connect => s.(sessions := s.sessions + [FreshSession()])
    case Snapshot(subs) => s.(fc := |s.sessions| - 1, rebind := if subs == [] then None else Some(subs))
    case Replay => Send(s, s.fc, Frame(s.rebind.value, [])).(rebind := None)
    case ReplayFails => s.(rebind := None)
    case Look(oid, k, at) =>
      if k !in s.entries then s else s.(observers := s.observers[oid := Observer(s.entries[k], at, Looked)])
    case Count(oid) =>
      var o := s.observers[oid];
      s.(objs := s.objs[o.obj := s.objs[o.obj].(msgCount := s.objs[o.obj].msgCount + 1)],
         observers := s.observers[oid := o.(stage := Counted)])
    case StampFirst(oid) =>
      var o := s.observers[oid];
      s.(objs := if s.objs[o.obj].firstSeenAt == 0
                 then s.objs[o.obj := s.objs[o.obj].(firstSeenAt := o.at)] else s.objs,
         observers := s.observers[oid := o.(stage := Stamped)])
    case StampLast(oid) =>
      var o := s.observers[oid];
      s.(objs := s.objs[o.obj := s.objs[o.obj].(lastSeenAt := o.at)],
         observers := s.observers - {oid})
  }

  // ---------------------------------------------------------------- runs

  predicate Runnable(s: State, steps: seq<Step>)
    decreases |steps|
  {
    steps == [] || (Enabled(s, steps[0]) && Runnable(Next(s, steps[0]), steps[1..]))
  }

  function Exec(s: State, steps: seq<Step>): State
    requires Runnable(s, steps)
    decreases |steps|
  {
    if steps == [] then s else Exec(Next(s, steps[0]), steps[1..])
  }

  lemma ExecCons(s: State, st: Step, rest: seq<Step>)
    requires Enabled(s, st) && Runnable(Next(s, st), rest)
    ensures Runnable(s, [st] + rest) && Exec(s, [st] + rest) == Exec(Next(s, st), rest)
  {
    assert ([st] + rest)[1..] == rest;
  }

  lemma Regroup(a: seq<Step>, b: seq<Step>)
    requires a != []
    ensures [a[0]] + (a[1..] + b) == a + b
  {
  }

  lemma {:induction false} ExecSplit(s: State, a: seq<Step>, b: seq<Step>)
    requires Runnable(s, a) && Runnable(Exec(s, a), b)
    ensures Runnable(s, a + b) && Exec(s, a + b) == Exec(Exec(s, a), b)
    decreases |a|
  {
    if a == [] {
      assert a + b == b;
    } else {
      Regroup(a, b);
      ExecSplit(Next(s, a[0]), a[1..], b);
      ExecCons(s, a[0], a[1..] + b);
    }
  }

  // ---------------------------------------------------------------- what is on the wire but not yet in the map

  function AddsInFlight(p: Pending): set<Key> {
    if p.phase.Written? && p.op.AddOp? then Keys(p.op.keys) else {}
  }

  function RemovesInFlight(p: Pending): set<Key> {
    if p.phase.Written? && p.op.RemoveOp? then {p.op.key} else {}
  }

  /** Keys an Add has sent but not committed. */
  ghost function SentAdds(ops: map<nat, Pending>): set<Key> {
    set id, k | id in ops && k in AddsInFlight(ops[id]) :: k
  }

  /** Keys a Remove has sent but not committed. */
  ghost function SentRemoves(ops: map<nat, Pending>): set<Key> {
    set id, k | id in ops && k in RemovesInFlight(ops[id]) :: k
  }

  /** Keys Rebind has snapshotted but not yet replayed. */
  function Unreplayed(s: State): set<Key> {
    match s.rebind
    case None => {}
    case Some(subs) => Keys(subs)
  }

  /** What the bound gateway session will hold once its queue is handled. */
  function Upcoming(s: State): set<Key>
    requires s.fc < |s.sessions|
  {
    Fold(s.sessions[s.fc].subscribed, s.sessions[s.fc].queue)
  }

  /** The reconciliation equation between the wire and the manager's map. */
  ghost predicate Reconciled(s: State)
    requires s.fc < |s.sessions|
  {
    Upcoming(s) + Unreplayed(s) == s.entries.Keys + SentAdds(s.ops) - SentRemoves(s.ops)
  }

  /** The operations that read the bound session, and those that have read none yet. */
  function Current(s: State): map<nat, Pending> {
    map id | id in s.ops && (s.ops[id].phase.Checked? || s.ops[id].phase.sid == s.fc) :: s.ops[id]
  }

  /** What was written on an abandoned session has nothing left to change that the bound session does not know of. */
  ghost predicate Settled(s: State) {
    && SentAdds(s.ops) <= s.entries.Keys + SentAdds(Current(s))
    && SentRemoves(s.ops) * s.entries.Keys <= SentRemoves(Current(s))
  }

  /** Sessions beyond the bound one are fresh, and no operation has read one of them. Every run keeps this. */
  predicate WellFormed(s: State) {
    && s.fc < |s.sessions|
    && (forall i :: s.fc < i < |s.sessions| ==> s.sessions[i].queue == [] && s.sessions[i].subscribed == {})
    && (forall id :: id in s.ops && !s.ops[id].phase.Checked? ==> s.ops[id].phase.sid <= s.fc)
  }

  /** Wire and map agree, and no two written operations pull a key apart. */
  ghost predicate Consistent(s: State)
    requires s.fc < |s.sessions|
  {
    Reconciled(s) && SentAdds(s.ops) !! SentRemoves(s.ops) && Settled(s)
  }

  ghost predicate Inv(s: State) {
    WellFormed(s) && (s.sessions[s.fc].up ==> Consistent(s))
  }

  /**
   What a write must respect on a live connection.
   - While an operation is between its write and its commit, no opposite operation writes a frame for the same
     key; a Remove does not write between Rebind's snapshot and its replay.
   - A frame on an abandoned session changes nothing: the added keys are registered or being added on the bound
     session, the removed key is not registered or being removed there.
   */
  ghost predicate WriteAllowed(s: State, id: nat)
    requires id in s.ops && s.ops[id].phase.Called?
  {
    var f := FrameOf(s.ops[id].op);
    && Keys(f.add) !! SentRemoves(s.ops)
    && Keys(f.remove) !! SentAdds(s.ops) + Unreplayed(s)
    && (s.ops[id].phase.sid != s.fc ==>
        && Keys(f.add) <= s.entries.Keys + SentAdds(Current(s))
        && Keys(f.remove) * s.entries.Keys <= SentRemoves(Current(s)))
  }

  /** Every written operation's effect is in the map. */
  ghost predicate MapIsCurrent(s: State) {
    SentAdds(s.ops) <= s.entries.Keys && SentRemoves(s.ops) !! s.entries.Keys
  }

  /** What a step must respect for the two sides to stay in lockstep; only writes and Rebind's snapshot can err. */
  ghost predicate Admissible(s: State, st: Step)
    requires s.fc < |s.sessions| && Enabled(s, st)
  {
    match st
    case Write(id) => s.sessions[s.fc].up ==> WriteAllowed(s, id)
    case Snapshot(_) => s.sessions[|s.sessions| - 1].up ==> MapIsCurrent(s)
    case _ => true
  }

  lemma SessionsStayWellFormed(s: State, st: Step)
    requires WellFormed(s) && Enabled(s, st)
    requires st.Deliver? || st.Drop? || st.Connect? || st.Snapshot? || st.Replay? || st.ReplayFails?
    ensures WellFormed(Next(s, st))
  {
  }

  lemma StepKeepsWellFormed(s: State, st: Step)
    requires WellFormed(s) && Enabled(s, st)
    ensures WellFormed(Next(s, st))
  {
    match st
    case BeginAdd(_, _) =>
    case BeginRemove(_, _) =>
    case Call(_) =>
    case Write(_) =>
    case Abort(_) =>
    case Finish(id) => CommitEntries(s, s.ops[id].op);
    case Look(_, _, _) =>
    case Count(_) =>
    case StampFirst(_) =>
    case StampLast(_) =>
    case _ => SessionsStayWellFormed(s, st);
  }

  ghost predicate AdmissibleRun(s: State, steps: seq<Step>)
    requires WellFormed(s) && Runnable(s, steps)
    decreases |steps|
  {
    if steps == [] then true
    else
      StepKeepsWellFormed(s, steps[0]);
      Admissible(s, steps[0]) && AdmissibleRun(Next(s, steps[0]), steps[1..])
  }

  // ---------------------------------------------------------------- the invariant, step by step

  lemma RegisterEntries(s: State, missing: seq<Key>)
    ensures var r := Register(s, missing);
      && r.entries.Keys == s.entries.Keys + Keys(missing)
      && r == s.(entries := r.entries, objs := r.objs)
    decreases |missing|
  {
    if missing == [] {
    } else {
      assert Keys(missing) == {missing[0]} + Keys(missing[1..]);
      if missing[0] in s.entries {
        RegisterEntries(s, missing[1..]);
      } else {
        RegisterEntries(s.(entries := s.entries[missing[0] := |s.objs|], objs := s.objs + [Counters(0, 0, 0)]),
          missing[1..]);
      }
    }
  }

  lemma CommitEntries(s: State, op: Op)
    ensures var r, f := Commit(s, op), FrameOf(op);
      && r.entries.Keys == s.entries.Keys + Keys(f.add) - Keys(f.remove)
      && r == s.(entries := r.entries, objs := r.objs)
  {
    if op.AddOp? {
      RegisterEntries(s, op.keys);
    }
  }

  /** Changing one operation changes the in-flight sets by that operation's contribution only. */
  lemma SentAfter(s: map<nat, Pending>, t: map<nat, Pending>, id: nat)
    requires t.Keys <= s.Keys + {id}
    requires forall i :: i in s && i != id ==> i in t && t[i] == s[i]
    ensures var before := if id in s then AddsInFlight(s[id]) else {};
      var after := if id in t then AddsInFlight(t[id]) else {};
      SentAdds(s) - before <= SentAdds(t) && after <= SentAdds(t) <= SentAdds(s) + after
    ensures var before := if id in s then RemovesInFlight(s[id]) else {};
      var after := if id in t then RemovesInFlight(t[id]) else {};
      SentRemoves(s) - before <= SentRemoves(t) && after <= SentRemoves(t) <= SentRemoves(s) + after
  {
  }

  /** What a write does to the wire and to the in-flight sets. */
  lemma WriteEffect(s: State, id: nat)
    requires WellFormed(s) && Enabled(s, Write(id))
    ensures var t, f := Next(s, Write(id)), FrameOf(s.ops[id].op);
      && Upcoming(t) == (if s.ops[id].phase.sid == s.fc then Apply(Upcoming(s), f) else Upcoming(s))
      && SentAdds(t.ops) == SentAdds(s.ops) + Keys(f.add)
      && SentRemoves(t.ops) == SentRemoves(s.ops) + Keys(f.remove)
      && t.entries == s.entries && t.fc == s.fc && t.rebind == s.rebind
  {
    SentAfter(s.ops, Next(s, Write(id)).ops, id);
    FoldSnoc(s.sessions[s.fc].subscribed, s.sessions[s.fc].queue, FrameOf(s.ops[id].op));
  }

  lemma WriteEffectOnCurrent(s: State, id: nat)
    requires WellFormed(s) && Enabled(s, Write(id))
    ensures var t, f, live := Next(s, Write(id)), FrameOf(s.ops[id].op), s.ops[id].phase.sid == s.fc;
      && SentAdds(Current(t)) == SentAdds(Current(s)) + (if live then Keys(f.add) else {})
      && SentRemoves(Current(t)) == SentRemoves(Current(s)) + (if live then Keys(f.remove) else {})
  {
    SentAfter(Current(s), Current(Next(s, Write(id))), id);
  }

  lemma LiveWriteConsistentIff(s: State, id: nat)
    requires WellFormed(s) && Enabled(s, Write(id)) && Consistent(s) && s.ops[id].phase.sid == s.fc
    ensures Consistent(Next(s, Write(id))) <==> WriteAllowed(s, id)
  {
    WriteEffect(s, id);
    WriteEffectOnCurrent(s, id);
    var f := FrameOf(s.ops[id].op);
    LiveWriteIff(Upcoming(s), Unreplayed(s), s.entries.Keys, SentAdds(s.ops), SentRemoves(s.ops), Keys(f.add),
      Keys(f.remove));
  }

  lemma StaleWriteConsistentIff(s: State, id: nat)
    requires WellFormed(s) && Enabled(s, Write(id)) && Consistent(s) && s.ops[id].phase.sid != s.fc
    ensures Consistent(Next(s, Write(id))) <==> WriteAllowed(s, id)
  {
    WriteEffect(s, id);
    WriteEffectOnCurrent(s, id);
    var f := FrameOf(s.ops[id].op);
    StaleWriteIff(Upcoming(s) + Unreplayed(s), s.entries.Keys, SentAdds(s.ops), SentRemoves(s.ops), Keys(f.add),
      Keys(f.remove));
  }

  /** On a live connection the clauses of WriteAllowed are exactly what keeps the two sides consistent. */
  lemma WriteConsistentIff(s: State, id: nat)
    requires WellFormed(s) && Enabled(s, Write(id)) && Consistent(s)
    ensures Consistent(Next(s, Write(id))) <==> WriteAllowed(s, id)
  {
    if s.ops[id].phase.sid == s.fc {
      LiveWriteConsistentIff(s, id);
    } else {
      StaleWriteConsistentIff(s, id);
    }
  }

  lemma LiveWriteIff(up: set<Key>, un: set<Key>, ks: set<Key>, a: set<Key>, r: set<Key>, add: set<Key>, rem: set<Key>)
    requires up + un == ks + a - r && a !! r && add !! rem
    ensures (up + add - rem) + un == ks + (a + add) - (r + rem) && a + add !! r + rem <==>
            add !! r && rem !! a && rem !! un
  {
    assert forall k :: k in up + un <==> k in ks + a - r;
    if add !! r && rem !! un {
      forall k: Key ensures k in (up + add - rem) + un <==> k in ks + (a + add) - (r + rem) {
        assert k in up + un <==> k in ks + a - r;
      }
    }
    if (up + add - rem) + un == ks + (a + add) - (r + rem) {
      assert forall k :: k in un ==> k in (up + add - rem) + un;
    }
  }

  /** A frame the bound session never sees leaves the equation alone exactly when it asks for nothing new. */
  lemma StaleWriteIff(wire: set<Key>, ks: set<Key>, a: set<Key>, r: set<Key>, add: set<Key>, rem: set<Key>)
    requires wire == ks + a - r && a !! r && add !! rem
    ensures wire == ks + (a + add) - (r + rem) && a + add !! r + rem <==>
            add !! r && rem !! a && add <= ks + a && rem * ks <= r
  {
    if wire == ks + (a + add) - (r + rem) && a + add !! r + rem {
      forall k | k in add ensures k in ks + a {
        assert k in ks + (a + add) - (r + rem);
      }
      forall k | k in rem * ks ensures k in r {
        assert k !in ks + (a + add) - (r + rem);
      }
    }
    if add !! r && rem !! a && add <= ks + a && rem * ks <= r {
      forall k: Key ensures k in ks + a - r <==> k in ks + (a + add) - (r + rem) {
        assert k in rem && k in ks ==> k in rem * ks;
      }
    }
  }

  lemma WriteKeepsInvIff(s: State, id: nat)
    requires Inv(s) && Enabled(s, Write(id))
    ensures Inv(Next(s, Write(id))) <==> Admissible(s, Write(id))
  {
    StepKeepsWellFormed(s, Write(id));
    if s.sessions[s.fc].up {
      WriteConsistentIff(s, id);
    }
  }

  lemma ReconcileFinish(up: set<Key>, ks: set<Key>, a: set<Key>, r: set<Key>, a': set<Key>, r': set<Key>, add: set<Key>,
      rem: set<Key>)
    requires up == ks + a - r && a !! r && add <= a && rem <= r
    requires a - add <= a' <= a && r - rem <= r' <= r
    ensures up == (ks + add - rem) + a' - r'
  {
    forall k: Key
      ensures k in up <==> k in (ks + add - rem) + a' - r'
    {
      assert k in up <==> k in ks + a - r;
    }
  }

  lemma FinishEffect(s: State, id: nat)
    requires Enabled(s, Finish(id))
    ensures var t, f := Next(s, Finish(id)), FrameOf(s.ops[id].op);
      && t.entries.Keys == s.entries.Keys + Keys(f.add) - Keys(f.remove)
      && t == s.(entries := t.entries, objs := t.objs, ops := s.ops - {id})
      && SentAdds(s.ops) - Keys(f.add) <= SentAdds(t.ops) <= SentAdds(s.ops)
      && SentRemoves(s.ops) - Keys(f.remove) <= SentRemoves(t.ops) <= SentRemoves(s.ops)
      && Keys(f.add) <= SentAdds(s.ops) && Keys(f.remove) <= SentRemoves(s.ops)
  {
    CommitEntries(s, s.ops[id].op);
    SentAfter(s.ops, Next(s, Finish(id)).ops, id);
    var f := FrameOf(s.ops[id].op);
    assert AddsInFlight(s.ops[id]) == Keys(f.add) && RemovesInFlight(s.ops[id]) == Keys(f.remove);
  }

  lemma FinishSettles(s: State, id: nat)
    requires WellFormed(s) && Enabled(s, Finish(id)) && Consistent(s)
    ensures Settled(Next(s, Finish(id)))
  {
    FinishEffect(s, id);
    var t, f := Next(s, Finish(id)), FrameOf(s.ops[id].op);
    SentAfter(Current(s), Current(t), id);
    assert SentAdds(Current(s)) - Keys(f.add) <= SentAdds(Current(t));
    assert SentRemoves(Current(s)) - Keys(f.remove) <= SentRemoves(Current(t));
    assert forall k :: k in SentAdds(t.ops) ==> k !in SentRemoves(s.ops);
    assert forall k :: k in SentRemoves(t.ops) * t.entries.Keys ==> k !in SentAdds(s.ops);
  }

  lemma FinishKeepsInv(s: State, id: nat)
    requires Inv(s) && Enabled(s, Finish(id))
    ensures Inv(Next(s, Finish(id)))
  {
    var t, f := Next(s, Finish(id)), FrameOf(s.ops[id].op);
    StepKeepsWellFormed(s, Finish(id));
    FinishEffect(s, id);
    if s.sessions[s.fc].up {
      FinishSettles(s, id);
      ReconcileFinish(Upcoming(s) + Unreplayed(s), s.entries.Keys, SentAdds(s.ops), SentRemoves(s.ops),
                      SentAdds(t.ops), SentRemoves(t.ops), Keys(f.add), Keys(f.remove));
    }
  }

  /** Nothing in flight changes while an operation has not written. */
  lemma UnwrittenKeepsInv(s: State, id: nat, p: Pending)
    requires Inv(s) && !p.phase.Written? && (id in s.ops ==> !s.ops[id].phase.Written?)
    requires p.phase.Called? ==> p.phase.sid == s.fc
    ensures Inv(s.(ops := s.ops[id := p]))
  {
    var t := s.(ops := s.ops[id := p]);
    SentAfter(s.ops, t.ops, id);
    SentAfter(Current(s), Current(t), id);
    assert SentAdds(t.ops) == SentAdds(s.ops) && SentRemoves(t.ops) == SentRemoves(s.ops);
    assert SentAdds(Current(t)) == SentAdds(Current(s)) && SentRemoves(Current(t)) == SentRemoves(Current(s));
  }

  lemma AbortEffect(s: State, id: nat)
    requires WellFormed(s) && Enabled(s, Abort(id)) && s.sessions[s.fc].up
    ensures var t := Next(s, Abort(id));
      && SentAdds(Current(s)) == SentAdds(Current(t)) <= SentAdds(t.ops) <= SentAdds(s.ops)
      && SentRemoves(Current(s)) == SentRemoves(Current(t)) <= SentRemoves(t.ops) <= SentRemoves(s.ops)
  {
    var t := Next(s, Abort(id));
    SentAfter(s.ops, t.ops, id);
    assert Current(t) == Current(s);
  }

  lemma AbortKeepsInv(s: State, id: nat)
    requires Inv(s) && Enabled(s, Abort(id))
    ensures Inv(Next(s, Abort(id)))
  {
    StepKeepsWellFormed(s, Abort(id));
    if s.sessions[s.fc].up {
      AbortEffect(s, id);
    }
  }

  lemma OpsKeepInv(s: State, st: Step)
    requires Inv(s) && Enabled(s, st)
    requires st.BeginAdd? || st.BeginRemove? || st.Call?
    ensures Inv(Next(s, st))
  {
    if st.id in Next(s, st).ops && Next(s, st) != s {
      UnwrittenKeepsInv(s, st.id, Next(s, st).ops[st.id]);
    }
  }

  lemma ReplayKeepsInv(s: State)
    requires Inv(s) && Enabled(s, Replay)
    ensures Inv(Next(s, Replay))
  {
    var t, f := Next(s, Replay), Frame(s.rebind.value, []);
    FoldSnoc(s.sessions[s.fc].subscribed, s.sessions[s.fc].queue, f);
    StepKeepsWellFormed(s, Replay);
    assert Upcoming(t) == Upcoming(s) + Unreplayed(s);
    assert t.ops == s.ops && Current(t) == Current(s);
  }

  lemma SnapshotEffect(s: State, subs: seq<Key>)
    requires WellFormed(s) && Enabled(s, Snapshot(subs))
    ensures var t := Next(s, Snapshot(subs));
      && t.fc == |t.sessions| - 1 && t.sessions == s.sessions && t.ops == s.ops && t.entries == s.entries
      && Upcoming(t) == {} && Unreplayed(t) == s.entries.Keys
      && SentAdds(Current(t)) == {} && SentRemoves(Current(t)) == {}
  {
  }

  lemma SnapshotSets(ks: set<Key>, a: set<Key>, r: set<Key>)
    ensures ks == ks + a - r && a !! r && a <= ks && r * ks <= {} <==> a <= ks && r !! ks
  {
  }

  /** Bound to a fresh session with every key to replay, wire and map are consistent exactly when the map is current. */
  lemma FreshConsistentIff(s: State)
    requires WellFormed(s) && Upcoming(s) == {} && Unreplayed(s) == s.entries.Keys
    requires SentAdds(Current(s)) == {} && SentRemoves(Current(s)) == {}
    ensures Inv(s) <==> (s.sessions[s.fc].up ==> MapIsCurrent(s))
  {
    SnapshotSets(s.entries.Keys, SentAdds(s.ops), SentRemoves(s.ops));
  }

  lemma AdmissibleSnapshotIff(s: State, subs: seq<Key>, t: State)
    requires s.fc < |s.sessions| && Enabled(s, Snapshot(subs))
    requires t.fc == |s.sessions| - 1 && t.sessions == s.sessions && t.ops == s.ops && t.entries == s.entries
    ensures Admissible(s, Snapshot(subs)) <==> (t.sessions[t.fc].up ==> MapIsCurrent(t))
  {
  }

  lemma SnapshotKeepsInvIff(s: State, subs: seq<Key>)
    requires WellFormed(s) && Enabled(s, Snapshot(subs))
    ensures Inv(Next(s, Snapshot(subs))) <==> Admissible(s, Snapshot(subs))
  {
    StepKeepsWellFormed(s, Snapshot(subs));
    SnapshotEffect(s, subs);
    FreshConsistentIff(Next(s, Snapshot(subs)));
    AdmissibleSnapshotIff(s, subs, Next(s, Snapshot(subs)));
  }

  lemma ConnectionKeepsInv(s: State, st: Step)
    requires Inv(s) && Enabled(s, st)
    requires st.Deliver? || st.Drop? || st.Connect? || st.ReplayFails?
    ensures Inv(Next(s, st))
  {
    var t := Next(s, st);
    StepKeepsWellFormed(s, st);
    assert t.ops == s.ops && t.entries == s.entries && t.fc == s.fc;
    assert Upcoming(t) == Upcoming(s) && Current(t) == Current(s);
  }

  lemma StepKeepsInv(s: State, st: Step)
    requires Inv(s) && Enabled(s, st) && Admissible(s, st)
    ensures Inv(Next(s, st))
  {
    match st
    case BeginAdd(_, _) => OpsKeepInv(s, st);
    case BeginRemove(_, _) => OpsKeepInv(s, st);
    case Call(_) => OpsKeepInv(s, st);
    case Abort(id) => AbortKeepsInv(s, id);
    case Write(id) => WriteKeepsInvIff(s, id);
    case Finish(id) => FinishKeepsInv(s, id);
    case Look(_, _, _) => ObserversKeepInv(s, st);
    case Count(_) => ObserversKeepInv(s, st);
    case StampFirst(_) => ObserversKeepInv(s, st);
    case StampLast(_) => ObserversKeepInv(s, st);
    case Snapshot(subs) => SnapshotKeepsInvIff(s, subs);
    case Replay => ReplayKeepsInv(s);
    case _ => ConnectionKeepsInv(s, st);
  }

  lemma ObserversKeepInv(s: State, st: Step)
    requires Inv(s) && Enabled(s, st) && (st.Look? || st.Count? || st.StampFirst? || st.StampLast?)
    ensures Inv(Next(s, st))
  {
    var t := Next(s, st);
    assert t == s.(objs := t.objs, observers := t.observers);
    assert Current(t) == Current(s);
  }

  /** Admissible is exact: from a state in step, a step keeps the invariant if and only if it is admissible. */
  lemma StepKeepsInvIff(s: State, st: Step)
    requires Inv(s) && Enabled(s, st)
    ensures Inv(Next(s, st)) <==> Admissible(s, st)
  {
    match st
    case Write(id) => WriteKeepsInvIff(s, id);
    case Snapshot(subs) => SnapshotKeepsInvIff(s, subs);
    case _ => StepKeepsInv(s, st);
  }

  /** Well-formedness needs no hypothesis on the run. */
  lemma {:induction false} RunKeepsWellFormed(s: State, steps: seq<Step>)
    requires WellFormed(s) && Runnable(s, steps)
    ensures WellFormed(Exec(s, steps))
    decreases |steps|
  {
    if steps == [] {
    } else {
      StepKeepsWellFormed(s, steps[0]);
      RunKeepsWellFormed(Next(s, steps[0]), steps[1..]);
    }
  }

  /** Lockstep over every admissible run, whatever the interleaving, drops and reconnects. */
  lemma {:induction false} RunKeepsInv(s: State, steps: seq<Step>)
    requires Inv(s) && Runnable(s, steps) && AdmissibleRun(s, steps)
    ensures Inv(Exec(s, steps))
    decreases |steps|
  {
    if steps == [] {
    } else {
      StepKeepsInv(s, steps[0]);
      RunKeepsInv(Next(s, steps[0]), steps[1..]);
    }
  }

  /**
   From any state of such a run with nothing pending on a live connection, handling the frames
   already in flight leaves the gateway subscribed to exactly the manager's keys.
   */
  lemma {:induction false} DrainConverges(s: State) returns (steps: seq<Step>)
    requires Inv(s) && s.sessions[s.fc].up && s.ops == map[] && s.rebind.None?
    ensures steps == seq(|s.sessions[s.fc].queue|, _ => Deliver(s.fc))
    ensures Runnable(s, steps)
    ensures var t := Exec(s, steps);
      t.entries == s.entries && |t.sessions| == |s.sessions| && t.sessions[s.fc] == Session(true, [], s.entries.Keys)
    decreases |s.sessions[s.fc].queue|
  {
    if s.sessions[s.fc].queue == [] {
      steps := [];
    } else {
      StepKeepsInv(s, Deliver(s.fc));
      var rest := DrainConverges(Next(s, Deliver(s.fc)));
      steps := [Deliver(s.fc)] + rest;
      assert steps[1..] == rest;
    }
  }
}
