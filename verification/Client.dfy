/**
 The Go client below the subscription manager, as three step machines over one connection:
 the egress rendezvous behind Send, the channel handshake behind OpenFeed, and the read
 loop's per-message barrier behind C.
 */
module Egress {
  datatype SendState =
    | Submitting                 // blocked on `egress <- p` or `<-done`
    | InFlight                   // the write loop took the payload; blocked on `<-p.done` or `<-c.done`
    | Returned(ok: bool, submitted: bool)

  datatype Writer = Idle | Holding(id: nat) | Acking(id: nat) | Exited

  datatype State = State(
    sends: map<nat, SendState>,
    writer: Writer,
    handedOff: seq<nat>,         // the order in which the write loop received payloads
    wire: seq<nat>,              // the order in which payloads were written to the socket
    dead: bool)                  // c.done is closed

  datatype Step =
    | Submit(id: nat)
    | MarshalFails(id: nat)
    | HandOff(id: nat)
    | WriteOk
    | WriteFails
    | Ack
    | GiveUp(id: nat)
    | Cancelled
    | ReadLoopExits

  function Init(): State {
    State(map[], Idle, [], [], false)
  }

  predicate Enabled(s: State, st: Step) {
    match st
    case Submit(id) => id !in s.sends
    case MarshalFails(id) => id !in s.sends
    case HandOff(id) => id in s.sends && s.sends[id] == Submitting && s.writer == Idle
    case WriteOk => s.writer.Holding?
    case WriteFails => s.writer.Holding?
    case Ack => s.writer.Acking? && s.writer.id in s.sends && s.sends[s.writer.id] == InFlight
    case GiveUp(id) => id in s.sends && !s.sends[id].Returned? && s.dead
    case Cancelled => s.writer == Idle
    case ReadLoopExits => true
  }

  function Next(s: State, st: Step): State
    requires Enabled(s, st)
  {
    match st
    case Submit(id) => s.(sends := s.sends[id := Submitting])
    case MarshalFails(id) => s.(sends := s.sends[id := Returned(false, false)])
    case HandOff(id) => s.(sends := s.sends[id := InFlight], writer := Holding(id), handedOff := s.handedOff + [id])
    case WriteOk => s.(writer := Acking(s.writer.id), wire := s.wire + [s.writer.id])
    case WriteFails => s.(writer := Exited, dead := true)
    case Ack => s.(sends := s.sends[s.writer.id := Returned(true, true)], writer := Idle)
    case GiveUp(id) => s.(sends := s.sends[id := Returned(false, true)])
    case Cancelled => s.(writer := Exited, dead := true)
    case ReadLoopExits => s.(dead := true)
  }

  predicate Distinct(xs: seq<nat>) {
    forall i, j :: 0 <= i < j < |xs| ==> xs[i] != xs[j]
  }

  predicate Inv(s: State) {
    && Distinct(s.handedOff)
    && s.wire <= s.handedOff && |s.handedOff| <= |s.wire| + 1
    && (s.writer.Idle? || s.writer.Acking? ==> s.wire == s.handedOff)
    && (s.writer.Holding? ==> s.handedOff == s.wire + [s.writer.id])
    && (s.writer.Acking? ==> s.wire != [] && s.wire[|s.wire| - 1] == s.writer.id)
    && (forall id :: id in s.handedOff ==> id in s.sends && !s.sends[id].Submitting?)
    && (forall id :: id in s.sends && s.sends[id] == InFlight ==>
        id in s.handedOff && (s.writer == Holding(id) || s.writer == Acking(id) || s.writer == Exited))
    && (forall id :: id in s.sends && s.sends[id].Returned? ==>
        && (s.sends[id].ok ==> id in s.wire && s.sends[id].submitted)
        && (!s.sends[id].ok && s.sends[id].submitted ==> s.dead)
        && (!s.sends[id].submitted ==> id !in s.handedOff))
    && (s.writer.Exited? ==> s.dead)
  }

  lemma WriterKeepsInv(s: State, st: Step)
    requires Inv(s) && Enabled(s, st) && (st.HandOff? || st.WriteOk? || st.WriteFails? || st.Ack?)
    ensures Inv(Next(s, st))
  {
    match st
    case HandOff(id) => assert id !in s.handedOff;
    case _ =>
  }

  lemma StepKeepsInv(s: State, st: Step)
    requires Inv(s) && Enabled(s, st)
    ensures Inv(Next(s, st))
  {
    if st.HandOff? || st.WriteOk? || st.WriteFails? || st.Ack? {
      WriterKeepsInv(s, st);
    }
  }

  predicate Runnable(s: State, steps: seq<Step>)
    decreases |steps|
  {
    steps == [] || (Enabled(s, steps[0]) && Runnable(Next(s, steps[0]), steps[1..]))
  }

  function Exec(s: State, steps: seq<Step>): State
    requires Runnable(s, steps)
    decreases |steps|
  {
    if steps == [] then s else Exec(Next(s, steps[0]), steps[1..])
  }

  lemma {:induction false} RunKeepsInv(s: State, steps: seq<Step>)
    requires Inv(s) && Runnable(s, steps)
    ensures Inv(Exec(s, steps))
    decreases |steps|
  {
    if steps == [] {
    } else {
      StepKeepsInv(s, steps[0]);
      RunKeepsInv(Next(s, steps[0]), steps[1..]);
    }
  }

  lemma {:induction false} DistinctCountsOnce(xs: seq<nat>, id: nat)
    requires Distinct(xs)
    ensures multiset(xs)[id] == if id in xs then 1 else 0
    decreases |xs|
  {
    if xs == [] {
    } else {
      DistinctCountsOnce(xs[1..], id);
      assert xs == [xs[0]] + xs[1..];
    }
  }

  /**
   Send accounting, in every run: nil means written exactly once; an error means written at most once,
   never if marshalling failed, and a dead connection otherwise; frames are written in hand-off order.
   */
  lemma SendAccounting(steps: seq<Step>, id: nat)
    requires Runnable(Init(), steps)
    requires var s := Exec(Init(), steps); id in s.sends && s.sends[id].Returned?
    ensures var s := Exec(Init(), steps);
      && (s.sends[id].ok ==> multiset(s.wire)[id] == 1)
      && (!s.sends[id].ok && !s.sends[id].submitted ==> multiset(s.wire)[id] == 0)
      && (!s.sends[id].ok && s.sends[id].submitted ==> multiset(s.wire)[id] <= 1 && s.dead)
      && s.wire <= s.handedOff && |s.handedOff| <= |s.wire| + 1
  {
    RunKeepsInv(Init(), steps);
    DistinctCountsOnce(Exec(Init(), steps).wire, id);
  }

  /** The send that nothing disturbs: submitted, handed over, written, acknowledged. */
  function Undisturbed(id: nat): seq<Step> {
    [Submit(id), HandOff(id), WriteOk, Ack]
  }

  lemma Cons(s: State, st: Step, rest: seq<Step>)
    requires Enabled(s, st) && Runnable(Next(s, st), rest)
    ensures Runnable(s, [st] + rest) && Exec(s, [st] + rest) == Exec(Next(s, st), rest)
  {
    assert ([st] + rest)[1..] == rest;
  }

  /** It returns nil, its frame is the next one on the wire, and every other send is where it was. */
  lemma UndisturbedSendSucceeds(s: State, id: nat)
    requires s.writer == Idle && id !in s.sends
    ensures Runnable(s, Undisturbed(id))
    ensures Exec(s, Undisturbed(id)) == s.(sends := s.sends[id := Returned(true, true)],
                                           handedOff := s.handedOff + [id], wire := s.wire + [id])
  {
    var s1 := Next(s, Submit(id));
    var s2 := Next(s1, HandOff(id));
    var s3 := Next(s2, WriteOk);
    assert s3.sends == s.sends[id := InFlight];
    Cons(s3, Ack, []);
    Cons(s2, WriteOk, [Ack]);
    Cons(s1, HandOff(id), [WriteOk, Ack]);
    Cons(s, Submit(id), [HandOff(id), WriteOk, Ack]);
    assert [Ack] + [] == [Ack] && [WriteOk] + [Ack] == [WriteOk, Ack];
    assert [HandOff(id)] + [WriteOk, Ack] == [HandOff(id), WriteOk, Ack];
    assert [Submit(id)] + [HandOff(id), WriteOk, Ack] == Undisturbed(id);
  }

  /** A message that cannot be marshalled is refused at once and leaves no other trace. */
  lemma UnmarshallableIsRefused(s: State, id: nat)
    requires id !in s.sends
    ensures Enabled(s, MarshalFails(id))
    ensures Next(s, MarshalFails(id)) == s.(sends := s.sends[id := Returned(false, false)])
  {
  }

  /** However the connection dies, every send still blocked is released with an error, and the wire stays as it is. */
  lemma DeathReleasesSends(s: State, death: Step, id: nat)
    requires Enabled(s, death) && (death.WriteFails? || death.Cancelled? || death.ReadLoopExits?)
    requires id in s.sends && !s.sends[id].Returned?
    ensures var t := Next(s, death);
      && t.dead && t.wire == s.wire && Enabled(t, GiveUp(id))
      && Next(t, GiveUp(id)) == t.(sends := s.sends[id := Returned(false, true)])
  {
  }
}

module Handshake {
  datatype Event =
    | SentChannelRequest(c: nat)
    | GotChannelOpened(c: nat)
    | SentFeedSetup(c: nat)
    | GotFeedConfig(c: nat)
    | SentSubscription(c: nat)

  /** One OpenFeed call. A handler is registered before its request is sent, so the reply flag may come first. */
  datatype Opener =
    | AwaitingOpened(cid: nat, requested: bool, acked: bool)
    | AwaitingConfig(cid: nat, setUp: bool, configured: bool)

  datatype State = State(
    maxChannelID: nat,
    feedChannelID: nat,
    openers: map<nat, Opener>,
    updates: map<nat, nat>,      // UpdateSubscription calls that have read a channel id
    trace: seq<Event>)

  datatype Step =
    | OpenFeed(t: nat)
    | SendRequest(t: nat)
    | SendSetup(t: nat)
    | Receive(e: Event)
    | Proceed(t: nat)
    | Finish(t: nat)
    | Abandon(t: nat)
    | UpdateSubscription(u: nat)
    | SendSubscription(u: nat)
    | DropUpdate(u: nat)

  function Init(): State {
    State(0, 0, map[], map[], [])
  }

  predicate Enabled(s: State, st: Step) {
    match st
    case OpenFeed(t) => t !in s.openers
    case SendRequest(t) => t in s.openers && s.openers[t].AwaitingOpened? && !s.openers[t].requested
    case SendSetup(t) => t in s.openers && s.openers[t].AwaitingConfig? && !s.openers[t].setUp
    case Receive(e) => e.GotChannelOpened? || e.GotFeedConfig?
    case Proceed(t) => t in s.openers && s.openers[t].AwaitingOpened? && s.openers[t].requested && s.openers[t].acked
    case Finish(t) => t in s.openers && s.openers[t].AwaitingConfig? && s.openers[t].setUp && s.openers[t].configured
    case Abandon(t) => t in s.openers
    case UpdateSubscription(u) => u !in s.updates
    case SendSubscription(u) => u in s.updates
    case DropUpdate(u) => u in s.updates
  }

  /** What the registered reply handlers do with one incoming message. */
  function Notice(o: Opener, e: Event): Opener {
    match o
    case AwaitingOpened(cid, requested, acked) => AwaitingOpened(cid, requested, acked || e == GotChannelOpened(cid))
    case AwaitingConfig(cid, setUp, configured) => AwaitingConfig(cid, setUp, configured || e == GotFeedConfig(cid))
  }

  function Next(s: State, st: Step): State
    requires Enabled(s, st)
  {
    match st
    case OpenFeed(t) =>
      if s.feedChannelID != 0 then s
      else s.(maxChannelID := s.maxChannelID + 1,
        openers := s.openers[t := AwaitingOpened(s.maxChannelID + 1, false, false)])
    case SendRequest(t) =>
      s.(openers := s.openers[t := s.openers[t].(requested := true)],
        trace := s.trace + [SentChannelRequest(s.openers[t].cid)])
    case SendSetup(t) =>
      s.(openers := s.openers[t := s.openers[t].(setUp := true)], trace := s.trace + [SentFeedSetup(s.openers[t].cid)])
    case Receive(e) =>
      s.(openers := map t | t in s.openers :: Notice(s.openers[t], e), trace := s.trace + [e])
    case Proceed(t) => s.(openers := s.openers[t := AwaitingConfig(s.openers[t].cid, false, false)])
    case Finish(t) => s.(feedChannelID := s.openers[t].cid, openers := s.openers - {t})
    case Abandon(t) => s.(openers := s.openers - {t})
    case UpdateSubscription(u) => if s.feedChannelID == 0 then s else s.(updates := s.updates[u := s.feedChannelID])
    case SendSubscription(u) => s.(updates := s.updates - {u}, trace := s.trace + [SentSubscription(s.updates[u])])
    case DropUpdate(u) => s.(updates := s.updates - {u})
  }

  predicate Runnable(s: State, steps: seq<Step>)
    decreases |steps|
  {
    steps == [] || (Enabled(s, steps[0]) && Runnable(Next(s, steps[0]), steps[1..]))
  }

  function Exec(s: State, steps: seq<Step>): State
    requires Runnable(s, steps)
    decreases |steps|
  {
    if steps == [] then s else Exec(Next(s, steps[0]), steps[1..])
  }

  // ---------------------------------------------------------------- the order a trace must respect

  function Past(trace: seq<Event>): set<Event> {
    set e | e in trace
  }

  /** Channel c was requested and reported open. */
  predicate Opened(past: set<Event>, c: nat) {
    SentChannelRequest(c) in past && GotChannelOpened(c) in past
  }

  /** The whole handshake of channel c is done. */
  predicate Ready(past: set<Event>, c: nat) {
    c != 0 && Opened(past, c) && SentFeedSetup(c) in past && GotFeedConfig(c) in past
  }

  /** What must have happened before e. */
  predicate Follows(past: set<Event>, e: Event) {
    match e
    case SentChannelRequest(c) => c != 0 && e !in past
    case SentFeedSetup(c) => Opened(past, c)
    case SentSubscription(c) => Ready(past, c)
    case _ => true
  }

  predicate Ordered(trace: seq<Event>) {
    trace == [] ||
    var n := |trace| - 1; Ordered(trace[..n]) && Follows(Past(trace[..n]), trace[n])
  }

  predicate OpenerInv(past: set<Event>, max: nat, o: Opener) {
    && 0 < o.cid <= max
    && (match o
        case AwaitingOpened(c, requested, acked) =>
          (requested <==> SentChannelRequest(c) in past) && (acked ==> GotChannelOpened(c) in past)
        case AwaitingConfig(c, setUp, configured) =>
          Opened(past, c) && (setUp ==> SentFeedSetup(c) in past) && (configured ==> GotFeedConfig(c) in past))
  }

  /** Channel ids are allocated once; past is what the trace contains. */
  predicate InvAt(s: State, past: set<Event>) {
    && (forall e :: e in past && e.SentChannelRequest? ==> e.c <= s.maxChannelID)
    && (forall t :: t in s.openers ==> OpenerInv(past, s.maxChannelID, s.openers[t]))
    && (forall t, u :: t in s.openers && u in s.openers && t != u ==> s.openers[t].cid != s.openers[u].cid)
    && (s.feedChannelID != 0 ==> Ready(past, s.feedChannelID))
    && (forall u :: u in s.updates ==> Ready(past, s.updates[u]))
  }

  predicate Inv(s: State) {
    Ordered(s.trace) && InvAt(s, Past(s.trace))
  }

  lemma OrderedSnoc(trace: seq<Event>, e: Event)
    requires Ordered(trace) && Follows(Past(trace), e)
    ensures Ordered(trace + [e]) && Past(trace + [e]) == Past(trace) + {e}
  {
    assert (trace + [e])[..|trace|] == trace;
  }

  lemma {:induction false} OrderedAt(trace: seq<Event>, i: nat)
    requires Ordered(trace) && i < |trace|
    ensures Follows(Past(trace[..i]), trace[i])
    decreases |trace|
  {
    var n := |trace| - 1;
    if i < n {
      OrderedAt(trace[..n], i);
      assert trace[..n][..i] == trace[..i];
    }
  }

  /** The event a step appends to the trace. */
  function Appended(s: State, st: Step): seq<Event>
    requires Enabled(s, st)
  {
    match st
    case SendRequest(t) => [SentChannelRequest(s.openers[t].cid)]
    case SendSetup(t) => [SentFeedSetup(s.openers[t].cid)]
    case SendSubscription(u) => [SentSubscription(s.updates[u])]
    case Receive(e) => [e]
    case _ => []
  }

  lemma RequestStep(s: State, past: set<Event>, t: nat)
    requires InvAt(s, past) && Enabled(s, SendRequest(t))
    ensures var e := SentChannelRequest(s.openers[t].cid);
      Follows(past, e) && InvAt(Next(s, SendRequest(t)), past + {e})
  {
  }

  lemma SetupStep(s: State, past: set<Event>, t: nat)
    requires InvAt(s, past) && Enabled(s, SendSetup(t))
    ensures var e := SentFeedSetup(s.openers[t].cid); Follows(past, e) && InvAt(Next(s, SendSetup(t)), past + {e})
  {
  }

  lemma NoticeKeepsInv(past: set<Event>, max: nat, o: Opener, e: Event)
    requires OpenerInv(past, max, o) && (e.GotChannelOpened? || e.GotFeedConfig?)
    ensures OpenerInv(past + {e}, max, Notice(o, e)) && Notice(o, e).cid == o.cid
  {
  }

  lemma ReceiveStep(s: State, past: set<Event>, e: Event)
    requires InvAt(s, past) && Enabled(s, Receive(e))
    ensures Follows(past, e) && InvAt(Next(s, Receive(e)), past + {e})
  {
    forall t | t in s.openers {
      NoticeKeepsInv(past, s.maxChannelID, s.openers[t], e);
    }
  }

  lemma SubscriptionStep(s: State, past: set<Event>, u: nat)
    requires InvAt(s, past) && Enabled(s, SendSubscription(u))
    ensures var e := SentSubscription(s.updates[u]); Follows(past, e) && InvAt(Next(s, SendSubscription(u)), past + {e})
  {
  }

  lemma AppendingStep(s: State, past: set<Event>, st: Step)
    requires InvAt(s, past) && Enabled(s, st) && Appended(s, st) != []
    ensures var e := Appended(s, st)[0]; Follows(past, e) && InvAt(Next(s, st), past + {e})
  {
    match st
    case SendRequest(t) => RequestStep(s, past, t);
    case SendSetup(t) => SetupStep(s, past, t);
    case Receive(e) => ReceiveStep(s, past, e);
    case SendSubscription(u) => SubscriptionStep(s, past, u);
  }

  lemma SilentStep(s: State, past: set<Event>, st: Step)
    requires InvAt(s, past) && Enabled(s, st) && Appended(s, st) == []
    ensures InvAt(Next(s, st), past) && Next(s, st).trace == s.trace
  {
  }

  lemma StepKeepsInv(s: State, st: Step)
    requires Inv(s) && Enabled(s, st)
    ensures Inv(Next(s, st))
  {
    if Appended(s, st) == [] {
      SilentStep(s, Past(s.trace), st);
    } else {
      AppendingStep(s, Past(s.trace), st);
      OrderedSnoc(s.trace, Appended(s, st)[0]);
    }
  }

  lemma {:induction false} RunKeepsInv(s: State, steps: seq<Step>)
    requires Inv(s) && Runnable(s, steps)
    ensures Inv(Exec(s, steps))
    decreases |steps|
  {
    if steps == [] {
    } else {
      StepKeepsInv(s, steps[0]);
      RunKeepsInv(Next(s, steps[0]), steps[1..]);
    }
  }

  /**
   Feed-channel safety over every trace, with any number of concurrent OpenFeed and UpdateSubscription
   callers: a subscription frame goes out only on a channel whose whole handshake precedes it, and no
   channel id is requested twice.
   */
  lemma FeedChannelSafety(steps: seq<Step>, i: nat, c: nat)
    requires Runnable(Init(), steps) && i < |Exec(Init(), steps).trace|
    ensures var trace := Exec(Init(), steps).trace;
      && (trace[i] == SentSubscription(c) ==>
          && c != 0 && GotFeedConfig(c) in trace[..i]
          && exists j :: 0 <= j < i && trace[j] == SentFeedSetup(c) && Opened(Past(trace[..j]), c))
      && (trace[i] == SentChannelRequest(c) ==> forall j :: 0 <= j < |trace| && j != i ==> trace[j] != trace[i])
  {
    RunKeepsInv(Init(), steps);
    var trace := Exec(Init(), steps).trace;
    if trace[i] == SentSubscription(c) {
      OrderedAt(trace, i);
      assert SentFeedSetup(c) in trace[..i];
      var j :| 0 <= j < i && trace[..i][j] == SentFeedSetup(c);
      OrderedAt(trace, j);
    }
    if trace[i] == SentChannelRequest(c) {
      forall j | 0 <= j < |trace| && j != i ensures trace[j] != trace[i] {
        var first, last := if i < j then i else j, if i < j then j else i;
        assert trace[..last][first] == trace[first];
        OrderedAt(trace, last);
      }
    }
  }

  // ---------------------------------------------------------------- which channel the feed is on

  /** The channel of the last OpenFeed call to finish in a run, or `before` if none does. */
  function LastFinished(s: State, steps: seq<Step>, before: nat): nat
    requires Runnable(s, steps)
    decreases |steps|
  {
    if steps == [] then before
    else LastFinished(Next(s, steps[0]), steps[1..],
                      if steps[0].Finish? then s.openers[steps[0].t].cid else before)
  }

  /** In every run the feed is on the channel of the last OpenFeed call that finished. */
  lemma {:induction false} FeedIsOnLastFinished(s: State, steps: seq<Step>)
    requires Runnable(s, steps)
    ensures Exec(s, steps).feedChannelID == LastFinished(s, steps, s.feedChannelID)
    decreases |steps|
  {
    if steps == [] {
    } else {
      FeedIsOnLastFinished(Next(s, steps[0]), steps[1..]);
    }
  }

  /** That channel is the one of some Finish step in the run. */
  lemma {:induction false} LastFinishedIsFinished(s: State, steps: seq<Step>, before: nat) returns (i: nat)
    requires Runnable(s, steps) && exists j :: 0 <= j < |steps| && steps[j].Finish?
    ensures i < |steps| && steps[i].Finish? && Runnable(s, steps[..i])
    ensures steps[i].t in Exec(s, steps[..i]).openers
    ensures LastFinished(s, steps, before) == Exec(s, steps[..i]).openers[steps[i].t].cid
    decreases |steps|
  {
    var rest := steps[1..];
    var now := if steps[0].Finish? then s.openers[steps[0].t].cid else before;
    if exists j :: 0 <= j < |rest| && rest[j].Finish? {
      i := LastFinishedIsFinished(Next(s, steps[0]), rest, now);
      assert steps[..i + 1][1..] == rest[..i] && steps[i + 1] == rest[i];
      i := i + 1;
    } else {
      FirstOrLater(steps);
      NoneFinished(Next(s, steps[0]), rest, now);
      i := 0;
      assert Exec(s, steps[..0]) == s;
    }
  }

  lemma FirstOrLater(steps: seq<Step>)
    requires exists j :: 0 <= j < |steps| && steps[j].Finish?
    ensures steps[0].Finish? || exists j :: 0 <= j < |steps| - 1 && steps[1..][j].Finish?
  {
    var j :| 0 <= j < |steps| && steps[j].Finish?;
    if j > 0 {
      assert steps[1..][j - 1].Finish?;
    }
  }

  lemma {:induction false} NoneFinished(s: State, steps: seq<Step>, before: nat)
    requires Runnable(s, steps) && forall j :: 0 <= j < |steps| ==> !steps[j].Finish?
    ensures LastFinished(s, steps, before) == before
    decreases |steps|
  {
    if steps == [] {
    } else {
      NoneFinished(Next(s, steps[0]), steps[1..], before);
    }
  }

  /** From the client's start: once an OpenFeed call has finished, the feed is open on the channel of one that did. */
  lemma FinishOpensTheFeed(steps: seq<Step>) returns (i: nat)
    requires Runnable(Init(), steps) && exists j :: 0 <= j < |steps| && steps[j].Finish?
    ensures i < |steps| && steps[i].Finish? && Runnable(Init(), steps[..i])
    ensures var before := Exec(Init(), steps[..i]);
      steps[i].t in before.openers && Exec(Init(), steps).feedChannelID == before.openers[steps[i].t].cid != 0
  {
    FeedIsOnLastFinished(Init(), steps);
    i := LastFinishedIsFinished(Init(), steps, Init().feedChannelID);
    RunKeepsInv(Init(), steps[..i]);
  }

  lemma Cons(s: State, st: Step, rest: seq<Step>)
    requires Enabled(s, st) && Runnable(Next(s, st), rest)
    ensures Runnable(s, [st] + rest) && Exec(s, [st] + rest) == Exec(Next(s, st), rest)
  {
    assert ([st] + rest)[1..] == rest;
  }

  /** With the feed open, an update sends exactly one subscription frame, on the feed's channel. */
  lemma OpenFeedUpdates(s: State, u: nat)
    requires s.feedChannelID != 0 && u !in s.updates
    ensures Runnable(s, [UpdateSubscription(u), SendSubscription(u)])
    ensures Exec(s, [UpdateSubscription(u), SendSubscription(u)]) ==
      s.(trace := s.trace + [SentSubscription(s.feedChannelID)])
  {
    var s1 := Next(s, UpdateSubscription(u));
    assert s1.updates - {u} == s.updates;
    Cons(s1, SendSubscription(u), []);
    Cons(s, UpdateSubscription(u), [SendSubscription(u)]);
    assert [SendSubscription(u)] + [] == [SendSubscription(u)];
    assert [UpdateSubscription(u)] + [SendSubscription(u)] == [UpdateSubscription(u), SendSubscription(u)];
  }

  /** Before it is open, an update is refused and sends nothing; after, a further OpenFeed is refused. */
  lemma RefusedCalls(s: State, id: nat)
    ensures s.feedChannelID == 0 && id !in s.updates ==> Next(s, UpdateSubscription(id)) == s
    ensures s.feedChannelID != 0 && id !in s.openers ==> Next(s, OpenFeed(id)) == s
  {
  }

  /** The whole of one OpenFeed call whose channel the peer opens and configures. */
  function Opening(t: nat, c: nat): seq<Step> {
    [OpenFeed(t), SendRequest(t), Receive(GotChannelOpened(c)), Proceed(t)] +
    [SendSetup(t), Receive(GotFeedConfig(c)), Finish(t)]
  }

  /** The request half: one request on the next channel id, and the answer to it moves the call on. */
  lemma RequestAnswered(s: State, t: nat)
    requires s.feedChannelID == 0 && s.openers == map[]
    ensures var c := s.maxChannelID + 1;
      var steps := [OpenFeed(t), SendRequest(t), Receive(GotChannelOpened(c)), Proceed(t)];
      && Runnable(s, steps)
      && Exec(s, steps) == s.(maxChannelID := c, openers := map[t := AwaitingConfig(c, false, false)],
                              trace := s.trace + [SentChannelRequest(c), GotChannelOpened(c)])
  {
    var c := s.maxChannelID + 1;
    var s1 := Next(s, OpenFeed(t));
    var s2 := Next(s1, SendRequest(t));
    var s3 := Next(s2, Receive(GotChannelOpened(c)));
    assert s3.openers == map[t := AwaitingOpened(c, true, true)];
    assert s3.trace == s.trace + [SentChannelRequest(c), GotChannelOpened(c)];
    Cons(s3, Proceed(t), []);
    Cons(s2, Receive(GotChannelOpened(c)), [Proceed(t)]);
    Cons(s1, SendRequest(t), [Receive(GotChannelOpened(c)), Proceed(t)]);
    Cons(s, OpenFeed(t), [SendRequest(t), Receive(GotChannelOpened(c)), Proceed(t)]);
    assert [Proceed(t)] + [] == [Proceed(t)];
    assert [Receive(GotChannelOpened(c))] + [Proceed(t)] == [Receive(GotChannelOpened(c)), Proceed(t)];
    assert [SendRequest(t)] + [Receive(GotChannelOpened(c)), Proceed(t)]
        == [SendRequest(t), Receive(GotChannelOpened(c)), Proceed(t)];
    assert [OpenFeed(t)] + [SendRequest(t), Receive(GotChannelOpened(c)), Proceed(t)]
        == [OpenFeed(t), SendRequest(t), Receive(GotChannelOpened(c)), Proceed(t)];
  }

  /** The setup half: one setup on that channel, and the answer to it opens the feed there. */
  lemma SetupAnswered(s: State, t: nat, c: nat)
    requires s.openers == map[t := AwaitingConfig(c, false, false)]
    ensures var steps := [SendSetup(t), Receive(GotFeedConfig(c)), Finish(t)];
      && Runnable(s, steps)
      && Exec(s, steps) == s.(feedChannelID := c, openers := map[],
        trace := s.trace + [SentFeedSetup(c), GotFeedConfig(c)])
  {
    var s1 := Next(s, SendSetup(t));
    var s2 := Next(s1, Receive(GotFeedConfig(c)));
    assert s2.openers == map[t := AwaitingConfig(c, true, true)];
    assert s2.trace == s.trace + [SentFeedSetup(c), GotFeedConfig(c)];
    assert s2.openers - {t} == map[];
    Cons(s2, Finish(t), []);
    Cons(s1, Receive(GotFeedConfig(c)), [Finish(t)]);
    Cons(s, SendSetup(t), [Receive(GotFeedConfig(c)), Finish(t)]);
    assert [Finish(t)] + [] == [Finish(t)];
    assert [Receive(GotFeedConfig(c))] + [Finish(t)] == [Receive(GotFeedConfig(c)), Finish(t)];
    assert [SendSetup(t)] + [Receive(GotFeedConfig(c)), Finish(t)] ==
      [SendSetup(t), Receive(GotFeedConfig(c)), Finish(t)];
  }

  lemma {:induction false} Append(s: State, a: seq<Step>, b: seq<Step>)
    requires Runnable(s, a) && Runnable(Exec(s, a), b)
    ensures Runnable(s, a + b) && Exec(s, a + b) == Exec(Exec(s, a), b)
    decreases |a|
  {
    if a == [] {
      assert a + b == b;
    } else {
      Append(Next(s, a[0]), a[1..], b);
      Cons(s, a[0], a[1..] + b);
      assert [a[0]] + (a[1..] + b) == a + b;
    }
  }

  /** A lone OpenFeed call that is answered opens the feed on the next channel id, with exactly the four messages. */
  lemma AnsweredOpenFeedSucceeds(s: State, t: nat)
    requires s.feedChannelID == 0 && s.openers == map[]
    ensures var c := s.maxChannelID + 1;
      && Runnable(s, Opening(t, c))
      && Exec(s, Opening(t, c)) == s.(maxChannelID := c, feedChannelID := c, trace := s.trace +
           [SentChannelRequest(c), GotChannelOpened(c), SentFeedSetup(c), GotFeedConfig(c)])
  {
    var c := s.maxChannelID + 1;
    RequestAnswered(s, t);
    var s1 := Exec(s, [OpenFeed(t), SendRequest(t), Receive(GotChannelOpened(c)), Proceed(t)]);
    SetupAnswered(s1, t, c);
    Append(s, [OpenFeed(t), SendRequest(t), Receive(GotChannelOpened(c)), Proceed(t)],
           [SendSetup(t), Receive(GotFeedConfig(c)), Finish(t)]);
    assert s.trace + [SentChannelRequest(c), GotChannelOpened(c)] + [SentFeedSetup(c), GotFeedConfig(c)]
        == s.trace + [SentChannelRequest(c), GotChannelOpened(c), SentFeedSetup(c), GotFeedConfig(c)];
  }
}

module Dispatch {
  /** The read loop: `running` holds the handlers still to return for the message being dispatched. */
  datatype State<M> = State(
    dispatched: seq<M>,
    running: set<nat>,
    consumers: map<nat, nat>,    // a C() handler and how many messages had been dispatched when it was registered
    received: map<nat, seq<M>>,
    control: set<nat>)           // the short-lived handlers of the handshakes

  datatype Step<M> =
    | RegisterConsumer(h: nat)
    | RegisterControl(h: nat)
    | RemoveControl(h: nat)
    | DispatchNext(m: M)
    | HandOver(h: nat)           // a consumer takes the current message from its channel
    | ReturnControl(h: nat)

  function Init<M>(): State<M> {
    State([], {}, map[], map[], {})
  }

  predicate Enabled<M>(s: State<M>, st: Step<M>) {
    match st
    case RegisterConsumer(h) => h !in s.consumers && h !in s.control && h !in s.running
    case RegisterControl(h) => h !in s.consumers && h !in s.control && h !in s.running
    case RemoveControl(h) => h in s.control
    case DispatchNext(_) => s.running == {}
    case HandOver(h) => h in s.running && h in s.consumers && h in s.received && s.dispatched != []
    case ReturnControl(h) => h in s.running && h !in s.consumers
  }

  function Next<M>(s: State<M>, st: Step<M>): State<M>
    requires Enabled(s, st)
  {
    match st
    case RegisterConsumer(h) => s.(consumers := s.consumers[h := |s.dispatched|], received := s.received[h := []])
    case RegisterControl(h) => s.(control := s.control + {h})
    case RemoveControl(h) => s.(control := s.control - {h})
    case DispatchNext(m) => s.(dispatched := s.dispatched + [m], running := s.consumers.Keys + s.control)
    case HandOver(h) =>
      s.(running := s.running - {h}, received := s.received[h := s.received[h] + [s.dispatched[|s.dispatched| - 1]]])
    case ReturnControl(h) => s.(running := s.running - {h})
  }

  predicate Runnable<M>(s: State<M>, steps: seq<Step<M>>)
    decreases |steps|
  {
    steps == [] || (Enabled(s, steps[0]) && Runnable(Next(s, steps[0]), steps[1..]))
  }

  function Exec<M>(s: State<M>, steps: seq<Step<M>>): State<M>
    requires Runnable(s, steps)
    decreases |steps|
  {
    if steps == [] then s else Exec(Next(s, steps[0]), steps[1..])
  }

  /** A consumer has every message since its registration, except the one still being handed to it. */
  predicate UpToDate<M(==)>(s: State<M>, h: nat)
    requires h in s.consumers
  {
    && s.consumers[h] <= |s.dispatched| && h in s.received
    && (if h in s.running
        then s.consumers[h] < |s.dispatched| && s.received[h] == s.dispatched[s.consumers[h]..|s.dispatched| - 1]
        else s.received[h] == s.dispatched[s.consumers[h]..])
  }

  predicate Inv<M(==)>(s: State<M>) {
    && (forall h :: h in s.consumers ==> UpToDate(s, h) && h !in s.control)
  }

  lemma StepKeepsInv<M>(s: State<M>, st: Step<M>)
    requires Inv(s) && Enabled(s, st)
    ensures Inv(Next(s, st))
  {
    var t := Next(s, st);
    forall h | h in t.consumers ensures UpToDate(t, h) {
      if st.HandOver? && st.h == h {
        var n := |s.dispatched|;
        assert s.dispatched[s.consumers[h]..] == s.dispatched[s.consumers[h]..n - 1] + [s.dispatched[n - 1]];
      }
    }
  }

  /**
   Until the connection dies, a C() consumer sees the contiguous run of messages since its registration, in wire
   order.
   */
  lemma {:induction false} ConsumersSeeContiguousRuns<M>(s: State<M>, steps: seq<Step<M>>)
    requires Inv(s) && Runnable(s, steps)
    ensures Inv(Exec(s, steps))
    ensures s.dispatched <= Exec(s, steps).dispatched
    ensures forall h :: h in s.consumers ==>
      h in Exec(s, steps).consumers && Exec(s, steps).consumers[h] == s.consumers[h]
    decreases |steps|
  {
    if steps == [] {
    } else {
      StepKeepsInv(s, steps[0]);
      ConsumersSeeContiguousRuns(Next(s, steps[0]), steps[1..]);
    }
  }

  /** From the moment the client starts: nothing handed to a consumer is skipped, repeated or out of order. */
  lemma ConsumersFromStart<M>(steps: seq<Step<M>>, h: nat)
    requires Runnable(Init(), steps) && h in Exec(Init(), steps).consumers
    ensures var t := Exec(Init(), steps);
      && t.consumers[h] <= |t.dispatched| && h in t.received
      && t.received[h] <= t.dispatched[t.consumers[h]..]
      && |t.dispatched| - t.consumers[h] <= |t.received[h]| + (if h in t.running then 1 else 0)
  {
    ConsumersSeeContiguousRuns(Init(), steps);
    assert UpToDate(Exec(Init(), steps), h);
  }

  /** Registering makes a consumer with nothing received yet, or a handler of the next message. */
  lemma Registering<M>(s: State<M>, h: nat)
    requires Enabled(s, RegisterConsumer(h))
    ensures var t := Next(s, RegisterConsumer(h));
      h in t.consumers && t.consumers[h] == |s.dispatched| && h in t.received && t.received[h] == []
    ensures Next(s, RegisterControl(h)).control == s.control + {h}
    ensures h !in Next(Next(s, RegisterControl(h)), RemoveControl(h)).control
  {
  }

  /** A message is dispatched to exactly the handlers registered then, each consumer is owed it and gets it. */
  lemma DispatchReaches<M>(s: State<M>, m: M, h: nat)
    requires Inv(s) && s.running == {}
    ensures var t := Next(s, DispatchNext(m));
      && t.dispatched == s.dispatched + [m] && t.running == s.consumers.Keys + s.control
      && (h in s.consumers ==>
          && h in s.received && Enabled(t, HandOver(h))
          && Next(t, HandOver(h)) == t.(running := t.running - {h}, received := s.received[h := s.received[h] + [m]]))
      && (h in s.control && h !in s.consumers ==>
          && Enabled(t, ReturnControl(h))
          && Next(t, ReturnControl(h)) == t.(running := t.running - {h}))
  {
    assert h in s.consumers ==> UpToDate(s, h);
  }
}
