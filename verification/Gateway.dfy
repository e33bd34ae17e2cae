/** The synth gateway: the server side of one connection, and its replay task. */
module Gateway {
  import opened Wire
  import opened Picking

  datatype ClientMessage =
    | Setup(keepaliveTimeout: int, acceptKeepaliveTimeout: int)
    | Auth
    | Keepalive
    | ChannelRequest(channel: int)
    | FeedSetup(channel: int)
    | FeedSubscription(channel: int, frame: Frame)
    | ChannelCancel(channel: int)
    | Unhandled

  datatype Reply =
    | SetupReply(keepaliveTimeout: int, acceptKeepaliveTimeout: int)
    | AuthState(authorized: bool)
    | KeepaliveReply
    | ChannelOpened(channel: int)
    | FeedConfig(channel: int)
    | ChannelClosed(channel: int)

  /** The acknowledgement of one message; subscriptions get none. */
  function Ack(m: ClientMessage): seq<Reply> {
    match m
    case Setup(k, a) => [SetupReply(k, a)]
    case Auth => [AuthState(true)]
    case Keepalive => [KeepaliveReply]
    case ChannelRequest(c) => [ChannelOpened(c)]
    case FeedSetup(c) => [FeedConfig(c)]
    case ChannelCancel(c) => [ChannelClosed(c)]
    case FeedSubscription(_, _) => []
    case Unhandled => []
  }

  /**
   What a session goes through: a message, its replay task being over, or the end of the connection: a disconnect,
   or a message that raises, having applied the adds and removes in `applied`.
   */
  datatype Happening = Received(m: ClientMessage) | ReplayOver | Broken(applied: Frame)

  /** The replay task: none or done, running, or told to stop and not done yet. */
  datatype Task = Idle | Running(channel: int) | Stopping(channel: int)

  /** The happenings before the end of the connection. */
  function Lived(hs: seq<Happening>): (lived: seq<Happening>)
    ensures lived <= hs && (|lived| < |hs| ==> hs[|lived|].Broken?)
  {
    if hs == [] || hs[0].Broken? then [] else [hs[0]] + Lived(hs[1..])
  }

  function AllAcks(hs: seq<Happening>): seq<Reply> {
    if hs == [] then []
    else var n := |hs| - 1; AllAcks(hs[..n]) + if hs[n].Received? then Ack(hs[n].m) else []
  }

  /** The subscription frames since the last cancel. */
  function Frames(hs: seq<Happening>): seq<Frame> {
    if hs == [] then []
    else
      var n := |hs| - 1;
      match hs[n]
      case Received(FeedSubscription(_, f)) => Frames(hs[..n]) + [f]
      case Received(ChannelCancel(_)) => []
      case _ => Frames(hs[..n])
  }

  /** The channel of the last request since the last cancel. */
  function Channel(hs: seq<Happening>): Option<int> {
    if hs == [] then None
    else
      var n := |hs| - 1;
      match hs[n]
      case Received(ChannelRequest(c)) => Some(c)
      case Received(ChannelCancel(_)) => None
      case _ => Channel(hs[..n])
  }

  /** The replay task: started by a subscription on the open channel when there is none, told to stop by a cancel. */
  function TaskAfter(hs: seq<Happening>): Task {
    if hs == [] then Idle
    else
      var n := |hs| - 1;
      match hs[n]
      case Received(m) => Retask(TaskAfter(hs[..n]), Channel(hs[..n]), m)
      case ReplayOver => Idle
      case Broken(_) => Stopped(TaskAfter(hs[..n]))
  }

  /** What one message does to the task, given the open channel. */
  function Retask(task: Task, channel: Option<int>, m: ClientMessage): Task {
    match m
    case FeedSubscription(_, _) => if task.Idle? && channel.Some? then Running(channel.value) else task
    case ChannelCancel(_) => Stopped(task)
    case _ => task
  }

  /** What it does to the set and to the channel. */
  function Reset(subscribed: set<Key>, m: ClientMessage): set<Key> {
    match m
    case FeedSubscription(_, f) => Apply(subscribed, f)
    case ChannelCancel(_) => {}
    case _ => subscribed
  }

  function Rechannel(channel: Option<int>, m: ClientMessage): Option<int> {
    match m
    case ChannelRequest(c) => Some(c)
    case ChannelCancel(_) => None
    case _ => channel
  }

  function Stopped(task: Task): Task {
    if task.Idle? then Idle else Stopping(task.channel)
  }

  lemma {:induction false} ChannelWasRequested(hs: seq<Happening>)
    ensures Channel(hs).Some? ==> Received(ChannelRequest(Channel(hs).value)) in hs
  {
    if hs == [] {
    } else {
      var n := |hs| - 1;
      ChannelWasRequested(hs[..n]);
      assert forall h :: h in hs[..n] ==> h in hs;
    }
  }

  /** The set a session is left with: the frames since the last cancel, and what a message that raised applied. */
  function FinalSet(hs: seq<Happening>): set<Key> {
    var lived := Lived(hs);
    if |lived| < |hs| then Apply(Fold({}, Frames(lived)), hs[|lived|].applied) else Fold({}, Frames(lived))
  }

  /** The end of the connection tells the task to stop. */
  function FinalTask(hs: seq<Happening>): Task {
    var lived := Lived(hs);
    if |lived| < |hs| then Stopped(TaskAfter(lived)) else TaskAfter(lived)
  }

  /**
   The protocol, message by message: what is answered, and what becomes of the channel, the set and the task. A
   subscription starts the task only on an open channel with no task about; a cancel clears all and stops it.
   */
  lemma Protocol(m: ClientMessage, channel: Option<int>, subscribed: set<Key>, task: Task)
    ensures m.Setup? ==> Ack(m) == [SetupReply(m.keepaliveTimeout, m.acceptKeepaliveTimeout)]
    ensures m.Auth? ==> Ack(m) == [AuthState(true)]
    ensures m.Keepalive? ==> Ack(m) == [KeepaliveReply]
    ensures m.ChannelRequest? ==> Ack(m) == [ChannelOpened(m.channel)] && Rechannel(channel, m) == Some(m.channel)
    ensures m.FeedSetup? ==> Ack(m) == [FeedConfig(m.channel)]
    ensures m.FeedSubscription? || m.Unhandled? ==> Ack(m) == []
    ensures m.ChannelCancel? ==> Ack(m) == [ChannelClosed(m.channel)]
    ensures m.ChannelCancel? ==> Rechannel(channel, m) == None && Reset(subscribed, m) == {}
    ensures m.ChannelCancel? ==> Retask(task, channel, m) == if task.Idle? then Idle else Stopping(task.channel)
    ensures !m.ChannelRequest? && !m.ChannelCancel? ==> Rechannel(channel, m) == channel
    ensures !m.FeedSubscription? && !m.ChannelCancel? ==>
      Reset(subscribed, m) == subscribed && Retask(task, channel, m) == task
    ensures m.FeedSubscription? ==>
      forall k :: k in Reset(subscribed, m) <==> k !in m.frame.remove && (k in subscribed || k in m.frame.add)
    ensures m.FeedSubscription? && task.Idle? && channel.Some? ==> Retask(task, channel, m) == Running(channel.value)
    ensures m.FeedSubscription? && !(task.Idle? && channel.Some?) ==> Retask(task, channel, m) == task
  {
  }

  /** A request for channel c, and later a subscription. */
  predicate RequestedThenSubscribed(hs: seq<Happening>, c: int, i: nat, j: nat) {
    i < j < |hs| && hs[i] == Received(ChannelRequest(c)) && hs[j].Received? && hs[j].m.FeedSubscription?
  }

  /** Replay runs only on a channel that was requested, and only once something was subscribed after the request. */
  lemma {:induction false} ReplayWasRequested(hs: seq<Happening>)
    ensures !TaskAfter(hs).Idle? ==> exists i, j :: RequestedThenSubscribed(hs, TaskAfter(hs).channel, i, j)
  {
    if hs == [] {
    } else {
      var n := |hs| - 1;
      ReplayWasRequested(hs[..n]);
      ChannelWasRequested(hs[..n]);
      if !TaskAfter(hs).Idle? && !TaskAfter(hs[..n]).Idle? {
        var i, j :| RequestedThenSubscribed(hs[..n], TaskAfter(hs[..n]).channel, i, j);
        assert RequestedThenSubscribed(hs, TaskAfter(hs).channel, i, j);
      } else if !TaskAfter(hs).Idle? {
        var i :| 0 <= i < n && hs[..n][i] == Received(ChannelRequest(Channel(hs[..n]).value));
        assert RequestedThenSubscribed(hs, TaskAfter(hs).channel, i, n);
      }
    }
  }

  class Session {
    var feedChannel: Option<int>
    var subscribed: set<Key>
    var playback: Task

    constructor ()
      ensures feedChannel == None && subscribed == {} && playback == Idle
    {
      feedChannel, subscribed, playback := None, {}, Idle;
    }

    method HandleSubscription(f: Frame)
      modifies this`subscribed
      ensures subscribed == Apply(old(subscribed), f)
    {
      for i := 0 to |f.add|
        invariant subscribed == old(subscribed) + Keys(f.add[..i])
      {
        assert f.add[..i + 1] == f.add[..i] + [f.add[i]];
        subscribed := subscribed + {f.add[i]};
      }
      assert f.add[..|f.add|] == f.add;
      for i := 0 to |f.remove|
        invariant subscribed == old(subscribed) + Keys(f.add) - Keys(f.remove[..i])
      {
        assert f.remove[..i + 1] == f.remove[..i] + [f.remove[i]];
        subscribed := subscribed - {f.remove[i]};
      }
      assert f.remove[..|f.remove|] == f.remove;
    }

    method Handle(m: ClientMessage) returns (replies: seq<Reply>)
      modifies this
      ensures replies == Ack(m)
      ensures feedChannel == Rechannel(old(feedChannel), m)
      ensures subscribed == Reset(old(subscribed), m)
      ensures playback == Retask(old(playback), old(feedChannel), m)
    {
      replies := [];
      match m {
        case Setup(k, a) => replies := [SetupReply(k, a)];
        case Auth => replies := [AuthState(true)];
        case Keepalive => replies := [KeepaliveReply];
        case ChannelRequest(c) =>
          feedChannel := Some(c);
          replies := [ChannelOpened(c)];
        case FeedSetup(c) => replies := [FeedConfig(c)];
        case FeedSubscription(_, f) =>
          HandleSubscription(f);
          if feedChannel.Some? && playback.Idle? {
            playback := Running(feedChannel.value);
          }
        case ChannelCancel(c) =>
          replies := [ChannelClosed(c)];
          if !playback.Idle? {
            playback := Stopping(playback.channel);
          }
          subscribed := {};
          feedChannel := None;
        case Unhandled =>
      }
    }

    /**
     The receive loop of one connection, until it ends: channel, set and replay task are functions of what happened.
     The end tells the task to stop.
     */
    method Serve(hs: seq<Happening>) returns (replies: seq<Reply>)
      requires feedChannel == None && subscribed == {} && playback == Idle
      modifies this
      ensures subscribed == FinalSet(hs) && playback == FinalTask(hs)
      ensures feedChannel == Channel(Lived(hs)) && replies == AllAcks(Lived(hs))
    {
      replies := [];
      for i := 0 to |hs|
        invariant subscribed == Fold({}, Frames(hs[..i]))
        invariant feedChannel == Channel(hs[..i]) && playback == TaskAfter(hs[..i])
        invariant replies == AllAcks(hs[..i])
        invariant i <= |Lived(hs)|
      {
        LivedThrough(hs, i);
        if hs[i].Broken? {
          HandleSubscription(hs[i].applied);
          if !playback.Idle? {
            playback := Stopping(playback.channel);
          }
          return;
        }
        OneMore(hs, i);
        if hs[i] == ReplayOver {
          playback := Idle;
          continue;
        }
        var acks := Handle(hs[i].m);
        replies := replies + acks;
      }
      assert Lived(hs) == hs[..|hs|] == hs;
    }
  }

  /** What one more happening does to the set, the channel, the replies and the task. */
  lemma OneMore(hs: seq<Happening>, i: nat)
    requires i < |hs| && !hs[i].Broken?
    ensures var before, after := hs[..i], hs[..i + 1];
      match hs[i]
      case Received(m) =>
        && Fold({}, Frames(after)) == Reset(Fold({}, Frames(before)), m)
        && Channel(after) == Rechannel(Channel(before), m)
        && AllAcks(after) == AllAcks(before) + Ack(m)
        && TaskAfter(after) == Retask(TaskAfter(before), Channel(before), m)
      case _ =>
        && Fold({}, Frames(after)) == Fold({}, Frames(before))
        && Channel(after) == Channel(before) && AllAcks(after) == AllAcks(before)
        && TaskAfter(after) == Idle
  {
    assert hs[..i + 1][..i] == hs[..i] && hs[..i + 1][i] == hs[i];
    if hs[i].Received? && hs[i].m.FeedSubscription? {
      FoldSnoc({}, Frames(hs[..i]), hs[i].m.frame);
    }
  }

  /** A session that has lived up to happening i lives on past it, unless that is its end. */
  lemma {:induction false} LivedThrough(hs: seq<Happening>, i: nat)
    requires i < |hs| && i <= |Lived(hs)|
    ensures if hs[i].Broken? then Lived(hs) == hs[..i] else i < |Lived(hs)|
  {
    if i == 0 {
    } else {
      LivedThrough(hs[1..], i - 1);
      assert hs[..i] == [hs[0]] + hs[1..][..i - 1];
    }
  }

  // ---------------------------------------------------------------- replay

  datatype Row = Row(ts: int, key: Key)

  /** One FEED_DATA frame: which row on which lap, when, and the subscribed set its check saw. */
  datatype Emission = Emission(lap: nat, row: nat, lapStart: int, at: int, subscribed: set<Key>)

  datatype Playback = Playback(now: int, lap: nat, lapStart: int, row: nat, emitted: seq<Emission>)

  /** Rows are ordered by timestamp, as the query that loads them asks. */
  predicate Chronological(rows: seq<Row>) {
    forall i, j :: 0 <= i < j < |rows| ==> rows[i].ts <= rows[j].ts
  }

  /** How long after the lap's start row i is due, truncated to nanoseconds. */
  function Offset(rows: seq<Row>, speed: real, i: nat): int
    requires i < |rows| && 0.0 < speed
  {
    ((rows[i].ts - rows[0].ts) as real / speed).Floor
  }

  /** The offset is the row's distance from the first, shrunk by the speed, to the nanosecond below. */
  lemma OffsetMeans(rows: seq<Row>, speed: real, i: nat)
    requires i < |rows| && 0.0 < speed
    ensures var o := Offset(rows, speed, i);
      o as real * speed <= (rows[i].ts - rows[0].ts) as real < (o as real + 1.0) * speed
  {
    var gap := (rows[i].ts - rows[0].ts) as real;
    Unshrunk(gap, speed);
    FloorShrunk(gap, gap / speed, Offset(rows, speed, i), speed);
  }

  lemma FloorShrunk(gap: real, q: real, o: int, speed: real)
    requires o == q.Floor && 0.0 < speed && q * speed == gap
    ensures o as real * speed <= gap < (o as real + 1.0) * speed
  {
    TimesBetween(o as real, q, o as real + 1.0, speed);
  }

  lemma Unshrunk(gap: real, speed: real)
    requires 0.0 < speed
    ensures (gap / speed) * speed == gap
  {
  }

  lemma TimesBetween(low: real, q: real, high: real, speed: real)
    requires low <= q < high && 0.0 < speed
    ensures low * speed <= q * speed < high * speed
  {
    assert (q - low) * speed >= 0.0 && (high - q) * speed > 0.0;
  }

  function Due(rows: seq<Row>, speed: real, e: Emission): int
    requires e.row < |rows| && 0.0 < speed
  {
    e.lapStart + Offset(rows, speed, e.row)
  }

  /** The replay at lap start `now`. */
  function Begin(now: int): Playback {
    Playback(now, 1, now, 0, [])
  }

  /**
   What the world does to one pass of the row loop: how far past the due time the sleep (or the work) runs, the
   live set after it, and how long the send and the way to the next row or lap take.
   */
  datatype Turn = Turn(late: nat, subscribed: set<Key>, after: nat)

  /** One pass of the row loop. */
  function Visit(rows: seq<Row>, speed: real, p: Playback, turn: Turn): Playback
    requires p.row < |rows| && 0.0 < speed
  {
    var due := p.lapStart + Offset(rows, speed, p.row);
    var at := (if due > p.now then due else p.now) + turn.late;
    var emitted := if rows[p.row].key in turn.subscribed
                   then p.emitted + [Emission(p.lap, p.row, p.lapStart, at, turn.subscribed)] else p.emitted;
    var now := at + turn.after;
    if p.row + 1 < |rows| then Playback(now, p.lap, p.lapStart, p.row + 1, emitted)
    else Playback(now, p.lap + 1, now, 0, emitted)
  }

  function PlayAll(rows: seq<Row>, speed: real, p: Playback, turns: seq<Turn>): (q: Playback)
    requires p.row < |rows| && 0.0 < speed
    ensures q.row < |rows|
    decreases |turns|
  {
    if turns == [] then p
    else var n := |turns| - 1; Visit(rows, speed, PlayAll(rows, speed, p, turns[..n]), turns[n])
  }

  predicate Before(a: Emission, b: Emission) {
    a.lap < b.lap || (a.lap == b.lap && a.row < b.row)
  }

  /** Subscribed when checked, and not ahead of its lap's schedule. */
  predicate Honest(rows: seq<Row>, speed: real, e: Emission)
    requires 0.0 < speed
  {
    e.row < |rows| && rows[e.row].key in e.subscribed && Due(rows, speed, e) <= e.at
  }

  predicate PlaybackInv(rows: seq<Row>, speed: real, p: Playback)
    requires 0.0 < speed
  {
    && p.row < |rows| && p.lapStart <= p.now
    && (forall i :: 0 <= i < |p.emitted| ==>
        && Honest(rows, speed, p.emitted[i]) && p.emitted[i].at <= p.now
        && (p.emitted[i].lap < p.lap || (p.emitted[i].lap == p.lap && p.emitted[i].row < p.row))
        && (p.emitted[i].lap == p.lap ==> p.emitted[i].lapStart == p.lapStart)
        && (p.emitted[i].lap < p.lap ==> p.emitted[i].at <= p.lapStart))
    && (forall i, j :: 0 <= i < j < |p.emitted| ==>
        Before(p.emitted[i], p.emitted[j]) && p.emitted[i].at <= p.emitted[j].at
        && Due(rows, speed, p.emitted[i]) <= Due(rows, speed, p.emitted[j]))
  }

  lemma OffsetsGrow(rows: seq<Row>, speed: real, i: nat, j: nat)
    requires Chronological(rows) && 0.0 < speed && i <= j < |rows|
    ensures 0 <= Offset(rows, speed, i) <= Offset(rows, speed, j)
  {
    var a, b := (rows[i].ts - rows[0].ts) as real, (rows[j].ts - rows[0].ts) as real;
    assert 0.0 <= a <= b;
    assert 0.0 <= a / speed <= b / speed by { DivideKeepsOrder(a, b, speed); }
  }

  lemma DivideKeepsOrder(a: real, b: real, c: real)
    requires 0.0 <= a <= b && 0.0 < c
    ensures 0.0 <= a / c <= b / c
  {
    assert b / c - a / c == (b - a) / c;
  }

  lemma VisitKeepsInv(rows: seq<Row>, speed: real, p: Playback, turn: Turn)
    requires 0.0 < speed && Chronological(rows) && PlaybackInv(rows, speed, p)
    ensures PlaybackInv(rows, speed, Visit(rows, speed, p, turn))
  {
    var q := Visit(rows, speed, p, turn);
    if rows[p.row].key in turn.subscribed {
      var last := q.emitted[|p.emitted|];
      OffsetsGrow(rows, speed, p.row, p.row);
      forall i | 0 <= i < |p.emitted|
        ensures Before(q.emitted[i], last) && q.emitted[i].at <= last.at &&
          Due(rows, speed, q.emitted[i]) <= Due(rows, speed, last)
      {
        if q.emitted[i].lap == p.lap {
          OffsetsGrow(rows, speed, q.emitted[i].row, p.row);
        }
      }
    }
  }

  /**
   Replay safety, whatever the sleeps and subscription changes: every emitted row was subscribed at its check and
   not ahead of schedule, and the emissions follow the rows lap after lap, their due times never going back.
   */
  lemma {:induction false} ReplayIsSafe(rows: seq<Row>, speed: real, p: Playback, turns: seq<Turn>)
    requires 0.0 < speed && Chronological(rows) && PlaybackInv(rows, speed, p)
    ensures PlaybackInv(rows, speed, PlayAll(rows, speed, p, turns))
    decreases |turns|
  {
    if turns == [] {
    } else {
      var n := |turns| - 1;
      ReplayIsSafe(rows, speed, p, turns[..n]);
      VisitKeepsInv(rows, speed, PlayAll(rows, speed, p, turns[..n]), turns[n]);
    }
  }

  // ---------------------------------------------------------------- exactly which rows are emitted

  /** The row of the v-th visit when n rows are played round and round. */
  function RowOf(v: nat, n: nat): (row: nat)
    requires n > 0
    ensures row < n
  {
    if v < n then v else RowOf(v - n, n)
  }

  function LapOf(v: nat, n: nat): nat
    requires n > 0
  {
    if v < n then 1 else 1 + LapOf(v - n, n)
  }

  lemma {:induction false} NextVisit(v: nat, n: nat)
    requires n > 0
    ensures RowOf(v + 1, n) == (if RowOf(v, n) + 1 < n then RowOf(v, n) + 1 else 0)
    ensures LapOf(v + 1, n) == (if RowOf(v, n) + 1 < n then LapOf(v, n) else LapOf(v, n) + 1)
  {
    if v < n {
    } else {
      NextVisit(v - n, n);
    }
  }

  /** The place of visit v, if its key is subscribed then. */
  function HeardAt(rows: seq<Row>, v: nat, turn: Turn): seq<(nat, nat)>
    requires rows != []
  {
    if Listens(rows, v, turn) then [PlaceOf(v, |rows|)] else []
  }

  function PlaceOf(v: nat, n: nat): (nat, nat)
    requires n > 0
  {
    (LapOf(v, n), RowOf(v, n))
  }

  /** The row of visit v is subscribed when its turn comes. */
  predicate Listens(rows: seq<Row>, v: nat, turn: Turn)
    requires rows != []
  {
    rows[RowOf(v, |rows|)].key in turn.subscribed
  }

  /** The turns, from visit v on, at which the row's key is subscribed. */
  function Listened(rows: seq<Row>, v: nat, turns: seq<Turn>): nat -> bool
    requires rows != []
  {
    (i: nat) => i < |turns| && Listens(rows, v + i, turns[i])
  }

  /** The places of the visits from v on. */
  function PlacesFrom(v: nat, n: nat): nat -> (nat, nat)
    requires n > 0
  {
    (i: nat) => PlaceOf(v + i, n)
  }

  /** From visit v on: the (lap, row) places whose key is subscribed when its turn comes. */
  function Heard(rows: seq<Row>, v: nat, turns: seq<Turn>): seq<(nat, nat)>
    requires rows != []
  {
    Picked(|turns|, Listened(rows, v, turns), PlacesFrom(v, |rows|))
  }

  /** That is: exactly the visits whose row is subscribed when its turn comes, in order, at their places. */
  lemma HeardMeans(rows: seq<Row>, v: nat, turns: seq<Turn>) returns (at: seq<nat>)
    requires rows != []
    ensures Picks(at, |turns|, Listened(rows, v, turns)) && |Heard(rows, v, turns)| == |at|
    ensures forall i: nat :: i < |turns| ==>
      (Listened(rows, v, turns)(i) <==> rows[RowOf(v + i, |rows|)].key in turns[i].subscribed)
    ensures forall i :: 0 <= i < |at| ==>
      Heard(rows, v, turns)[i] == (LapOf(v + at[i], |rows|), RowOf(v + at[i], |rows|))
  {
    at := PickedMeans(|turns|, Listened(rows, v, turns), PlacesFrom(v, |rows|));
    forall i | 0 <= i < |at|
      ensures Heard(rows, v, turns)[i] == (LapOf(v + at[i], |rows|), RowOf(v + at[i], |rows|))
    {
      assert PlacesFrom(v, |rows|)(at[i]) == PlaceOf(v + at[i], |rows|);
    }
  }

  lemma HeardNext(rows: seq<Row>, v: nat, turns: seq<Turn>)
    requires rows != [] && turns != []
    ensures var n := |turns| - 1;
      Heard(rows, v, turns) == Heard(rows, v, turns[..n]) + HeardAt(rows, v + n, turns[n])
  {
    var n := |turns| - 1;
    PickedSame(n, Listened(rows, v, turns), PlacesFrom(v, |rows|), Listened(rows, v, turns[..n]),
      PlacesFrom(v, |rows|));
  }

  function Places(es: seq<Emission>): seq<(nat, nat)> {
    seq(|es|, i requires 0 <= i < |es| => (es[i].lap, es[i].row))
  }

  lemma VisitEmits(rows: seq<Row>, speed: real, p: Playback, turn: Turn)
    requires 0.0 < speed && p.row < |rows|
    ensures Places(Visit(rows, speed, p, turn).emitted)
         == Places(p.emitted) + (if rows[p.row].key in turn.subscribed then [(p.lap, p.row)] else [])
    ensures var q := Visit(rows, speed, p, turn);
      && q.row == (if p.row + 1 < |rows| then p.row + 1 else 0)
      && q.lap == (if p.row + 1 < |rows| then p.lap else p.lap + 1)
  {
  }

  /** An emission comes at its row's due time, or at once if that has passed, but for how late the turn runs. */
  lemma EmittedOnTime(rows: seq<Row>, speed: real, p: Playback, turn: Turn)
    requires 0.0 < speed && p.row < |rows| && rows[p.row].key in turn.subscribed
    ensures var q := Visit(rows, speed, p, turn);
      && |q.emitted| == |p.emitted| + 1 && q.emitted[..|p.emitted|] == p.emitted
      && var e, due := q.emitted[|p.emitted|], p.lapStart + Offset(rows, speed, p.row);
        && e.lapStart == p.lapStart && e.subscribed == turn.subscribed
        && due <= e.at - turn.late && p.now <= e.at - turn.late && e.at - turn.late in {due, p.now}
        && q.now == e.at + turn.after
  {
  }

  /** The n rows of a lap are the visits of that lap, in order. */
  lemma {:induction false} PlaceOfVisit(v: nat, n: nat)
    requires n > 0
    ensures 1 <= LapOf(v, n) && (LapOf(v, n) - 1) * n + RowOf(v, n) == v
  {
    if v < n {
    } else {
      PlaceOfVisit(v - n, n);
      OneMoreLap(LapOf(v - n, n) - 1, n);
    }
  }

  lemma OneMoreLap(l: nat, n: nat)
    ensures (l + 1) * n == l * n + n
  {
  }

  lemma PlacesJoin(a: seq<(nat, nat)>, b: seq<(nat, nat)>, c: seq<(nat, nat)>)
    ensures (a + b) + c == a + (b + c)
  {
  }

  lemma EmitsNext(rows: seq<Row>, speed: real, p: Playback, w: nat, turn: Turn)
    requires 0.0 < speed && rows != [] && p.row == RowOf(w, |rows|) && p.lap == LapOf(w, |rows|)
    ensures var q := Visit(rows, speed, p, turn);
      && Places(q.emitted) == Places(p.emitted) + HeardAt(rows, w, turn)
      && q.row == RowOf(w + 1, |rows|) && q.lap == LapOf(w + 1, |rows|)
  {
    VisitEmits(rows, speed, p, turn);
    NextVisit(w, |rows|);
  }

  /** What is emitted is exactly every subscribed row of every lap, in order: none skipped, repeated or invented. */
  lemma {:induction false} EmitsWhatIsHeard(rows: seq<Row>, speed: real, p: Playback, v: nat, turns: seq<Turn>)
    requires 0.0 < speed && rows != [] && p.row == RowOf(v, |rows|) && p.lap == LapOf(v, |rows|)
    ensures Places(PlayAll(rows, speed, p, turns).emitted) == Places(p.emitted) + Heard(rows, v, turns)
    ensures var q, w := PlayAll(rows, speed, p, turns), v + |turns|;
      q.row == RowOf(w, |rows|) && q.lap == LapOf(w, |rows|)
    decreases |turns|
  {
    if turns == [] {
    } else {
      var n := |turns| - 1;
      EmitsWhatIsHeard(rows, speed, p, v, turns[..n]);
      EmitsNext(rows, speed, PlayAll(rows, speed, p, turns[..n]), v + n, turns[n]);
      HeardNext(rows, v, turns);
      PlacesJoin(Places(p.emitted), Heard(rows, v, turns[..n]), HeardAt(rows, v + n, turns[n]));
    }
  }

  /** Both, from the moment the replay starts. */
  lemma ReplayFromStart(rows: seq<Row>, speed: real, now: int, turns: seq<Turn>)
    requires 0.0 < speed && rows != [] && Chronological(rows)
    ensures PlaybackInv(rows, speed, PlayAll(rows, speed, Begin(now), turns))
    ensures Places(PlayAll(rows, speed, Begin(now), turns).emitted) == Heard(rows, 0, turns)
  {
    ReplayIsSafe(rows, speed, Begin(now), turns);
    EmitsWhatIsHeard(rows, speed, Begin(now), 0, turns);
    assert Places(Begin(now).emitted) == [];
  }
}
