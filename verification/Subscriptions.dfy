/** The SubscriptionManager class, one whole call at a time. */
module Subscriptions {
  import opened Wire
  import opened Sorting

  /**
   How the connection stands: up, gone, or failing such that the next frame is written but the connection dies
   before the writer is told.
   */
  datatype Link = Up | Failing | Down

  /** A connected client as the manager sees it; `wire` is every FEED_SUBSCRIPTION written on its connection. */
  class FeedController {
    var feedChannelID: nat
    var link: Link
    var wire: seq<Frame>

    constructor ()
      ensures feedChannelID == 0 && link == Up && wire == []
    {
      feedChannelID, link, wire := 0, Up, [];
    }

    /** A frame sent now is written and acknowledged. */
    predicate Open()
      reads this
    {
      feedChannelID != 0 && link == Up
    }

    /** A frame sent now is written, acknowledged or not. */
    predicate Writes()
      reads this
    {
      feedChannelID != 0 && link != Down
    }

    /**
     Fails fast when the feed was never opened and fails when the connection is dead or dies under the frame,
     which may have been written even so; else writes one frame.
     */
    method UpdateSubscription(add: seq<Key>, remove: seq<Key>) returns (r: Outcome<string>)
      modifies this`wire, this`link
      ensures r.Pass? <==> old(feedChannelID != 0 && link == Up)
      ensures wire == if old(feedChannelID != 0 && link != Down) then old(wire) + [Frame(add, remove)] else old(wire)
      ensures link == if old(feedChannelID != 0) && old(link) == Failing then Down else old(link)
    {
      if feedChannelID == 0 {
        return Fail("UpdateSubscription: feed not open (call OpenFeed first)");
      }
      if link == Down {
        return Fail("connection closed");
      }
      wire := wire + [Frame(add, remove)];
      if link == Failing {
        link := Down;
        return Fail("connection closed");
      }
      r := Pass;
    }
  }

  datatype SubState = SubState(subject: string, msgCount: nat, firstSeenAt: int, lastSeenAt: int)

  datatype SubscriptionInfo = SubscriptionInfo(key: Key, state: SubState)

  function LowerChar(c: char): char {
    if 'A' <= c <= 'Z' then c + 32 as char else c
  }

  function Lower(s: string): string {
    seq(|s|, i requires 0 <= i < |s| => LowerChar(s[i]))
  }

  function SubjectFor(k: Key): string {
    "godxfeed." + Lower(k.event) + "." + k.symbol
  }

  function Unseen(k: Key): SubState {
    SubState(SubjectFor(k), 0, 0, 0)
  }

  /** The map after the commit loop: a fresh state for each missing key, the others untouched. */
  function WithUnseen(state: map<Key, SubState>, keys: set<Key>): map<Key, SubState> {
    map k | k in state.Keys + keys :: if k in state then state[k] else Unseen(k)
  }

  /** Registered keys keep their state; every other key starts on its subject, uncounted and unseen. */
  lemma WithUnseenMeans(state: map<Key, SubState>, keys: set<Key>, k: Key)
    ensures k in WithUnseen(state, keys) <==> k in state || k in keys
    ensures k in state ==> WithUnseen(state, keys)[k] == state[k]
    ensures k in keys && k !in state ==> WithUnseen(state, keys)[k] == SubState(SubjectFor(k), 0, 0, 0)
  {
  }

  /** One observation at clock reading `now`: count, first time once, last time always. */
  function Seen(s: SubState, now: int): SubState {
    SubState(s.subject, s.msgCount + 1, if s.firstSeenAt == 0 then now else s.firstSeenAt, now)
  }

  predicate InfoLess(a: SubscriptionInfo, b: SubscriptionInfo) {
    StrLess(a.key.event, b.key.event) || (a.key.event == b.key.event && StrLess(a.key.symbol, b.key.symbol))
  }

  lemma InfoOrder()
    ensures StrictWeakOrder(InfoLess)
  {
    forall a: SubscriptionInfo ensures !InfoLess(a, a) {
      StrLessTotal(a.key.event, a.key.event);
      StrLessTotal(a.key.symbol, a.key.symbol);
    }
    forall a: SubscriptionInfo, b: SubscriptionInfo, c: SubscriptionInfo
      ensures InfoLess(a, b) && InfoLess(b, c) ==> InfoLess(a, c)
      ensures InfoLess(a, c) ==> InfoLess(a, b) || InfoLess(b, c)
    {
      StrLessTransitive(a.key.event, b.key.event, c.key.event);
      StrLessTransitive(a.key.symbol, b.key.symbol, c.key.symbol);
      StrLessTransitive(c.key.event, b.key.event, a.key.event);
      StrLessTransitive(c.key.symbol, b.key.symbol, a.key.symbol);
      StrLessTotal(a.key.event, b.key.event);
      StrLessTotal(a.key.symbol, b.key.symbol);
      StrLessTotal(b.key.event, c.key.event);
      StrLessTotal(b.key.symbol, c.key.symbol);
      StrLessTotal(a.key.event, c.key.event);
      StrLessTotal(a.key.symbol, c.key.symbol);
    }
  }

  class SubscriptionManager {
    var fc: FeedController
    var state: map<Key, SubState>

    /** On a live connection the gateway, once it has handled the wire, holds exactly the registered keys. */
    predicate InStep()
      reads this, fc
    {
      fc.Open() ==> Fold({}, fc.wire) == state.Keys
    }

    constructor (fc: FeedController)
      ensures this.fc == fc && state == map[]
      ensures fc.wire == [] ==> InStep()
    {
      this.fc := fc;
      state := map[];
    }

    method Rebind(newFc: FeedController) returns (r: Outcome<string>)
      modifies this`fc, newFc`wire, newFc`link
      ensures fc == newFc && state == old(state)
      ensures r.Pass? <==> state == map[] || old(newFc.Open())
      ensures r.Pass? ==> newFc.link == old(newFc.link)
      ensures r.Fail? ==> !newFc.Open()
      ensures state == map[] || !old(newFc.Writes()) ==> newFc.wire == old(newFc.wire)
      ensures state != map[] && old(newFc.Writes()) ==>
        exists subs :: newFc.wire == old(newFc.wire) + [Frame(subs, [])] && Keys(subs) == state.Keys &&
          |subs| == |state|
      ensures old(newFc.wire) == [] ==> InStep()
    {
      fc := newFc;
      var subs := ListKeys();
      if |subs| == 0 {
        return Pass;
      }
      r := newFc.UpdateSubscription(subs, []);
      FoldSnoc({}, [], Frame(subs, []));
    }

    /** Rebind's snapshot under the lock: every key once. */
    method ListKeys() returns (subs: seq<Key>)
      ensures Keys(subs) == state.Keys && |subs| == |state|
    {
      subs := [];
      var todo := state.Keys;
      while todo != {}
        invariant todo <= state.Keys && Keys(subs) == state.Keys - todo
        invariant |subs| + |todo| == |state.Keys|
        decreases todo
      {
        var k :| k in todo;
        assert Keys(subs + [k]) == Keys(subs) + {k};
        subs := subs + [k];
        todo := todo - {k};
      }
    }

    method BulkAdd(pairs: seq<Key>) returns (r: Outcome<string>)
      modifies this`state, fc`wire, fc`link
      ensures var missing := Missing(old(state.Keys), pairs);
        && (r.Pass? <==> missing == [] || old(fc.Open()))
        && state == (if r.Pass? then WithUnseen(old(state), Keys(pairs)) else old(state))
        && fc.wire == (if missing != [] && old(fc.Writes()) then old(fc.wire) + [Frame(missing, [])] else old(fc.wire))
      ensures old(InStep()) ==> InStep()
    {
      MissingKeys(state.Keys, pairs);
      if |pairs| == 0 {
        return Pass;
      }
      var missing := CollectMissing(pairs);
      if |missing| == 0 {
        assert Keys(missing) == {} == Keys(pairs) - state.Keys;
        forall k | k in pairs ensures k in state {
          assert k in Keys(pairs) && k !in Keys(pairs) - state.Keys;
        }
        return Pass;
      }
      var sent := fc.UpdateSubscription(missing, []);
      if sent.Fail? {
        return Fail("subscriptions: bulk add: " + sent.error);
      }
      FoldSnoc({}, old(fc.wire), Frame(missing, []));
      CommitMissing(missing);
      r := Pass;
    }

    /** The check under the lock: what is not registered yet. */
    method CollectMissing(pairs: seq<Key>) returns (missing: seq<Key>)
      ensures missing == Missing(state.Keys, pairs)
    {
      missing := [];
      for i := 0 to |pairs|
        invariant missing == Missing(state.Keys, pairs[..i])
      {
        assert pairs[..i + 1] == pairs[..i] + [pairs[i]];
        MissingSnoc(state.Keys, pairs[..i], pairs[i]);
        if pairs[i] !in state {
          missing := missing + [pairs[i]];
        }
      }
      assert pairs[..|pairs|] == pairs;
    }

    /** The commit under the lock: a key registered meanwhile keeps its state. */
    method CommitMissing(missing: seq<Key>)
      modifies this`state
      ensures state == WithUnseen(old(state), Keys(missing))
    {
      for i := 0 to |missing|
        invariant state == WithUnseen(old(state), Keys(missing[..i]))
      {
        assert missing[..i + 1] == missing[..i] + [missing[i]];
        if missing[i] !in state {
          state := state[missing[i] := Unseen(missing[i])];
        }
      }
      assert missing[..|missing|] == missing;
    }

    method Add(event: string, symbol: string) returns (r: Outcome<string>)
      modifies this`state, fc`wire, fc`link
      ensures var k := Key(event, symbol);
        && (r.Pass? <==> k in old(state) || old(fc.Open()))
        && state == (if r.Pass? then WithUnseen(old(state), {k}) else old(state))
        && fc.wire == (if k !in old(state) && old(fc.Writes()) then old(fc.wire) + [Frame([k], [])] else old(fc.wire))
      ensures old(InStep()) ==> InStep()
    {
      var k := Key(event, symbol);
      if k in state {
        return Pass;
      }
      var sent := fc.UpdateSubscription([k], []);
      if sent.Fail? {
        return Fail("subscriptions: add: " + sent.error);
      }
      FoldSnoc({}, old(fc.wire), Frame([k], []));
      if k in state {
        return Pass;
      }
      state := state[k := Unseen(k)];
      r := Pass;
    }

    method Remove(event: string, symbol: string) returns (r: Outcome<string>)
      modifies this`state, fc`wire, fc`link
      ensures var k := Key(event, symbol);
        && (r.Pass? <==> k !in old(state) || old(fc.Open()))
        && state == (if r.Pass? then old(state) - {k} else old(state))
        && fc.wire == (if k in old(state) && old(fc.Writes()) then old(fc.wire) + [Frame([], [k])] else old(fc.wire))
      ensures old(InStep()) ==> InStep()
    {
      var k := Key(event, symbol);
      if k !in state {
        assert state == state - {k};
        return Pass;
      }
      var sent := fc.UpdateSubscription([], [k]);
      if sent.Fail? {
        return Fail("subscriptions: remove: " + sent.error);
      }
      FoldSnoc({}, old(fc.wire), Frame([], [k]));
      state := state - {k};
      r := Pass;
    }

    method Observe(event: string, symbol: string, now: int)
      modifies this`state
      ensures state.Keys == old(state.Keys)
      ensures forall k :: k in state ==>
        state[k] == if k == Key(event, symbol) then Seen(old(state[k]), now) else old(state[k])
      ensures forall k :: k in state && k == Key(event, symbol) ==>
        && state[k].subject == old(state[k]).subject
        && state[k].msgCount == old(state[k]).msgCount + 1 && state[k].lastSeenAt == now
        && state[k].firstSeenAt == if old(state[k]).firstSeenAt == 0 then now else old(state[k]).firstSeenAt
    {
      var k := Key(event, symbol);
      if k !in state {
        return;
      }
      state := state[k := Seen(state[k], now)];
    }

    /** Every registered key once, with its own counters, ordered by event and then symbol. */
    method Snapshot() returns (out: seq<SubscriptionInfo>)
      ensures |out| == |state|
      ensures forall i, j :: 0 <= i < j < |out| ==>
        || StrLess(out[i].key.event, out[j].key.event)
        || (out[i].key.event == out[j].key.event && StrLess(out[i].key.symbol, out[j].key.symbol))
      ensures forall i :: 0 <= i < |out| ==> out[i].key in state && out[i].state == state[out[i].key]
      ensures forall k :: k in state ==> SubscriptionInfo(k, state[k]) in out
    {
      out := [];
      var todo := state.Keys;
      while todo != {}
        invariant todo <= state.Keys && |out| + |todo| == |state.Keys|
        invariant forall i :: 0 <= i < |out| ==> out[i].key in state && out[i].state == state[out[i].key]
        invariant forall k :: k in state && k !in todo ==> SubscriptionInfo(k, state[k]) in out
        decreases todo
      {
        var k :| k in todo;
        out := out + [SubscriptionInfo(k, state[k])];
        todo := todo - {k};
      }
      SortedListing(out, state);
      out := Sort(InfoLess, out);
    }
  }

  /** Every key of the map listed, each with its own state. */
  predicate Lists(out: seq<SubscriptionInfo>, state: map<Key, SubState>) {
    && (forall i :: 0 <= i < |out| ==> out[i].key in state && out[i].state == state[out[i].key])
    && (forall k :: k in state ==> SubscriptionInfo(k, state[k]) in out)
  }

  lemma SortedListing(infos: seq<SubscriptionInfo>, state: map<Key, SubState>)
    requires |infos| == |state| && Lists(infos, state)
    ensures var out := Sort(InfoLess, infos);
      && |out| == |state| && Lists(out, state)
      && forall i, j :: 0 <= i < j < |out| ==>
        || StrLess(out[i].key.event, out[j].key.event)
        || (out[i].key.event == out[j].key.event && StrLess(out[i].key.symbol, out[j].key.symbol))
  {
    InfoOrder();
    SortSorts(InfoLess, infos);
    var out := Sort(InfoLess, infos);
    SameEntries(infos, out);
    forall i | 0 <= i < |out| ensures out[i].key in state && out[i].state == state[out[i].key] {
      assert out[i] in infos;
    }
    EachKeyOnce(out, state);
  }

  lemma SameEntries(xs: seq<SubscriptionInfo>, ys: seq<SubscriptionInfo>)
    requires multiset(xs) == multiset(ys)
    ensures |xs| == |ys| && forall x :: x in xs <==> x in ys
  {
    assert |xs| == |multiset(xs)| == |multiset(ys)| == |ys|;
    forall x ensures x in xs <==> x in ys {
      assert x in xs <==> x in multiset(xs);
      assert x in ys <==> x in multiset(ys);
    }
  }

  function InfoKeys(infos: seq<SubscriptionInfo>): seq<Key> {
    seq(|infos|, i requires 0 <= i < |infos| => infos[i].key)
  }

  /** As many entries as keys, one for each key, in order: so the order is strict. */
  lemma EachKeyOnce(out: seq<SubscriptionInfo>, state: map<Key, SubState>)
    requires |out| == |state| && Sorted(InfoLess, out)
    requires forall i :: 0 <= i < |out| ==> out[i].key in state
    requires forall k :: k in state ==> SubscriptionInfo(k, state[k]) in out
    ensures forall i, j :: 0 <= i < j < |out| ==>
      || StrLess(out[i].key.event, out[j].key.event)
      || (out[i].key.event == out[j].key.event && StrLess(out[i].key.symbol, out[j].key.symbol))
  {
    forall k | k in state ensures k in InfoKeys(out) {
      var i :| 0 <= i < |out| && out[i] == SubscriptionInfo(k, state[k]);
      assert InfoKeys(out)[i] == k;
    }
    assert Keys(InfoKeys(out)) == state.Keys;
    CoveringFrameHasNoRepeats(InfoKeys(out), state.Keys);
    forall i, j | 0 <= i < j < |out|
      ensures || StrLess(out[i].key.event, out[j].key.event)
              || (out[i].key.event == out[j].key.event && StrLess(out[i].key.symbol, out[j].key.symbol))
    {
      assert InfoKeys(out)[i] != InfoKeys(out)[j] && !InfoLess(out[j], out[i]);
      StrLessTotal(out[i].key.event, out[j].key.event);
      StrLessTotal(out[i].key.symbol, out[j].key.symbol);
    }
  }

  // ---------------------------------------------------------------- subjects

  /** The letters of a lower-cased text: capitals become their small letters, everything else stays. */
  lemma LowerLetters(s: string, i: nat)
    requires i < |s|
    ensures |Lower(s)| == |s|
    ensures 'A' <= s[i] <= 'Z' ==> 'a' <= Lower(s)[i] <= 'z' && Lower(s)[i] - 'a' == s[i] - 'A'
    ensures !('A' <= s[i] <= 'Z') ==> Lower(s)[i] == s[i]
  {
  }

  lemma SubjectOfQuotes()
    ensures SubjectFor(Key("Quote", "SPY")) == "godxfeed.quote.SPY"
  {
    assert Lower("Quote") == "quote";
  }

  /** Position i is the first dot of a text. */
  predicate FirstDot(s: string, i: nat) {
    i < |s| && s[i] == '.' && forall j :: 0 <= j < i ==> s[j] != '.'
  }

  /** Two keys share a subject exactly when their symbols agree and their event types do but for case. */
  lemma SubjectsDistinct(a: Key, b: Key)
    requires '.' !in a.event && '.' !in b.event
    ensures SubjectFor(a) == SubjectFor(b) <==> Lower(a.event) == Lower(b.event) && a.symbol == b.symbol
  {
    if SubjectFor(a) == SubjectFor(b) {
      NoDotsAfterLowering(a.event);
      NoDotsAfterLowering(b.event);
      AfterPrefix("godxfeed.", Lower(a.event), a.symbol);
      AfterPrefix("godxfeed.", Lower(b.event), b.symbol);
      SplitAtDot(SubjectFor(a)[9..], Lower(a.event), a.symbol, Lower(b.event), b.symbol);
    }
  }

  lemma AfterPrefix(prefix: string, head: string, tail: string)
    ensures (prefix + head + "." + tail)[|prefix|..] == head + "." + tail
  {
  }

  lemma SplitAtDot(x: string, head: string, tail: string, head': string, tail': string)
    requires x == head + "." + tail && x == head' + "." + tail' && '.' !in head && '.' !in head'
    ensures head == head' && tail == tail'
  {
    FirstDots(x, head, tail);
    FirstDots(x, head', tail');
    OneFirstDot(x, |head|, |head'|);
  }

  lemma NoDotsAfterLowering(s: string)
    requires '.' !in s
    ensures '.' !in Lower(s)
  {
  }

  lemma FirstDots(x: string, head: string, tail: string)
    requires x == head + "." + tail && '.' !in head
    ensures FirstDot(x, |head|) && x[..|head|] == head && x[|head| + 1..] == tail
  {
  }

  lemma OneFirstDot(s: string, i: nat, j: nat)
    requires FirstDot(s, i) && FirstDot(s, j)
    ensures i == j
  {
  }

  /** On a monotone, positive clock the first sighting never comes after the last. */
  lemma SeenKeepsOrder(s: SubState, now: int)
    requires 0 < now && s.lastSeenAt <= now && s.firstSeenAt <= s.lastSeenAt
    ensures Seen(s, now).firstSeenAt <= Seen(s, now).lastSeenAt
    ensures s.firstSeenAt != 0 ==> Seen(s, now).firstSeenAt == s.firstSeenAt
  {
  }
}
