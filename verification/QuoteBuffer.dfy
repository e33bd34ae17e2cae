/** The per-symbol rolling window of quotes, with its whole history as ghost state. */
module QuoteBuffer {
  import opened Wire
  import opened Picking

  datatype Sample = Sample(ts: real, mid: real)

  function Since(samples: seq<Sample>, cutoff: real): seq<Sample> {
    if samples == [] then []
    else (if samples[0].ts >= cutoff then [samples[0]] else []) + Since(samples[1..], cutoff)
  }

  lemma {:induction false} SinceJoin(a: seq<Sample>, b: seq<Sample>, cutoff: real)
    ensures Since(a + b, cutoff) == Since(a, cutoff) + Since(b, cutoff)
  {
    if a == [] {
      assert a + b == b;
    } else {
      var head := if a[0].ts >= cutoff then [a[0]] else [];
      assert (a + b)[0] == a[0] && (a + b)[1..] == a[1..] + b;
      SinceJoin(a[1..], b, cutoff);
      assert head + (Since(a[1..], cutoff) + Since(b, cutoff)) == (head + Since(a[1..], cutoff)) + Since(b, cutoff);
    }
  }

  lemma {:induction false} NothingSince(samples: seq<Sample>, cutoff: real)
    requires forall i :: 0 <= i < |samples| ==> samples[i].ts < cutoff
    ensures Since(samples, cutoff) == []
  {
    if samples == [] {
    } else {
      NothingSince(samples[1..], cutoff);
    }
  }

  lemma SinceNext(samples: seq<Sample>, i: nat, cutoff: real)
    requires i < |samples|
    ensures Since(samples[..i + 1], cutoff) ==
            Since(samples[..i], cutoff) + if samples[i].ts >= cutoff then [samples[i]] else []
  {
    assert samples[..i + 1] == samples[..i] + [samples[i]];
    SinceJoin(samples[..i], [samples[i]], cutoff);
    assert [samples[i]][1..] == [];
  }

  /** The samples taken at or after the cutoff. */
  function Recent(samples: seq<Sample>, cutoff: real): nat -> bool {
    (i: nat) => i < |samples| && samples[i].ts >= cutoff
  }

  /** They are what Since gives, in their order. */
  lemma {:induction false} SincePicks(samples: seq<Sample>, cutoff: real) returns (at: seq<nat>)
    ensures Picks(at, |samples|, Recent(samples, cutoff)) && |Since(samples, cutoff)| == |at|
    ensures forall i :: 0 <= i < |at| ==> Since(samples, cutoff)[i] == samples[at[i]]
  {
    if samples == [] {
      at := [];
    } else {
      var n := |samples| - 1;
      at := SincePicks(samples[..n], cutoff);
      SinceNext(samples, n, cutoff);
      assert samples[..n + 1] == samples;
      PicksSame(at, n, Recent(samples[..n], cutoff), Recent(samples, cutoff));
      PicksNext(at, n, Recent(samples, cutoff));
      at := at + if samples[n].ts >= cutoff then [n] else [];
    }
  }

  /** Exactly the samples taken at or after the cutoff, in their order. */
  ghost predicate AreTheRecent(out: seq<Sample>, samples: seq<Sample>, cutoff: real) {
    exists at :: Picks(at, |samples|, Recent(samples, cutoff)) && TakenFrom(out, samples, at)
  }

  predicate TakenFrom(out: seq<Sample>, samples: seq<Sample>, at: seq<nat>) {
    |out| == |at| && forall i :: 0 <= i < |at| ==> at[i] < |samples| && out[i] == samples[at[i]]
  }

  lemma SinceIsRecent(samples: seq<Sample>, cutoff: real)
    ensures AreTheRecent(Since(samples, cutoff), samples, cutoff)
  {
    var at := SincePicks(samples, cutoff);
    assert TakenFrom(Since(samples, cutoff), samples, at);
  }

  /** Samples dropped for being older than `horizon` are missed by no query that starts there or later. */
  lemma DroppedDoNotMatter(history: seq<Sample>, dropped: nat, horizon: real, cutoff: real)
    requires dropped <= |history| && forall i :: 0 <= i < dropped ==> history[i].ts < horizon
    ensures horizon <= cutoff ==> Since(history[dropped..], cutoff) == Since(history, cutoff)
  {
    if horizon <= cutoff {
      NothingSince(history[..dropped], cutoff);
      SinceJoin(history[..dropped], history[dropped..], cutoff);
      assert history == history[..dropped] + history[dropped..];
    }
  }

  /** The largest clock reading seen, once `now` has been seen too. */
  function Later(latest: Option<real>, now: real): Option<real> {
    if latest.Some? && latest.value > now then latest else Some(now)
  }

  lemma LaterIsLargest(latest: Option<real>, now: real)
    ensures Later(latest, now).Some? && now <= Later(latest, now).value
    ensures latest.Some? ==> latest.value <= Later(latest, now).value && Later(latest, now).value in {latest.value, now}
    ensures latest.None? ==> Later(latest, now).value == now
  {
  }

  class QuoteBuffer {
    const windowS: real
    var ticks: seq<Sample>

    ghost var history: seq<Sample>   // everything ever appended
    ghost var dropped: nat           // how many of them are gone
    ghost var latest: Option<real>   // the largest `now` an append or a query has passed

    /** The deque is a suffix of the history, and nothing as recent as latest - windowS is gone. */
    ghost predicate Valid()
      reads this
    {
      && dropped <= |history| && ticks == history[dropped..]
      && (forall i :: 0 <= i < dropped ==> latest.Some? && history[i].ts < latest.value - windowS)
    }

    constructor (windowS: real)
      ensures Valid() && this.windowS == windowS && history == [] && latest == None
    {
      this.windowS := windowS;
      ticks, history, dropped, latest := [], [], 0, None;
    }

    /** Drops the front while it is older than the cutoff, and stops at the first sample that is not. */
    method Prune(now: real)
      requires Valid()
      modifies this`ticks, this`dropped, this`latest
      ensures Valid() && latest == Later(old(latest), now) && dropped >= old(dropped)
      ensures ticks != [] ==> ticks[0].ts >= now - windowS
      ensures forall i :: old(dropped) <= i < dropped ==> history[i].ts < now - windowS
    {
      latest := Later(latest, now);
      var cutoff := now - windowS;
      while ticks != [] && ticks[0].ts < cutoff
        invariant Valid() && old(dropped) <= dropped
        invariant forall i :: old(dropped) <= i < dropped ==> history[i].ts < cutoff
        modifies this`ticks, this`dropped
        decreases |ticks|
      {
        assert ticks[0] == history[dropped];
        ticks := ticks[1..];
        dropped := dropped + 1;
      }
    }

    method Append(ts: real, mid: real)
      requires Valid()
      modifies this`ticks, this`history, this`dropped, this`latest
      ensures Valid() && history == old(history) + [Sample(ts, mid)]
      ensures latest == Later(old(latest), ts) && dropped >= old(dropped)
      ensures ticks != [] ==> ticks[0].ts >= ts - windowS
    {
      ticks := ticks + [Sample(ts, mid)];
      history := history + [Sample(ts, mid)];
      Prune(ts);
    }

    /**
     The window refines the full history: whenever the query reaches no further back than the oldest cutoff that
     may have been pruned to, and so whenever now is the largest seen and horizonS is at most windowS, the answer
     is the filter of everything ever appended.
     */
    method Window(now: real, horizonS: real) returns (out: seq<Sample>)
      requires Valid()
      modifies this`ticks, this`dropped, this`latest
      ensures Valid() && latest == Later(old(latest), now) && dropped >= old(dropped)
      ensures out == Since(ticks, now - horizonS)
      ensures latest.value - windowS <= now - horizonS ==> out == Since(history, now - horizonS)
      ensures latest == Some(now) && horizonS <= windowS ==> out == Since(history, now - horizonS)
    {
      Prune(now);
      var cutoff := now - horizonS;
      out := [];
      for i := 0 to |ticks|
        invariant out == Since(ticks[..i], cutoff)
        modifies {}
      {
        SinceNext(ticks, i, cutoff);
        if ticks[i].ts >= cutoff {
          out := out + [ticks[i]];
        }
      }
      assert ticks[..|ticks|] == ticks;
      DroppedDoNotMatter(history, dropped, latest.value - windowS, cutoff);
    }
  }
}
