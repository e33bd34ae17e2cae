/** The wire vocabulary shared by the client, the subscription manager and the gateway. */
module Wire {
  import opened Picking

  datatype Option<+T> = None | Some(value: T)

  datatype Outcome<+E> = Pass | Fail(error: E)

  datatype Result<+T, +E> = Success(value: T) | Failure(error: E)

  /** An (event, symbol) pair: `subKey` in the manager, a `FEED_SUBSCRIPTION` item on the wire. */
  datatype Key = Key(event: string, symbol: string)

  /** The payload of one FEED_SUBSCRIPTION message. */
  datatype Frame = Frame(add: seq<Key>, remove: seq<Key>)

  function Keys(s: seq<Key>): set<Key> {
    set k | k in s
  }

  /** What the gateway's session set becomes once it has handled one frame: adds, then removes. */
  function Apply(subscribed: set<Key>, f: Frame): set<Key> {
    subscribed + Keys(f.add) - Keys(f.remove)
  }

  /** The session set after every in-flight frame, oldest first, has been handled. */
  function Fold(subscribed: set<Key>, frames: seq<Frame>): set<Key>
    decreases |frames|
  {
    if frames == [] then subscribed else Fold(Apply(subscribed, frames[0]), frames[1..])
  }

  lemma {:induction false} FoldSnoc(subscribed: set<Key>, frames: seq<Frame>, f: Frame)
    ensures Fold(subscribed, frames + [f]) == Apply(Fold(subscribed, frames), f)
    decreases |frames|
  {
    if frames == [] {
    } else {
      assert (frames + [f])[1..] == frames[1..] + [f];
      FoldSnoc(Apply(subscribed, frames[0]), frames[1..], f);
    }
  }

  /** The key is in the set afterwards unless removed; it gets there by being there before or being added. */
  lemma ApplyMeans(subscribed: set<Key>, f: Frame, k: Key)
    ensures k in Apply(subscribed, f) <==> k !in f.remove && (k in subscribed || k in f.add)
  {
  }

  /** The pairs a batch add finds unregistered, in order and with repetitions. */
  function Missing(registered: set<Key>, pairs: seq<Key>): seq<Key> {
    if pairs == [] then []
    else (if pairs[0] in registered then [] else [pairs[0]]) + Missing(registered, pairs[1..])
  }

  lemma {:induction false} MissingSnoc(registered: set<Key>, pairs: seq<Key>, k: Key)
    ensures Missing(registered, pairs + [k]) == Missing(registered, pairs) + if k in registered then [] else [k]
  {
    if pairs == [] {
      assert [] + [k] == [k] && Missing(registered, [k][1..]) == [];
    } else {
      assert (pairs + [k])[1..] == pairs[1..] + [k];
      MissingSnoc(registered, pairs[1..], k);
    }
  }

  lemma MissingOne(registered: set<Key>, k: Key)
    ensures Missing(registered, [k]) == if k in registered then [] else [k]
  {
    MissingSnoc(registered, [], k);
    assert [] + [k] == [k];
  }

  lemma {:induction false} MissingKeys(registered: set<Key>, pairs: seq<Key>)
    ensures Keys(Missing(registered, pairs)) == Keys(pairs) - registered
  {
    if pairs == [] {
    } else {
      var rest := Missing(registered, pairs[1..]);
      MissingKeys(registered, pairs[1..]);
      assert Keys(pairs) == {pairs[0]} + Keys(pairs[1..]);
      if pairs[0] in registered {
        assert [] + rest == rest;
      } else {
        assert Keys([pairs[0]] + rest) == {pairs[0]} + Keys(rest);
      }
    }
  }

  function Unregistered(registered: set<Key>, pairs: seq<Key>): nat -> bool {
    (i: nat) => i < |pairs| && pairs[i] !in registered
  }

  /** They are the unregistered pairs themselves, in their order. */
  lemma {:induction false} MissingPicks(registered: set<Key>, pairs: seq<Key>) returns (at: seq<nat>)
    ensures Picks(at, |pairs|, Unregistered(registered, pairs)) && |Missing(registered, pairs)| == |at|
    ensures forall i :: 0 <= i < |at| ==> Missing(registered, pairs)[i] == pairs[at[i]]
  {
    if pairs == [] {
      at := [];
    } else {
      var n := |pairs| - 1;
      at := MissingPicks(registered, pairs[..n]);
      assert pairs == pairs[..n] + [pairs[n]];
      MissingSnoc(registered, pairs[..n], pairs[n]);
      PicksSame(at, n, Unregistered(registered, pairs[..n]), Unregistered(registered, pairs));
      PicksNext(at, n, Unregistered(registered, pairs));
      at := at + if pairs[n] !in registered then [n] else [];
    }
  }

  /** A frame of |m| items covering the keys of m names none twice. */
  lemma {:induction false} CoveringFrameHasNoRepeats(subs: seq<Key>, ks: set<Key>)
    requires Keys(subs) == ks && |subs| == |ks|
    ensures forall i, j :: 0 <= i < j < |subs| ==> subs[i] != subs[j]
    decreases |subs|
  {
    if subs == [] {
    } else {
      var k, rest := subs[0], subs[1..];
      assert Keys(subs) == {k} + Keys(rest);
      KeysAtMost(rest);
      assert k in rest ==> {k} + Keys(rest) == Keys(rest);
      assert Keys(rest) == ks - {k};
      CoveringFrameHasNoRepeats(rest, ks - {k});
      forall i, j | 0 <= i < j < |subs| ensures subs[i] != subs[j] {
        assert subs[j] == rest[j - 1];
      }
    }
  }

  lemma {:induction false} KeysAtMost(subs: seq<Key>)
    ensures |Keys(subs)| <= |subs|
    decreases |subs|
  {
    if subs == [] {
    } else {
      KeysAtMost(subs[1..]);
      assert Keys(subs) == {subs[0]} + Keys(subs[1..]);
    }
  }
}
