/** The reconnect path of the service, in the source's sequential form. */
module Service {
  import opened Wire
  import opened Subscriptions
  import B = Backoff

  /** How far one dial gets, and how the connection stands when Rebind is about to send. */
  datatype Dial = NoToken | DialFails | AuthFails | FeedFails | Opened(link: Link)

  datatype Status = Status(connected: bool, reconnectAttempt: nat, lastError: string)

  /** A fresh connection whose first and only frame names exactly the registered keys (no frame if there are none). */
  ghost predicate Replayed(wire: seq<Frame>, state: map<Key, SubState>) {
    if state == map[] then wire == []
    else exists subs :: wire == [Frame(subs, [])] && Keys(subs) == state.Keys && |subs| == |state|
  }

  /** Wait i of an outage lies in the upper half of attempt i's delay. */
  predicate Jittered(waits: seq<int>) {
    forall i :: 0 <= i < |waits| ==> B.Ceiling(i + 1) <= 2 * waits[i] && waits[i] < B.Ceiling(i + 1)
  }

  /** A dial that cannot end in a working connection for a manager with these keys. */
  predicate Doomed(dial: Dial, state: map<Key, SubState>) {
    !dial.Opened? || (dial.link != Up && state != map[])
  }

  class Service {
    var subs: SubscriptionManager?
    var dxClient: FeedController?
    var cancellable: FeedController?   // the client the stored cancel function belongs to
    var status: Status

    constructor ()
      ensures subs == null && dxClient == null && cancellable == null
    {
      subs, dxClient, cancellable, status := null, null, null, Status(false, 0, "");
    }

    /** Creates the manager on first use, rebinds it afterwards; the manager's map is never touched. */
    method DialAndSubscribe(dial: Dial) returns (r: Outcome<string>)
      modifies this, subs, cancellable
      ensures old(subs) != null ==> subs == old(subs) && subs.state == old(subs.state)
      ensures old(subs) == null && r.Pass? ==> subs != null && fresh(subs) && subs.state == map[]
      ensures old(subs) == null && r.Fail? ==> subs == null
      ensures r.Pass? <==> if old(subs) == null then dial.Opened? else !Doomed(dial, old(subs.state))
      ensures r.Pass? ==> dxClient != null && fresh(dxClient) && subs.fc == dxClient == cancellable
      ensures r.Pass? ==> dxClient.link == dial.link && dxClient.feedChannelID != 0
      ensures r.Pass? ==> Replayed(dxClient.wire, subs.state) && subs.InStep()
      ensures r.Pass? ==> status == Status(true, 0, "")
      ensures r.Fail? ==> r.error != ""
      ensures r.Fail? ==> dxClient == old(dxClient) && status == old(status) && cancellable == old(cancellable)
      ensures old(cancellable) != null ==> old(cancellable).link == Down
      ensures old(subs) != null && dial.Opened? ==>
        fresh(subs.fc) && subs.fc.link == (if r.Pass? then dial.link else Down)
      ensures old(subs) != null && !dial.Opened? ==> subs.fc == old(subs.fc)
    {
      if cancellable != null {
        cancellable.link := Down;
      }
      var client := new FeedController();
      match dial {
        case NoToken => return Fail("get streamer token");
        case DialFails => return Fail("dial");
        case AuthFails => return Fail("authenticate");
        case FeedFails => return Fail("open feed");
        case Opened(link) =>
          client.feedChannelID := 1;
          client.link := link;
      }
      if subs != null {
        var rebound := subs.Rebind(client);
        if rebound.Fail? {
          client.link := Down;
          return Fail("rebind subscriptions: " + rebound.error);
        }
      } else {
        subs := new SubscriptionManager(client);
      }
      dxClient := client;
      cancellable := client;
      status := Status(true, 0, "");
      r := Pass;
    }

    /**
     Attempts until one succeeds, or until the context is cancelled during the wait after the last of `dials`.
     Whatever failed before, the registered keys and their counters are those the caller had, and success leaves
     them on the wire.
     */
    method ReconnectWithBackoff(dials: seq<Dial>, jitters: seq<real>) returns (r: Outcome<string>, waits: seq<int>)
      requires subs != null && |jitters| == |dials| + 1 && forall i :: 0 <= i < |jitters| ==> 0.0 <= jitters[i] < 1.0
      modifies this, subs, cancellable
      ensures subs == old(subs) && subs.state == old(subs.state)
      ensures r.Pass? ==> 1 <= |waits| <= |dials| && !Doomed(dials[|waits| - 1], subs.state)
      ensures r.Pass? ==> dxClient != null && subs.fc == dxClient
      ensures r.Pass? ==> Replayed(dxClient.wire, subs.state) && subs.InStep()
      ensures r.Pass? ==> status == Status(true, 0, "")
      ensures r.Fail? ==> |waits| == |dials| + 1 && dxClient == old(dxClient)
      ensures r.Fail? ==> status.connected == old(status.connected) && status.reconnectAttempt == |waits|
      ensures r.Fail? && dials != [] ==> status.lastError != ""
      ensures forall i :: 0 <= i < |waits| - 1 ==> Doomed(dials[i], subs.state)
      ensures Jittered(waits)
    {
      var b := new B.Backoff();
      waits := [];
      var n := 0;
      while true
        invariant b.attempt == n == |waits| && fresh(b)
        invariant subs == old(subs) && subs.state == old(subs.state) && cancellable == old(cancellable)
        invariant dxClient == old(dxClient) && status.connected == old(status.connected)
        invariant n <= |dials| && forall i :: 0 <= i < n ==> Doomed(dials[i], subs.state)
        invariant Jittered(waits) && (n > 0 ==> status.lastError != "")
        decreases |dials| - n
      {
        var delay := b.Next(jitters[n]);
        waits := waits + [delay];
        status := status.(reconnectAttempt := b.attempt);
        if n == |dials| {
          return Fail("context canceled"), waits;
        }
        var dialled := DialAndSubscribe(dials[n]);
        if dialled.Pass? {
          return Pass, waits;
        }
        status := status.(lastError := dialled.error);
        n := n + 1;
      }
    }
  }
}
