/**
 WebSocket fan-out: a broadcast only enqueues, one sender per connection drains that connection's queue, and a client
 that falls behind loses its oldest frames.
*/
module WsQueues {
  import opened Sequences
  import opened Wrappers

  const MAX := 64

  /** A connection; every connection is attached at most once. */
  type Client = int

  type Frame = string

  function Newest(s: seq<Frame>, n: nat): (r: seq<Frame>)
    ensures |r| == if |s| <= n then |s| else n
    ensures r == s[|s| - |r|..]
  {
    if |s| <= n then s else s[|s| - n..]
  }

  /** `queues` is the registry with each queue's contents, `sending` the frame each sender is waiting to get out. */
  datatype State = State(queues: map<Client, seq<Frame>>, clients: seq<Client>, sending: map<Client, Frame>)

  const EMPTY := State(map[], [], map[])

  // ---------------------------------------------------------------------
  // The registry
  // ---------------------------------------------------------------------

  /** A list without the first occurrence of `c`, as `list.remove` leaves it. */
  function Removed(s: seq<Client>, c: Client): seq<Client> {
    if s == [] then [] else if s[0] == c then s[1..] else [s[0]] + Removed(s[1..], c)
  }

  function FannedOut(queues: map<Client, seq<Frame>>, f: Frame): map<Client, seq<Frame>> {
    map c | c in queues :: Newest(queues[c] + [f], MAX)
  }

  function Detached(s: State, c: Client): State {
    State(s.queues - {c}, if c in s.clients then Removed(s.clients, c) else s.clients, s.sending - {c})
  }

  class Hub {
    var queues: map<Client, seq<Frame>>
    var clients: seq<Client>
    var sending: map<Client, Frame>

    ghost function View(): State
      reads this
    {
      State(queues, clients, sending)
    }

    ghost predicate Valid()
      reads this
    {
      WellFormed(View())
    }

    constructor ()
      ensures Valid() && View() == EMPTY
    {
      queues, clients, sending := map[], [], map[];
    }

    /** `ws_attach` */
    method Attach(c: Client)
      requires Valid() && c !in queues
      modifies this
      ensures Valid()
      ensures View() == old(State(queues[c := []], clients + [c], sending))
    {
      queues := queues[c := []];
      clients := clients + [c];
    }

    /** `ws_detach`, with the end of the connection's sender. */
    method Detach(c: Client)
      requires Valid()
      modifies this
      ensures Valid()
      ensures View() == Detached(old(View()), c)
    {
      DetachKeepsForm(View(), c);
      queues := queues - {c};
      if c in clients { clients := Removed(clients, c); }
      sending := sending - {c};
    }

    /** `_ws_enqueue` */
    static method Enqueue(q: seq<Frame>, f: Frame) returns (r: seq<Frame>)
      requires |q| <= MAX
      ensures r == Newest(q + [f], MAX)
    {
      r := q;
      if |r| == MAX { r := r[1..]; }
      r := r + [f];
    }

    /** `ws_enqueue_all`; the registry lists its queues in the order of `clients`. */
    method EnqueueAll(f: Frame)
      requires Valid()
      modifies `queues
      ensures Valid()
      ensures queues == FannedOut(old(queues), f)
    {
      ghost var before := queues;
      ListedAreRegistered(View());
      var i := 0;
      while i < |clients|
        invariant i <= |clients| && queues.Keys == before.Keys
        invariant forall k :: 0 <= k < |clients| ==> clients[k] in queues
        invariant forall k :: 0 <= k < i ==> queues[clients[k]] == Newest(before[clients[k]] + [f], MAX)
        invariant forall k :: i <= k < |clients| ==> queues[clients[k]] == before[clients[k]]
      {
        var q := Enqueue(queues[clients[i]], f);
        queues := queues[clients[i] := q];
        i := i + 1;
      }
      FanOutIsComplete(State(before, clients, sending), queues, f);
      FanOutKeepsForm(State(before, clients, sending), f);
    }

    /** The sender's `get`. */
    method Take(c: Client)
      requires Valid() && c in queues && queues[c] != [] && c !in sending
      modifies `queues, `sending
      ensures Valid()
      ensures View() == Taken(old(View()), c)
    {
      sending := sending[c := queues[c][0]];
      queues := queues[c := queues[c][1..]];
    }

    /** The send went out. */
    method Finish(c: Client) returns (f: Frame)
      requires Valid() && c in sending
      modifies `sending
      ensures Valid() && f == old(sending)[c]
      ensures View() == old(View()).(sending := old(sending) - {c})
    {
      f := sending[c];
      sending := sending - {c};
    }
  }

  function Taken(s: State, c: Client): State
    requires c in s.queues && s.queues[c] != []
  {
    s.(sending := s.sending[c := s.queues[c][0]], queues := s.queues[c := s.queues[c][1..]])
  }

  /** The list and the registry agree, no client is listed twice, no queue is over its limit. */
  ghost predicate WellFormed(s: State) {
    && (forall c :: c in s.clients <==> c in s.queues)
    && (forall i, j :: 0 <= i < j < |s.clients| ==> s.clients[i] != s.clients[j])
    && (forall c :: c in s.queues ==> |s.queues[c]| <= MAX)
    && s.sending.Keys <= s.queues.Keys
  }

  lemma ListedAreRegistered(s: State)
    requires WellFormed(s)
    ensures forall k :: 0 <= k < |s.clients| ==> s.clients[k] in s.queues && |s.queues[s.clients[k]]| <= MAX
  {
    forall k | 0 <= k < |s.clients| ensures s.clients[k] in s.queues && |s.queues[s.clients[k]]| <= MAX {
      var c := s.clients[k];
      assert c in s.clients;
    }
  }

  lemma FanOutKeepsForm(s: State, f: Frame)
    requires WellFormed(s)
    ensures WellFormed(s.(queues := FannedOut(s.queues, f)))
  {}

  lemma FanOutIsComplete(s: State, after: map<Client, seq<Frame>>, f: Frame)
    requires WellFormed(s) && after.Keys == s.queues.Keys
    requires forall k :: 0 <= k < |s.clients| ==>
      s.clients[k] in s.queues && after[s.clients[k]] == Newest(s.queues[s.clients[k]] + [f], MAX)
    ensures after == FannedOut(s.queues, f)
  {
    forall c | c in s.queues ensures after[c] == Newest(s.queues[c] + [f], MAX) {
      assert c in s.clients;
      var k :| 0 <= k < |s.clients| && s.clients[k] == c;
    }
  }

  ghost predicate Distinct(s: seq<Client>) { forall i, j :: 0 <= i < j < |s| ==> s[i] != s[j] }

  lemma {:induction false} RemovedIsGone(s: seq<Client>, c: Client)
    requires Distinct(s)
    ensures Distinct(Removed(s, c)) && forall d :: d in Removed(s, c) <==> d in s && d != c
    decreases |s|
  {
    if s != [] {
      var rest := s[1..];
      assert s == [s[0]] + rest;
      RemovedIsGone(rest, c);
      forall i | 0 <= i < |rest| ensures rest[i] != s[0] { assert rest[i] == s[i + 1]; }
      if s[0] != c { DistinctCons(s[0], Removed(rest, c)); }
    }
  }

  lemma DistinctCons(c: Client, s: seq<Client>)
    requires Distinct(s) && c !in s
    ensures Distinct([c] + s)
  {}

  lemma DetachKeepsForm(s: State, c: Client)
    requires WellFormed(s)
    ensures WellFormed(Detached(s, c))
  {
    RemovedIsGone(s.clients, c);
  }

  /** Detaching twice is detaching once. */
  lemma DetachIsIdempotent(s: State, c: Client)
    requires WellFormed(s)
    ensures Detached(Detached(s, c), c) == Detached(s, c)
  {
    DetachKeepsForm(s, c);
  }

  // ---------------------------------------------------------------------
  // Runs
  // ---------------------------------------------------------------------

  datatype Event =
    | Broadcast(f: Frame)
    | Attach(c: Client)
    | Detach(c: Client)
    | Take(c: Client)
    | Finish(c: Client)

  predicate CanHappen(s: State, e: Event) {
    match e
    case Attach(c) => c !in s.queues
    case Take(c) => c in s.queues && s.queues[c] != [] && c !in s.sending
    case Finish(c) => c in s.sending
    case _ => true
  }

  function Step(s: State, e: Event): State {
    match e
    case Broadcast(f) => s.(queues := FannedOut(s.queues, f))
    case Attach(c) => s.(queues := s.queues[c := []], clients := s.clients + [c])
    case Detach(c) => Detached(s, c)
    case Take(c) => if CanHappen(s, e) then Taken(s, c) else s
    case Finish(c) => s.(sending := s.sending - {c})
  }

  function Run(es: seq<Event>): State
    decreases |es|
  {
    if es == [] then EMPTY else Step(Run(es[..|es| - 1]), es[|es| - 1])
  }

  predicate Legal(es: seq<Event>)
    decreases |es|
  {
    es != [] ==> Legal(es[..|es| - 1]) && CanHappen(Run(es[..|es| - 1]), es[|es| - 1])
  }

  lemma {:induction false} RunsAreWellFormed(es: seq<Event>)
    requires Legal(es)
    ensures WellFormed(Run(es))
    decreases |es|
  {
    if es != [] {
      var s, e := Run(es[..|es| - 1]), es[|es| - 1];
      RunsAreWellFormed(es[..|es| - 1]);
      if e.Detach? { DetachKeepsForm(s, e.c); }
    }
  }

  // ---------------------------------------------------------------------
  // One client's view
  // ---------------------------------------------------------------------

  /** The part of the state that concerns one client: its queue, absent when detached, and its frame in transit. */
  datatype Link = Link(queue: Option<seq<Frame>>, transit: Option<Frame>)

  function LinkOf(s: State, c: Client): Link {
    Link(if c in s.queues then Some(s.queues[c]) else None, if c in s.sending then Some(s.sending[c]) else None)
  }

  /**
   A client's link and its history since it attached: the broadcasts it should have got, the frames that got out to it,
   and how many were dropped on it (broadcasts that met a full queue).
  */
  datatype Track = Track(link: Link, heard: seq<Frame>, delivered: seq<Frame>, dropped: nat)

  const NOBODY := Track(Link(None, None), [], [], 0)

  predicate Concerns(c: Client, e: Event) { e.Broadcast? || e.c == c }

  function TrackBroadcast(t: Track, f: Frame): Track {
    if t.link.queue.None? then t else
    var q := t.link.queue.value;
    t.(link := t.link.(queue := Some(Newest(q + [f], MAX))),
       heard := t.heard + [f],
       dropped := if |q| == MAX then t.dropped + 1 else t.dropped)
  }

  function TrackTake(t: Track): Track {
    if t.link.queue.None? || t.link.queue.value == [] then t
    else t.(link := Link(Some(t.link.queue.value[1..]), Some(t.link.queue.value[0])))
  }

  function TrackFinish(t: Track): Track {
    if t.link.transit.None? then t
    else t.(link := t.link.(transit := None), delivered := t.delivered + [t.link.transit.value])
  }

  function TrackStep(t: Track, e: Event): Track {
    match e
    case Broadcast(f) => TrackBroadcast(t, f)
    case Attach(_) => Track(Link(Some([]), None), [], [], 0)
    case Detach(_) => t.(link := Link(None, None))
    case Take(_) => TrackTake(t)
    case Finish(_) => TrackFinish(t)
  }

  /** The history of `c` over a run. */
  function TrackOf(c: Client, es: seq<Event>): Track
    decreases |es|
  {
    if es == [] then NOBODY
    else
      var before := TrackOf(c, es[..|es| - 1]);
      if Concerns(c, es[|es| - 1]) then TrackStep(before, es[|es| - 1]) else before
  }

  lemma StepIsLocal(s: State, c: Client, t: Track, e: Event)
    requires WellFormed(s) && CanHappen(s, e) && LinkOf(s, c) == t.link
    ensures LinkOf(Step(s, e), c) == if Concerns(c, e) then TrackStep(t, e).link else t.link
  {}

  /** The histories describe the real hub: in every run each client's queue and transit are those of its history. */
  lemma {:induction false} TracksFollowTheHub(c: Client, es: seq<Event>)
    requires Legal(es)
    ensures LinkOf(Run(es), c) == TrackOf(c, es).link
    decreases |es|
  {
    if es != [] {
      var init := es[..|es| - 1];
      TracksFollowTheHub(c, init);
      RunsAreWellFormed(init);
      StepIsLocal(Run(init), c, TrackOf(c, init), es[|es| - 1]);
    }
  }

  // ---------------------------------------------------------------------
  // Order and conservation
  // ---------------------------------------------------------------------

  /** What has gone out to the client or is on the wire. */
  function Past(t: Track): seq<Frame> {
    if t.link.transit.Some? then t.delivered + [t.link.transit.value] else t.delivered
  }

  /** The broadcasts that have left the queue, delivered or dropped. */
  function Departed(t: Track): seq<Frame> {
    if t.link.queue.Some? && |t.link.queue.value| <= |t.heard|
    then t.heard[..|t.heard| - |t.link.queue.value|] else t.heard
  }

  predicate Faithful(t: Track) {
    t.link.queue.Some? ==>
      && |t.link.queue.value| <= MAX
      && t.heard == Departed(t) + t.link.queue.value
      && Subsequence(Past(t), Departed(t))
      && |Past(t)| + |t.link.queue.value| + t.dropped == |t.heard|
  }

  lemma BroadcastIsFaithful(t: Track, f: Frame)
    requires Faithful(t) && t.link.queue.Some?
    ensures Faithful(TrackBroadcast(t, f))
  {
    var q, t' := t.link.queue.value, TrackBroadcast(t, f);
    var gone, all := Departed(t), q + [f];
    assert t'.heard == gone + all;
    if |q| == MAX {
      assert all == [q[0]] + all[1..];
      assert t'.heard == (gone + [q[0]]) + all[1..];
      assert Departed(t') == gone + [q[0]];
      SubsequenceSkips(Past(t), gone, q[0]);
    } else {
      assert Departed(t') == gone;
    }
  }

  lemma TakeIsFaithful(t: Track)
    requires Faithful(t) && t.link.queue.Some? && t.link.queue.value != [] && t.link.transit.None?
    ensures Faithful(TrackTake(t))
  {
    var q, t' := t.link.queue.value, TrackTake(t);
    var gone := Departed(t);
    assert q == [q[0]] + q[1..];
    assert t'.heard == (gone + [q[0]]) + q[1..];
    assert Departed(t') == gone + [q[0]];
    SubsequenceTakes(Past(t), gone, q[0]);
  }

  lemma {:induction false} TracksAreFaithful(c: Client, es: seq<Event>)
    requires Legal(es)
    ensures Faithful(TrackOf(c, es))
    decreases |es|
  {
    if es != [] {
      var init, e := es[..|es| - 1], es[|es| - 1];
      TracksAreFaithful(c, init);
      TracksFollowTheHub(c, init);
      var t := TrackOf(c, init);
      if Concerns(c, e) {
        if e.Broadcast? && t.link.queue.Some? { BroadcastIsFaithful(t, e.f); }
        if e.Take? { TakeIsFaithful(t); }
      }
    }
  }

  predicate Attached(c: Client, es: seq<Event>) { c in Run(es).queues }

  /**
   A client's queue is exactly the most recent of the broadcasts since it attached, at most 64; what left the queue
   went out in order with some frames left out; and every broadcast is delivered, in transit, queued or dropped.
  */
  lemma {:induction false} FanOut(c: Client, es: seq<Event>)
    requires Legal(es) && Attached(c, es)
    ensures var t, q := TrackOf(c, es), Run(es).queues[c];
      && |q| <= MAX && |q| <= |t.heard| && q == Newest(t.heard, |q|)
      && Subsequence(Past(t), t.heard[..|t.heard| - |q|])
      && |Past(t)| + |q| + t.dropped == |t.heard|
  {
    TracksFollowTheHub(c, es);
    TracksAreFaithful(c, es);
  }

  /** A client that never met a full queue has every frame, in order, up to what is still on its way. */
  lemma NothingIsLostUnlessDropped(c: Client, es: seq<Event>)
    requires Legal(es) && Attached(c, es)
    ensures TrackOf(c, es).dropped == 0 <==> Past(TrackOf(c, es)) + Run(es).queues[c] == TrackOf(c, es).heard
  {
    TracksFollowTheHub(c, es);
    TracksAreFaithful(c, es);
    var t := TrackOf(c, es);
    SubsequenceIsShorter(Past(t), Departed(t));
    assert |Past(t) + Run(es).queues[c]| == |Past(t)| + |Run(es).queues[c]|;
  }

  // ---------------------------------------------------------------------
  // Isolation
  // ---------------------------------------------------------------------

  /** A run without the other clients' events. */
  function Own(c: Client, es: seq<Event>): seq<Event>
    decreases |es|
  {
    if es == [] then []
    else if Concerns(c, es[|es| - 1]) then Own(c, es[..|es| - 1]) + [es[|es| - 1]]
    else Own(c, es[..|es| - 1])
  }

  lemma StepsAgree(s: State, t: State, c: Client, e: Event)
    requires WellFormed(s) && WellFormed(t) && CanHappen(s, e) && LinkOf(s, c) == LinkOf(t, c)
    ensures Concerns(c, e) ==> CanHappen(t, e) && LinkOf(Step(t, e), c) == LinkOf(Step(s, e), c)
    ensures !Concerns(c, e) ==> LinkOf(Step(s, e), c) == LinkOf(s, c)
  {
    var seen := Track(LinkOf(s, c), [], [], 0);
    StepIsLocal(s, c, seen, e);
    if Concerns(c, e) { StepIsLocal(t, c, seen, e); }
  }

  /** The frames the hub's senders got out to `c`, read off the hub's own state. */
  function WentOut(c: Client, es: seq<Event>): seq<Frame>
    decreases |es|
  {
    if es == [] then []
    else
      var frame := LinkOf(Run(es[..|es| - 1]), c).transit;
      WentOut(c, es[..|es| - 1]) + (if es[|es| - 1] == Finish(c) && frame.Some? then [frame.value] else [])
  }

  /**
   No client's stall, failure or arrival changes what another one gets.  Take every other client's events out of a run
   of the hub: what is left is a run of the hub, in which the same frames go out to this client and its queue and frame
   in transit end the same.
  */
  lemma {:induction false} OthersMakeNoDifference(c: Client, es: seq<Event>)
    requires Legal(es)
    ensures Legal(Own(c, es)) && LinkOf(Run(Own(c, es)), c) == LinkOf(Run(es), c)
    ensures WentOut(c, Own(c, es)) == WentOut(c, es)
    decreases |es|
  {
    if es != [] {
      var init, e := es[..|es| - 1], es[|es| - 1];
      OthersMakeNoDifference(c, init);
      RunsAreWellFormed(init);
      RunsAreWellFormed(Own(c, init));
      StepsAgree(Run(init), Run(Own(c, init)), c, e);
      if Concerns(c, e) { assert (Own(c, init) + [e])[..|Own(c, init)|] == Own(c, init); }
    }
  }
}
