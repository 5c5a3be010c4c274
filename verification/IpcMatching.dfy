/** Matching IPC responses to the requests that wait for them: any number of requesting
    threads and the receive loop, one atomic step at a time. */
module IpcMatching {
  import opened Bytes

  datatype Message = Message(id: int, isError: bool, data: string)

  /** Where a requesting thread stands. */
  datatype Phase = Drawn | Registered | Sent | Answered(m: Message) | GaveUp

  /** One request: its id, its phase and its channel, which holds one message. */
  datatype Request = Request(id: int, phase: Phase, channel: seq<Message>)

  /** Requests are numbered in the order they drew their ids; the map is the waiter table. */
  datatype State = State(reqID: int, requests: seq<Request>, waiters: map<int, nat>, deliveries: seq<nat>)

  const CAPACITY := 1

  /** The counter's 32-bit wrap-around. */
  function Wrap32(x: int): (r: int)
    ensures -2_147_483_648 <= r < 2_147_483_648
  {
    (x + TWO_31) % TWO_32 - TWO_31
  }

  lemma SameIdIff(i: int, j: int)
    ensures Wrap32(i) == Wrap32(j) <==> (i - j) % 4_294_967_296 == 0
  {
  }

  lemma NextId(n: int)
    ensures Wrap32(Wrap32(n) + 1) == Wrap32(n + 1)
  {
    var m := n + TWO_31;
    var k := m / TWO_32;
    assert Wrap32(n) + 1 == n + 1 - k * TWO_32;
    assert (n + 1) - (Wrap32(n) + 1) == k * TWO_32;
    SameIdIff(n + 1, Wrap32(n) + 1);
  }

  datatype Step =
    | Draw
    | Register(t: nat)
    | Write(t: nat)
    | Deliver(m: Message)
    | Receive(t: nat)
    | Abort(t: nat)

  predicate InPhase(s: State, t: nat, phase: Phase) {
    t < |s.requests| && s.requests[t].phase == phase
  }

  /** The receive loop's send finds room in the waiter's channel, if there is a waiter. */
  predicate HasRoom(s: State, m: Message) {
    m.id in s.waiters ==>
      s.waiters[m.id] < |s.requests| && |s.requests[s.waiters[m.id]].channel| < CAPACITY
  }

  predicate Enabled(s: State, step: Step) {
    match step
    case Draw => true
    case Register(t) => InPhase(s, t, Drawn)
    case Write(t) => InPhase(s, t, Registered)
    case Deliver(m) => HasRoom(s, m)
    case Receive(t) => InPhase(s, t, Sent) && s.requests[t].channel != []
    case Abort(t) => InPhase(s, t, Registered) || InPhase(s, t, Sent)
  }

  function Next(s: State, step: Step): State
    requires Enabled(s, step)
  {
    match step
    case Draw =>
      var id := Wrap32(s.reqID + 1);
      s.(reqID := id, requests := s.requests + [Request(id, Drawn, [])])
    case Register(t) =>
      s.(waiters := s.waiters[s.requests[t].id := t],
         requests := s.requests[t := s.requests[t].(phase := Registered)])
    case Write(t) => s.(requests := s.requests[t := s.requests[t].(phase := Sent)])
    case Deliver(m) =>
      if m.id !in s.waiters then s
      else
        var t := s.waiters[m.id];
        s.(waiters := s.waiters - {m.id},
           requests := s.requests[t := s.requests[t].(channel := s.requests[t].channel + [m])],
           deliveries := s.deliveries + [t])
    case Receive(t) =>
      var r := s.requests[t];
      s.(requests := s.requests[t := r.(phase := Answered(r.channel[0]), channel := r.channel[1..])])
    case Abort(t) => s.(requests := s.requests[t := s.requests[t].(phase := GaveUp)])
  }

  const START := State(0, [], map[], [])

  /** The state after a run, if every step of it was possible. */
  function Run(steps: seq<Step>): Option<State> {
    if steps == [] then Some(START)
    else
      match Run(steps[..|steps| - 1])
      case None => None
      case Some(s) => if Enabled(s, steps[|steps| - 1]) then Some(Next(s, steps[|steps| - 1])) else None
  }

  // ---- The invariant ----

  function Delivered(deliveries: seq<nat>, t: nat): nat {
    if deliveries == [] then 0
    else Delivered(deliveries[..|deliveries| - 1], t) + if deliveries[|deliveries| - 1] == t then 1 else 0
  }

  lemma DeliveredPlus(deliveries: seq<nat>, u: nat, t: nat)
    ensures Delivered(deliveries + [u], t) == Delivered(deliveries, t) + if u == t then 1 else 0
  {
    assert (deliveries + [u])[..|deliveries|] == deliveries;
  }

  ghost predicate Numbered(s: State) {
    s.reqID == Wrap32(|s.requests|) && forall t :: 0 <= t < |s.requests| ==> s.requests[t].id == Wrap32(t + 1)
  }

  /** The table holds registered requests without a delivery, each under its own id. */
  ghost predicate Table(s: State) {
    forall id :: id in s.waiters ==>
      var t := s.waiters[id];
      t < |s.requests| && s.requests[t].id == id && s.requests[t].phase != Drawn && Delivered(s.deliveries, t) == 0
  }

  /** One request: it has one delivery at most, and what it holds or got is that
      delivery, under its own id. */
  ghost predicate Sound(s: State, t: nat)
    requires t < |s.requests|
  {
    var r := s.requests[t];
    && Delivered(s.deliveries, t) <= 1
    && (r.phase == Drawn ==> Delivered(s.deliveries, t) == 0)
    && (Delivered(s.deliveries, t) == 0 ==> r.channel == [] && !r.phase.Answered?)
    && (Delivered(s.deliveries, t) == 1 && !r.phase.Answered? ==> |r.channel| == 1 && r.channel[0].id == r.id)
    && (r.phase.Answered? ==> r.phase.m.id == r.id && r.channel == [])
  }

  ghost predicate Inv(s: State) {
    && Numbered(s) && Table(s)
    && (forall t: nat :: t < |s.requests| ==> Sound(s, t))
    && (forall t: nat :: t >= |s.requests| ==> Delivered(s.deliveries, t) == 0)
  }

  lemma DrawStep(s: State)
    requires Inv(s)
    ensures Inv(Next(s, Draw))
  {
    hide Wrap32, Delivered;
    var n := Next(s, Draw);
    NextId(|s.requests|);
    forall t: nat | t < |n.requests| ensures Sound(n, t) {
      assert t < |s.requests| ==> Sound(s, t) && n.requests[t] == s.requests[t];
    }
  }

  lemma RequesterStep(s: State, step: Step)
    requires Inv(s) && Enabled(s, step) && !step.Draw? && !step.Deliver?
    ensures Inv(Next(s, step))
  {
    hide Wrap32, Delivered;
    var n := Next(s, step);
    assert forall t :: 0 <= t < |s.requests| ==> n.requests[t].id == s.requests[t].id;
    assert Sound(s, step.t);
    forall t: nat | t < |n.requests| ensures Sound(n, t) {
      assert Sound(s, t);
    }
  }

  lemma DeliverStep(s: State, m: Message)
    requires Inv(s) && HasRoom(s, m)
    ensures Inv(Next(s, Deliver(m)))
  {
    hide Wrap32, Delivered;
    var n := Next(s, Deliver(m));
    if m.id in s.waiters {
      var u := s.waiters[m.id];
      assert Sound(s, u);
      assert forall t :: 0 <= t < |s.requests| ==> n.requests[t].id == s.requests[t].id;
      forall t: nat ensures Delivered(n.deliveries, t) == Delivered(s.deliveries, t) + if t == u then 1 else 0 {
        DeliveredPlus(s.deliveries, u, t);
      }
      forall t: nat | t < |n.requests| ensures Sound(n, t) {
        assert Sound(s, t);
      }
    }
  }

  lemma Room(s: State, m: Message)
    requires Inv(s)
    ensures HasRoom(s, m)
  {
    if m.id in s.waiters { assert Sound(s, s.waiters[m.id]); }
  }

  lemma {:induction false} InvAlways(steps: seq<Step>)
    requires Run(steps).Some?
    ensures Inv(Run(steps).value)
  {
    hide Inv, Next;
    if steps == [] {
      StartInv();
    } else {
      var front, last := steps[..|steps| - 1], steps[|steps| - 1];
      InvAlways(front);
      var s := Run(front).value;
      match last {
        case Draw => DrawStep(s);
        case Deliver(m) => DeliverStep(s, m);
        case _ => RequesterStep(s, last);
      }
    }
  }

  lemma StartInv()
    ensures Inv(START)
  {
  }

  // ---- While ids are distinct ----

  ghost predicate Distinct(s: State) {
    forall t, u :: 0 <= t < u < |s.requests| ==> s.requests[t].id != s.requests[u].id
  }

  /** Ids are distinct exactly as long as the counter has not come round. */
  lemma DistinctIff(s: State)
    requires Numbered(s)
    ensures Distinct(s) <==> |s.requests| <= 4_294_967_296
  {
    hide Wrap32;
    if |s.requests| <= TWO_32 {
      forall t, u | 0 <= t < u < |s.requests| ensures s.requests[t].id != s.requests[u].id {
        SameIdIff(t + 1, u + 1);
        assert -TWO_32 < (t + 1) - (u + 1) < 0;
      }
    } else {
      SameIdIff(1, TWO_32 + 1);
      assert s.requests[0].id == s.requests[TWO_32].id;
    }
  }

  /** Every registered request without a delivery is found in the table. */
  ghost predicate Listed(s: State) {
    forall t: nat :: t < |s.requests| && s.requests[t].phase != Drawn && Delivered(s.deliveries, t) == 0 ==>
      s.requests[t].id in s.waiters && s.waiters[s.requests[t].id] == t
  }

  lemma ListedStep(s: State, step: Step)
    requires Inv(s) && Listed(s) && Enabled(s, step) && Distinct(Next(s, step))
    ensures Listed(Next(s, step))
  {
    hide Wrap32, Delivered, Numbered;
    var n := Next(s, step);
    assert forall t :: 0 <= t < |s.requests| ==> n.requests[t].id == s.requests[t].id;
    if step.Deliver? && step.m.id in s.waiters {
      var u := s.waiters[step.m.id];
      forall t: nat ensures Delivered(n.deliveries, t) == Delivered(s.deliveries, t) + if t == u then 1 else 0 {
        DeliveredPlus(s.deliveries, u, t);
      }
    }
  }

  function Draws(steps: seq<Step>): nat {
    if steps == [] then 0 else Draws(steps[..|steps| - 1]) + if steps[|steps| - 1].Draw? then 1 else 0
  }

  lemma {:induction false} DrawsCount(steps: seq<Step>)
    requires Run(steps).Some?
    ensures |Run(steps).value.requests| == Draws(steps)
  {
    if steps != [] { DrawsCount(steps[..|steps| - 1]); }
  }

  lemma {:induction false} ListedAlways(steps: seq<Step>)
    requires Run(steps).Some? && Draws(steps) <= TWO_32
    ensures Listed(Run(steps).value) && Distinct(Run(steps).value)
  {
    hide Listed, Distinct, Next;
    InvAlways(steps);
    DrawsCount(steps);
    DistinctIff(Run(steps).value);
    if steps == [] {
      StartListed();
    } else {
      var front, last := steps[..|steps| - 1], steps[|steps| - 1];
      ListedAlways(front);
      InvAlways(front);
      ListedStep(Run(front).value, last);
    }
  }

  lemma StartListed()
    ensures Listed(START)
  {
  }

  // ---- What it gives ----

  /** The receive loop never blocks on a channel while it holds the lock, whoever has
      timed out, whatever the peer sends and however often ids have come round. */
  lemma LoopNeverBlocks(steps: seq<Step>, m: Message)
    requires Run(steps).Some?
    ensures Enabled(Run(steps).value, Deliver(m))
  {
    InvAlways(steps);
    Room(Run(steps).value, m);
  }

  /** A request gets one delivery at most, and only under its own id, which is no other
      request's until 2^32 have been made. */
  lemma AnswersAreOwn(steps: seq<Step>, t: nat)
    requires Run(steps).Some? && t < |Run(steps).value.requests|
    ensures var s := Run(steps).value; var r := s.requests[t];
      && Delivered(s.deliveries, t) <= 1
      && (r.phase.Answered? ==> r.phase.m.id == r.id)
      && (Draws(steps) <= TWO_32 ==> forall u: nat :: u < |s.requests| && u != t ==> s.requests[u].id != r.id)
  {
    InvAlways(steps);
    assert Sound(Run(steps).value, t);
    if Draws(steps) <= TWO_32 { ListedAlways(steps); }
  }

  /** The first response to a request that was written finds its waiter, and is there for
      the requester to take unless it stopped waiting. */
  lemma FirstResponseArrives(steps: seq<Step>, t: nat, m: Message)
    requires Run(steps).Some? && Draws(steps) <= TWO_32 && InPhase(Run(steps).value, t, Sent)
    requires m.id == Run(steps).value.requests[t].id && Delivered(Run(steps).value.deliveries, t) == 0
    ensures Enabled(Run(steps).value, Deliver(m))
    ensures var s := Next(Run(steps).value, Deliver(m));
      Enabled(s, Receive(t)) && Next(s, Receive(t)).requests[t].phase == Answered(m)
  {
    LoopNeverBlocks(steps, m);
    InvAlways(steps);
    ListedAlways(steps);
    assert Sound(Run(steps).value, t);
  }

  /** A response that matches nothing, or comes a second time, changes nothing. */
  lemma StrayResponseIgnored(steps: seq<Step>, m: Message)
    requires Run(steps).Some?
    requires forall t: nat :: t < |Run(steps).value.requests| && Run(steps).value.requests[t].id == m.id ==>
      Run(steps).value.requests[t].phase == Drawn || Delivered(Run(steps).value.deliveries, t) == 1
    ensures Run(steps + [Deliver(m)]) == Run(steps)
  {
    hide Inv, Next;
    InvAlways(steps);
    StrayStep(Run(steps).value, m);
    assert (steps + [Deliver(m)])[..|steps|] == steps;
  }

  lemma StrayStep(s: State, m: Message)
    requires Inv(s)
    requires forall t: nat :: t < |s.requests| && s.requests[t].id == m.id ==>
      s.requests[t].phase == Drawn || Delivered(s.deliveries, t) == 1
    ensures Enabled(s, Deliver(m)) && Next(s, Deliver(m)) == s
  {
    Room(s, m);
  }

  // ---- The processor ----

  class Channel {
    var items: seq<Message>

    constructor ()
      ensures items == []
    {
      items := [];
    }
  }

  /** The waiter table and the counter; the ghost state names the requests behind them. */
  class Processor {
    var reqID: int
    var waiters: map<int, Channel>
    ghost var state: State
    ghost var channels: seq<Channel>

    ghost predicate Valid()
      reads this, channels
    {
      && Inv(state) && reqID == state.reqID && |channels| == |state.requests|
      && (forall i, j :: 0 <= i < j < |channels| ==> channels[i] != channels[j])
      && (forall i :: 0 <= i < |channels| ==> channels[i].items == state.requests[i].channel)
      && waiters.Keys == state.waiters.Keys
      && (forall id :: id in waiters ==> state.waiters[id] < |channels| && waiters[id] == channels[state.waiters[id]])
    }

    constructor ()
      ensures Valid() && state == START
    {
      reqID, waiters, state, channels := 0, map[], START, [];
      StartInv();
    }

    /** Makes the channel and draws the next id. */
    method DrawId() returns (channel: Channel, id: int)
      requires Valid()
      modifies this
      ensures Valid() && fresh(channel) && state == Next(old(state), Draw)
      ensures id == state.requests[|old(state).requests|].id && channels == old(channels) + [channel]
    {
      hide Inv;
      channel := new Channel();
      id := Wrap32(reqID + 1);
      reqID := id;
      DrawStep(state);
      state := Next(state, Draw);
      channels := channels + [channel];
    }

    method AddWaiter(ghost t: nat, channel: Channel, id: int)
      requires Valid() && InPhase(state, t, Drawn) && channel == channels[t] && id == state.requests[t].id
      modifies this
      ensures Valid() && state == Next(old(state), Register(t)) && channels == old(channels)
    {
      hide Inv;
      waiters := waiters[id := channel];
      RequesterStep(state, Register(t));
      state := Next(state, Register(t));
    }

    /** The response branch of the loop: what it finds it removes and hands over. */
    method HandleResponse(m: Message) returns (found: bool)
      requires Valid()
      modifies this, channels
      ensures Enabled(old(state), Deliver(m)) && state == Next(old(state), Deliver(m))
      ensures Valid() && channels == old(channels) && (found <==> m.id in old(state).waiters)
    {
      hide Inv;
      Room(state, m);
      DeliverStep(state, m);
      found := m.id in waiters;
      if found {
        var waiter := waiters[m.id];
        waiters := waiters - {m.id};
        assert |waiter.items| < CAPACITY;
        waiter.items := waiter.items + [m];
      }
      state := Next(state, Deliver(m));
    }

    /** The requester's side of the select, when its channel holds the answer. */
    method TakeAnswer(ghost t: nat, channel: Channel) returns (m: Message)
      requires Valid() && Enabled(state, Receive(t)) && channel == channels[t]
      modifies this`state, channel
      ensures Valid() && state == Next(old(state), Receive(t)) && channels == old(channels)
      ensures m.id == state.requests[t].id && state.requests[t].phase == Answered(m)
    {
      assert Sound(state, t);
      hide Inv;
      m := channel.items[0];
      channel.items := channel.items[1..];
      RequesterStep(state, Receive(t));
      state := Next(state, Receive(t));
    }
  }
}
