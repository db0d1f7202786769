/** Every interleaving of the relay's client and agent loops (cmd/relay/re2.go): the loops'
    critical sections are the atomic steps, and loops may end at any time. */
module RelayRuns {
  import opened Words
  import opened Channel
  import opened RelayHub

  /** Where a client loop is: waiting for a frame, between TryAcquire and the bind, between
      a busy answer and its Release, or on its way out. took says that the slot of the
      limiter was taken for this bind. */
  datatype Phase = Reading | Binding(b: Bind, took: bool) | Refusing(took: bool) | Leaving | Cleared | Gone

  /** The local variables of serveRE2Client; clientID is that of the latest bind. */
  datatype Loop = Loop(phase: Phase, acquired: bool, deviceID: string, route: string, clientID: string)

  datatype Relay = Relay(devices: Devices, loops: map<Conn, Loop>, count: nat, max: nat)

  datatype Action =
    | AgentJoins(id: string, secret: string, channels: bool, agent: Conn)
    | AgentLeaves(id: string, agent: Conn)
    | Connect(c: Conn)
    | BeginBind(c: Conn, b: Bind)
    | CommitBind(c: Conn, now: nat)
    | EndRefusal(c: Conn)
    | ReadFails(c: Conn)
    | ClearOnExit(c: Conn)
    | ReleaseOnExit(c: Conn)

  predicate InPhase(r: Relay, c: Conn, leaving: Phase) {
    c in r.loops && r.loops[c].phase == leaving
  }

  /** The checks of the BIND case before TryAcquire. The agent is looked up by route, so for an
      id with a separator it is that of the part before it. */
  predicate MayBind(r: Relay, c: Conn, b: Bind)
    requires c in r.loops
  {
    && Lookup(r.devices, SplitRoute(b.deviceID).0).agent.Some?
    && (r.loops[c].route != "" ==> r.loops[c].route == ChannelRoute(b.deviceID, b.channel))
    && (b.channel == "" || (b.channel == CHANNEL_DATA && Lookup(r.devices, b.deviceID).agentChannels))
  }

  predicate Enabled(r: Relay, a: Action) {
    match a
    case AgentJoins(id, secret, channels, agent) => id != "" && SetAgent(r.devices, id, secret, channels, agent).Some?
    case AgentLeaves(_, _) => true
    case Connect(c) => c !in r.loops
    case BeginBind(c, b) => InPhase(r, c, Reading) && MayBind(r, c, b)
    case CommitBind(c, _) => c in r.loops && r.loops[c].phase.Binding?
    case EndRefusal(c) => c in r.loops && r.loops[c].phase.Refusing?
    case ReadFails(c) => InPhase(r, c, Reading)
    case ClearOnExit(c) => InPhase(r, c, Leaving)
    case ReleaseOnExit(c) => InPhase(r, c, Cleared)
  }

  function Released(count: nat): nat {
    if count > 0 then count - 1 else 0
  }

  function Set(r: Relay, c: Conn, l: Loop): Relay {
    r.(loops := r.loops[c := l])
  }

  function Next(r: Relay, a: Action): Relay
    requires Enabled(r, a)
  {
    match a
    case AgentJoins(id, secret, channels, agent) =>
      r.(devices := SetAgent(r.devices, id, secret, channels, agent).value)
    case AgentLeaves(id, agent) => r.(devices := ClearAgent(r.devices, id, agent))
    case Connect(c) => Set(r, c, Loop(Reading, false, "", "", ""))
    case BeginBind(c, b) =>
      var l := r.loops[c];
      if l.acquired then Set(r, c, l.(phase := Binding(b, false)))
      else if r.count < r.max then Set(r, c, l.(phase := Binding(b, true))).(count := r.count + 1)
      else r
    case CommitBind(c, now) =>
      var l := r.loops[c];
      var b := l.phase.b;
      var (ds, res) := BindClient(r.devices, c, b, now);
      if res.busy then Set(r, c, l.(phase := Refusing(!l.acquired))).(devices := ds)
      else
        Set(r, c, Loop(Reading, true, b.deviceID, ChannelRoute(b.deviceID, b.channel), b.clientID)).(devices := ds)
    case EndRefusal(c) =>
      var l := r.loops[c];
      Set(r, c, l.(phase := Reading)).(count := if l.phase.took then Released(r.count) else r.count)
    case ReadFails(c) => Set(r, c, r.loops[c].(phase := Leaving))
    case ClearOnExit(c) =>
      var l := r.loops[c];
      Set(r, c, l.(phase := Cleared))
        .(devices := if l.deviceID != "" then ClearClient(r.devices, l.deviceID, c) else r.devices)
    case ReleaseOnExit(c) =>
      var l := r.loops[c];
      Set(r, c, l.(phase := Gone)).(count := if l.acquired then Released(r.count) else r.count)
  }

  ghost predicate CanRun(r: Relay, actions: seq<Action>)
    decreases |actions|
  {
    actions != [] ==> Enabled(r, actions[0]) && CanRun(Next(r, actions[0]), actions[1..])
  }

  ghost function Run(r: Relay, actions: seq<Action>): Relay
    requires CanRun(r, actions)
    decreases |actions|
  {
    if actions == [] then r else Run(Next(r, actions[0]), actions[1..])
  }

  function Start(max: nat): Relay {
    Relay(map[], map[], 0, max)
  }

  // ---- the invariant ----

  /** The loop has a unit of the limiter to give back. */
  predicate Holds(l: Loop) {
    && !l.phase.Gone?
    && (l.acquired || (l.phase.Binding? && l.phase.took) || (l.phase.Refusing? && l.phase.took))
  }

  function Holders(loops: map<Conn, Loop>): set<Conn> {
    set c | c in loops && Holds(loops[c])
  }

  /** A device of ids whose agent can be found by route. */
  ghost predicate Bindable(ids: iset<string>, id: string) {
    id in ids && SplitRoute(id).0 in ids
  }

  /** No device that can be bound shares the route of its data channel with another device. */
  ghost predicate Separated(ids: iset<string>) {
    && "" !in ids
    && forall id | Bindable(ids, id) :: ChannelRoute(id, CHANNEL_DATA) !in ids
  }

  predicate IsChannel(channel: string) {
    channel == "" || channel == CHANNEL_DATA
  }

  ghost predicate LoopOk(ids: iset<string>, l: Loop) {
    && (l.phase.Binding? ==> l.phase.took == !l.acquired && Bindable(ids, l.phase.b.deviceID) && IsChannel(l.phase.b.channel))
    && (l.phase.Binding? && l.route != "" ==> l.route == ChannelRoute(l.phase.b.deviceID, l.phase.b.channel))
    && (l.phase.Refusing? ==> l.phase.took == !l.acquired)
    && (if l.acquired then Bindable(ids, l.deviceID) && l.route != "" else l.deviceID == "" && l.route == "")
  }

  /** c rightly occupies the given channel of device id: its loop is alive, bound to just
      that channel, and agrees with the device on who is in control. */
  predicate Owns(r: Relay, c: Conn, id: string, channel: string)
    requires id in r.devices
  {
    && c in r.loops
    && var l := r.loops[c];
       && l.acquired && !l.phase.Cleared? && !l.phase.Gone?
       && l.deviceID == id && l.route == ChannelRoute(id, channel)
       && (l.clientID != "" ==> l.clientID == r.devices[id].clientID)
  }

  ghost predicate SlotsOk(ids: iset<string>, r: Relay, id: string)
    requires id in r.devices
  {
    && (r.devices[id].client.Some? ==> Owns(r, r.devices[id].client.value, id, ""))
    && (r.devices[id].dataClient.Some? ==> Owns(r, r.devices[id].dataClient.value, id, CHANNEL_DATA))
    && (r.devices[id].agent.Some? ==> id in ids)
  }

  ghost predicate Inv(ids: iset<string>, r: Relay) {
    && Separated(ids)
    && r.count == |Holders(r.loops)| && r.count <= r.max
    && (forall c | c in r.loops :: LoopOk(ids, r.loops[c]))
    && (forall id | id in r.devices :: SlotsOk(ids, r, id))
  }

  /** Agents register under ids of the set. A session ticket names an id under which an agent
      has registered, so binds do too. */
  ghost predicate Within(ids: iset<string>, a: Action) {
    && (a.AgentJoins? ==> a.id in ids)
    && (a.BeginBind? ==> a.b.deviceID in ids)
  }

  ghost predicate AllWithin(ids: iset<string>, actions: seq<Action>) {
    forall i | 0 <= i < |actions| :: Within(ids, actions[i])
  }

  // ---- every action keeps it ----

  lemma HoldersAfter(loops: map<Conn, Loop>, c: Conn, l: Loop)
    ensures Holders(loops[c := l]) == if Holds(l) then Holders(loops) + {c} else Holders(loops) - {c}
  {
  }

  lemma CountAfter(r: Relay, c: Conn, l: Loop)
    requires r.count == |Holders(r.loops)|
    ensures var was := c in r.loops && Holds(r.loops[c]);
            |Holders(r.loops[c := l])| ==
              if Holds(l) && !was then r.count + 1 else if !Holds(l) && was then r.count - 1 else r.count
    ensures c in r.loops && Holds(r.loops[c]) ==> r.count > 0
  {
    HoldersAfter(r.loops, c, l);
    if c in r.loops && Holds(r.loops[c]) {
      assert c in Holders(r.loops);
    }
  }

  /** Changing one loop, in a way that keeps its claim to its slot, keeps all slots. */
  lemma SameSlots(ids: iset<string>, r: Relay, c: Conn, l: Loop)
    requires forall id | id in r.devices :: SlotsOk(ids, r, id)
    requires c in r.loops ==>
               && (r.loops[c].acquired && !r.loops[c].phase.Cleared? && !r.loops[c].phase.Gone? ==>
                     l.acquired && !l.phase.Cleared? && !l.phase.Gone?)
               && l.deviceID == r.loops[c].deviceID && l.route == r.loops[c].route && l.clientID == r.loops[c].clientID
    ensures forall id | id in r.devices :: SlotsOk(ids, Set(r, c, l), id)
  {
  }

  lemma LoopActionKeepsInv(ids: iset<string>, r: Relay, a: Action)
    requires Inv(ids, r) && Enabled(r, a)
    requires a.Connect? || a.EndRefusal? || a.ReadFails?
    ensures Inv(ids, Next(r, a))
  {
    hide Separated, SplitRoute, ChannelRoute;
    var l := Next(r, a).loops[a.c];
    CountAfter(r, a.c, l);
    SameSlots(ids, r, a.c, l);
  }

  lemma BeginBindKeepsInv(ids: iset<string>, r: Relay, c: Conn, b: Bind)
    requires Inv(ids, r) && Enabled(r, BeginBind(c, b)) && b.deviceID in ids
    ensures Inv(ids, Next(r, BeginBind(c, b)))
  {
    AgentIsKnown(ids, r, SplitRoute(b.deviceID).0);
    assert Bindable(ids, b.deviceID);
    hide Bindable, Separated, SplitRoute, ChannelRoute, SlotsOk, Holders;
    var l := r.loops[c];
    assert LoopOk(ids, l);
    if l.acquired || r.count < r.max {
      var m := l.(phase := Binding(b, !l.acquired));
      CountAfter(r, c, m);
      SameSlots(ids, r, c, m);
    }
  }

  lemma AgentIsKnown(ids: iset<string>, r: Relay, id: string)
    requires Inv(ids, r) && Lookup(r.devices, id).agent.Some?
    ensures id in ids
  {
    assert SlotsOk(ids, r, id);
  }

  lemma ReleaseKeepsInv(ids: iset<string>, r: Relay, c: Conn)
    requires Inv(ids, r) && InPhase(r, c, Cleared)
    ensures Inv(ids, Next(r, ReleaseOnExit(c)))
  {
    CountAfter(r, c, r.loops[c].(phase := Gone));
  }

  /** Devices that can be bound have distinct routes exactly because the ids are separated. */
  lemma RoutesAreDistinct(ids: iset<string>, id1: string, ch1: string, id2: string, ch2: string)
    requires Separated(ids) && Bindable(ids, id1) && Bindable(ids, id2) && IsChannel(ch1) && IsChannel(ch2)
    requires ChannelRoute(id1, ch1) == ChannelRoute(id2, ch2)
    ensures id1 == id2 && ch1 == ch2
  {
    if ch1 == ch2 == CHANNEL_DATA {
      assert id1 == ChannelRoute(id1, ch1)[..|ChannelRoute(id1, ch1)| - 5];
      assert id2 == ChannelRoute(id2, ch2)[..|ChannelRoute(id2, ch2)| - 5];
    }
  }

  lemma ChannelsDiffer(id: string)
    ensures ChannelRoute(id, "") != ChannelRoute(id, CHANNEL_DATA)
  {
    assert |ChannelRoute(id, CHANNEL_DATA)| == |id| + 5;
  }

  /** No connection is in both slots of a device. */
  lemma SlotsDiffer(ids: iset<string>, r: Relay, id: string)
    requires id in r.devices && SlotsOk(ids, r, id) && forall c | c in r.loops :: LoopOk(ids, r.loops[c])
    requires r.devices[id].client.Some?
    ensures r.devices[id].client != r.devices[id].dataClient
  {
    ChannelsDiffer(id);
    hide ChannelRoute, Bindable;
  }

  /** Slots that are kept, or emptied, stay rightly occupied when at most loop c changes and
      c occupies none of those kept. */
  lemma SlotsSurvive(ids: iset<string>, r: Relay, after: Relay, c: Conn, id: string)
    requires id in r.devices && id in after.devices && SlotsOk(ids, r, id)
    requires forall k | k in r.loops && k != c :: k in after.loops && after.loops[k] == r.loops[k]
    requires var d, e := r.devices[id], after.devices[id];
             && (e.client.Some? ==> e.client == d.client && e.client != Some(c))
             && (e.dataClient.Some? ==> e.dataClient == d.dataClient && e.dataClient != Some(c))
             && (e.client.Some? || e.dataClient.Some? ==> e.clientID == d.clientID)
             && (e.agent.Some? ==> id in ids)
    ensures SlotsOk(ids, after, id)
  {
    hide ChannelRoute, Bindable;
  }

  lemma DetachFacts(d: Device, c: Conn)
    requires d.client.Some? ==> d.client != d.dataClient
    ensures var e := Detach(d, c);
            && e.client == (if d.client == Some(c) then None else d.client)
            && e.dataClient == (if d.dataClient == Some(c) then None else d.dataClient)
            && e.agent == d.agent
            && (e.client.Some? || e.dataClient.Some? ==> e.clientID == d.clientID)
  {
  }

  /** An exiting loop's slot, if it still has one, is the only place it occupies, and clearing
      touches no other connection's slot. */
  lemma ClearKeepsInv(ids: iset<string>, r: Relay, c: Conn)
    requires Inv(ids, r) && InPhase(r, c, Leaving)
    ensures Inv(ids, Next(r, ClearOnExit(c)))
  {
    var l := r.loops[c];
    var after := Next(r, ClearOnExit(c));
    CountAfter(r, c, l.(phase := Cleared));
    forall id | id in after.devices ensures SlotsOk(ids, after, id) {
      ExitKeepsSlots(ids, r, c, id);
    }
  }

  lemma ExitKeepsSlots(ids: iset<string>, r: Relay, c: Conn, id: string)
    requires Inv(ids, r) && InPhase(r, c, Leaving) && id in r.devices
    ensures id in Next(r, ClearOnExit(c)).devices && SlotsOk(ids, Next(r, ClearOnExit(c)), id)
  {
    var after := Next(r, ClearOnExit(c));
    assert SlotsOk(ids, r, id);
    if r.devices[id].client.Some? {
      SlotsDiffer(ids, r, id);
    }
    DetachFacts(r.devices[id], c);
    hide ChannelRoute, Bindable, Holders, Detach, LoopOk;
    if id != r.loops[c].deviceID {
      assert after.devices[id] == r.devices[id];
    }
    SlotsSurvive(ids, r, after, c, id);
  }

  lemma AgentActionKeepsInv(ids: iset<string>, r: Relay, a: Action)
    requires Inv(ids, r) && Enabled(r, a) && Within(ids, a)
    requires a.AgentJoins? || a.AgentLeaves?
    ensures Inv(ids, Next(r, a))
  {
    var after := Next(r, a);
    forall id | id in after.devices ensures SlotsOk(ids, after, id) {
      if id in r.devices {
        assert SlotsOk(ids, r, id);
      }
    }
  }

  lemma BusyKeepsInv(ids: iset<string>, r: Relay, c: Conn, now: nat)
    requires Inv(ids, r) && Enabled(r, CommitBind(c, now))
    requires BindClient(r.devices, c, r.loops[c].phase.b, now).1.busy
    ensures Inv(ids, Next(r, CommitBind(c, now)))
  {
    var l := r.loops[c];
    BusyChangesNothing(r.devices, c, l.phase.b, now);
    CountAfter(r, c, l.(phase := Refusing(!l.acquired)));
    SameSlots(ids, r, c, l.(phase := Refusing(!l.acquired)));
  }

  /** A connection that is bound again is bound to the route it already has. */
  lemma SlotOfBinder(ids: iset<string>, r: Relay, c: Conn, id: string, channel: string)
    requires Inv(ids, r) && c in r.loops && r.loops[c].phase.Binding?
    requires id in r.devices && IsChannel(channel) && Slot(r.devices[id], channel) == Some(c)
    ensures id == r.loops[c].phase.b.deviceID && channel == r.loops[c].phase.b.channel
  {
    var b := r.loops[c].phase.b;
    assert SlotsOk(ids, r, id);
    assert Owns(r, c, id, channel);
    RoutesAreDistinct(ids, id, channel, b.deviceID, b.channel);
  }

  lemma AttachFacts(d: Device, c: Conn, b: Bind, now: nat)
    ensures var e := Attach(d, c, b, now);
            var other := Opposite(b.channel);
            && Slot(e, b.channel) == Some(c) && e.agent == d.agent
            && (b.clientID != "" ==> e.clientID == b.clientID)
            && (Slot(e, other).Some? ==> Slot(e, other) == Slot(d, other))
            && (Slot(e, other).Some? && Slot(e, other) != Some(c) && d.clientID != "" ==> e.clientID == d.clientID)
  {
  }

  lemma BoundDeviceOk(ids: iset<string>, r: Relay, c: Conn, now: nat)
    requires Inv(ids, r) && Enabled(r, CommitBind(c, now))
    requires !BindClient(r.devices, c, r.loops[c].phase.b, now).1.busy
    ensures var after := Next(r, CommitBind(c, now)); SlotsOk(ids, after, r.loops[c].phase.b.deviceID)
  {
    var b := r.loops[c].phase.b;
    var d := Lookup(r.devices, b.deviceID);
    assert LoopOk(ids, r.loops[c]);
    assert b.channel == "" || b.channel == CHANNEL_DATA;
    AttachFacts(d, c, b, now);
    if b.deviceID in r.devices {
      assert SlotsOk(ids, r, b.deviceID);
      if Slot(d, Opposite(b.channel)) == Some(c) {
        SlotOfBinder(ids, r, c, b.deviceID, Opposite(b.channel));
      }
    }
    hide ChannelRoute, Holders, Holds, Bindable, Attach, Contested;
  }

  lemma BindKeepsInv(ids: iset<string>, r: Relay, c: Conn, now: nat)
    requires Inv(ids, r) && Enabled(r, CommitBind(c, now))
    requires !BindClient(r.devices, c, r.loops[c].phase.b, now).1.busy
    ensures Inv(ids, Next(r, CommitBind(c, now)))
  {
    var b := r.loops[c].phase.b;
    var after := Next(r, CommitBind(c, now));
    CountAfter(r, c, after.loops[c]);
    BoundDeviceOk(ids, r, c, now);
    forall id | id in after.devices && id != b.deviceID ensures SlotsOk(ids, after, id) {
      assert SlotsOk(ids, r, id);
      if r.devices[id].client == Some(c) {
        SlotOfBinder(ids, r, c, id, "");
      }
      if r.devices[id].dataClient == Some(c) {
        SlotOfBinder(ids, r, c, id, CHANNEL_DATA);
      }
    }
    assert Bindable(ids, b.deviceID) && ChannelRoute(b.deviceID, b.channel) != "";
  }

  lemma ActionKeepsInv(ids: iset<string>, r: Relay, a: Action)
    requires Inv(ids, r) && Enabled(r, a) && Within(ids, a)
    ensures Inv(ids, Next(r, a))
  {
    match a
    case AgentJoins(_, _, _, _) => AgentActionKeepsInv(ids, r, a);
    case AgentLeaves(_, _) => AgentActionKeepsInv(ids, r, a);
    case CommitBind(c, now) =>
      if BindClient(r.devices, c, r.loops[c].phase.b, now).1.busy {
        BusyKeepsInv(ids, r, c, now);
      } else {
        BindKeepsInv(ids, r, c, now);
      }
    case BeginBind(c, b) => BeginBindKeepsInv(ids, r, c, b);
    case ClearOnExit(c) => ClearKeepsInv(ids, r, c);
    case ReleaseOnExit(c) => ReleaseKeepsInv(ids, r, c);
    case _ => LoopActionKeepsInv(ids, r, a);
  }

  lemma {:induction false} RunKeepsInv(ids: iset<string>, r: Relay, actions: seq<Action>)
    requires Inv(ids, r) && CanRun(r, actions)
    requires AllWithin(ids, actions)
    ensures Inv(ids, Run(r, actions)) && Run(r, actions).max == r.max
    decreases |actions|
  {
    hide Inv, Enabled, Within;
    if actions != [] {
      assert Within(ids, actions[0]);
      ActionKeepsInv(ids, r, actions[0]);
      assert forall i | 0 <= i < |actions[1..]| :: actions[1..][i] == actions[i + 1];
      RunKeepsInv(ids, Next(r, actions[0]), actions[1..]);
    }
  }

  lemma StartInv(ids: iset<string>, max: nat)
    requires Separated(ids)
    ensures Inv(ids, Start(max))
  {
  }

  // ---- capacity ----

  /** The attached channels, over all devices. */
  function Attached(ds: Devices): set<(string, string)> {
    (set id | id in ds && ds[id].client.Some? :: (id, ""))
    + (set id | id in ds && ds[id].dataClient.Some? :: (id, CHANNEL_DATA))
  }

  ghost predicate OneToOne(s: set<(string, string)>, t: set<Conn>, owner: map<(string, string), Conn>) {
    && s <= owner.Keys
    && (forall p | p in s :: owner[p] in t)
    && (forall p, q | p in s && q in s && p != q :: owner[p] != owner[q])
  }

  lemma {:induction false} OneToOneSize(s: set<(string, string)>, t: set<Conn>, owner: map<(string, string), Conn>)
    requires OneToOne(s, t, owner)
    ensures |s| <= |t|
    decreases s
  {
    if p :| p in s {
      OneToOneSize(s - {p}, t - {owner[p]}, owner);
      assert |s - {p}| == |s| - 1 && |t - {owner[p]}| == |t| - 1;
    }
  }

  lemma AttachedOwner(ids: iset<string>, r: Relay, id: string, channel: string)
    requires Inv(ids, r) && (id, channel) in Attached(r.devices)
    ensures id in r.devices && IsChannel(channel) && Slot(r.devices[id], channel).Some?
    ensures Owns(r, Slot(r.devices[id], channel).value, id, channel) && Bindable(ids, id)
  {
    assert SlotsOk(ids, r, id);
  }

  lemma AttachedWithinCount(ids: iset<string>, r: Relay)
    requires Inv(ids, r)
    ensures |Attached(r.devices)| <= r.count
  {
    hide ChannelRoute, SlotsOk, LoopOk;
    var s := Attached(r.devices);
    var owner := map p | p in s :: (if p.0 in r.devices && Slot(r.devices[p.0], p.1).Some?
                                    then Slot(r.devices[p.0], p.1).value else 0);
    forall p | p in s ensures owner[p] in Holders(r.loops) {
      AttachedOwner(ids, r, p.0, p.1);
    }
    forall p, q | p in s && q in s && p != q ensures owner[p] != owner[q] {
      AttachedOwner(ids, r, p.0, p.1);
      AttachedOwner(ids, r, q.0, q.1);
      if owner[p] == owner[q] {
        RoutesAreDistinct(ids, p.0, p.1, q.0, q.1);
      }
    }
    OneToOneSize(s, Holders(r.loops), owner);
  }

  predicate Balanced(r: Relay) {
    && r.count == |Holders(r.loops)| && r.count <= r.max
    && (forall c | c in r.loops ::
          && (r.loops[c].phase.Binding? ==> r.loops[c].phase.took == !r.loops[c].acquired)
          && (r.loops[c].phase.Refusing? ==> r.loops[c].phase.took == !r.loops[c].acquired))
  }

  lemma ActionKeepsBalance(r: Relay, a: Action)
    requires Balanced(r) && Enabled(r, a)
    ensures Balanced(Next(r, a)) && Next(r, a).max == r.max
  {
    var after := Next(r, a);
    hide BindClient, ClearClient, SetAgent, ClearAgent, MayBind, ChannelRoute, Holders;
    if !a.AgentJoins? && !a.AgentLeaves? && after != r {
      CountAfter(r, a.c, after.loops[a.c]);
      assert after.loops == r.loops[a.c := after.loops[a.c]];
    }
  }

  lemma {:induction false} RunKeepsBalance(r: Relay, actions: seq<Action>)
    requires Balanced(r) && CanRun(r, actions)
    ensures Balanced(Run(r, actions)) && Run(r, actions).max == r.max
    decreases |actions|
  {
    hide Balanced, Enabled, Next;
    if actions != [] {
      ActionKeepsBalance(r, actions[0]);
      RunKeepsBalance(Next(r, actions[0]), actions[1..]);
    }
  }

  /** Over every interleaving, whatever the ids: the counter equals the number of loops that
      owe a Release, between binds that of the loops with acquired set, and stays within max. */
  lemma CounterIsExact(max: nat, actions: seq<Action>)
    requires CanRun(Start(max), actions)
    ensures var r := Run(Start(max), actions);
            && r.count == |Holders(r.loops)| <= max
            && ((forall c | c in r.loops :: !r.loops[c].phase.Binding? && !r.loops[c].phase.Refusing?) ==>
                  r.count == |Acquired(r.loops)|)
  {
    assert Balanced(Start(max));
    RunKeepsBalance(Start(max), actions);
    var r := Run(Start(max), actions);
    hide CanRun, Run, Holders, Acquired;
    if forall c | c in r.loops :: !r.loops[c].phase.Binding? && !r.loops[c].phase.Refusing? {
      HoldersAtRest(r.loops);
    }
  }

  /** Over every interleaving of devices with separated ids it bounds the attached channels of
      all devices together. */
  lemma CapacityHolds(ids: iset<string>, max: nat, actions: seq<Action>)
    requires Separated(ids) && CanRun(Start(max), actions) && AllWithin(ids, actions)
    ensures var r := Run(Start(max), actions); |Attached(r.devices)| <= r.count <= max
  {
    StartInv(ids, max);
    RunKeepsInv(ids, Start(max), actions);
    AttachedWithinCount(ids, Run(Start(max), actions));
  }

  /** The live loops whose acquired is true. */
  function Acquired(loops: map<Conn, Loop>): set<Conn> {
    set c | c in loops && loops[c].acquired && !loops[c].phase.Gone?
  }

  lemma HoldersAtRest(loops: map<Conn, Loop>)
    requires forall c | c in loops :: !loops[c].phase.Binding? && !loops[c].phase.Refusing?
    ensures Holders(loops) == Acquired(loops)
  {
  }

  // ---- one controller, one slot per connection ----

  /** Over every interleaving: whatever is attached to a device under a client identity is
      attached under the identity the device names, so the two channels of a device never
      belong to two installs; and no connection occupies two slots anywhere. */
  lemma OneControllerPerDevice(ids: iset<string>, max: nat, actions: seq<Action>, id: string, ch: string, id2: string, ch2: string)
    requires Separated(ids) && CanRun(Start(max), actions) && AllWithin(ids, actions)
    requires var ds := Run(Start(max), actions).devices; (id, ch) in Attached(ds) && (id2, ch2) in Attached(ds)
    ensures var r := Run(Start(max), actions);
            && id in r.devices && id2 in r.devices
            && Slot(r.devices[id], ch).Some? && Slot(r.devices[id2], ch2).Some?
            && var c, c2 := Slot(r.devices[id], ch).value, Slot(r.devices[id2], ch2).value;
            && c in r.loops && c2 in r.loops
            && (r.loops[c].clientID != "" ==> r.loops[c].clientID == r.devices[id].clientID)
            && (id == id2 && r.loops[c].clientID != "" && r.loops[c2].clientID != "" ==>
                  r.loops[c].clientID == r.loops[c2].clientID)
            && (c == c2 ==> id == id2 && ch == ch2)
  {
    StartInv(ids, max);
    RunKeepsInv(ids, Start(max), actions);
    var r := Run(Start(max), actions);
    AttachedOwner(ids, r, id, ch);
    AttachedOwner(ids, r, id2, ch2);
    if Slot(r.devices[id], ch) == Slot(r.devices[id2], ch2) {
      RoutesAreDistinct(ids, id, ch, id2, ch2);
    }
  }

  /** The exit of a device's own agent detaches both its channels, and no other device's. */
  lemma AgentExitDetaches(r: Relay, id: string, agent: Conn, p: (string, string))
    requires id in r.devices && r.devices[id].agent == Some(agent)
    ensures p in Attached(Next(r, AgentLeaves(id, agent)).devices) <==> p in Attached(r.devices) && p.0 != id
    ensures Lookup(Next(r, AgentLeaves(id, agent)).devices, id).agent == None
  {
  }

  /** No data channel is attached, and no loop is about to attach one. */
  predicate DefaultOnly(r: Relay) {
    && (forall id | id in r.devices :: r.devices[id].dataClient == None && !r.devices[id].agentChannels)
    && (forall c | c in r.loops && r.loops[c].phase.Binding? :: r.loops[c].phase.b.channel != CHANNEL_DATA)
  }

  lemma ActionKeepsDefaultOnly(r: Relay, a: Action)
    requires DefaultOnly(r) && Enabled(r, a) && !(a.AgentJoins? && a.channels)
    ensures DefaultOnly(Next(r, a))
  {
    hide ChannelRoute, SplitRoute;
    if a.CommitBind? {
      CommitKeepsDefaultOnly(r.devices, a.c, r.loops[a.c].phase.b, a.now);
      hide BindClient;
    }
  }

  lemma CommitKeepsDefaultOnly(ds: Devices, c: Conn, b: Bind, now: nat)
    requires b.channel != CHANNEL_DATA
    requires forall id | id in ds :: ds[id].dataClient == None && !ds[id].agentChannels
    ensures var after := BindClient(ds, c, b, now).0;
            forall id | id in after :: after[id].dataClient == None && !after[id].agentChannels
  {
  }

  /** Agents that announce no channels, as old ones do, are never bound to a data channel, over
      every interleaving. */
  lemma {:induction false} OldAgentsGetNoData(r: Relay, actions: seq<Action>)
    requires DefaultOnly(r) && CanRun(r, actions)
    requires forall i | 0 <= i < |actions| :: !(actions[i].AgentJoins? && actions[i].channels)
    ensures DefaultOnly(Run(r, actions))
    decreases |actions|
  {
    hide DefaultOnly, Enabled, Next;
    if actions != [] {
      ActionKeepsDefaultOnly(r, actions[0]);
      assert forall i | 0 <= i < |actions| - 1 :: actions[1..][i] == actions[i + 1];
      OldAgentsGetNoData(Next(r, actions[0]), actions[1..]);
    }
  }

  /** What can take a channel from a connection that is attached under a client identity: its
      own exit, the exit of the agent, a bind of that channel by the same install or by a client
      that names none, or a forced bind of another install. Nothing else, in no interleaving;
      an unforced bind of another install in particular does not. */
  lemma ChannelLostOnlyBy(ids: iset<string>, max: nat, actions: seq<Action>, a: Action, p: (string, string))
    requires Separated(ids) && CanRun(Start(max), actions) && AllWithin(ids, actions)
    requires Enabled(Run(Start(max), actions), a)
    requires var r := Run(Start(max), actions);
             && p in Attached(r.devices) && RightlyHeld(r, p)
             && var c := Occupant(r.devices, p).value;
             && r.loops[c].clientID != ""
             && Occupant(Next(r, a).devices, p) != Some(c)
    ensures var r := Run(Start(max), actions);
            var c := Occupant(r.devices, p).value;
            || a == ClearOnExit(c)
            || (a.AgentLeaves? && a.id == p.0 && r.devices[p.0].agent == Some(a.agent))
            || (a.CommitBind? && r.loops[a.c].phase.b.deviceID == p.0
                && var b := r.loops[a.c].phase.b;
                   if b.clientID == "" || b.clientID == r.loops[c].clientID then b.channel == p.1 else b.force)
  {
    StartInv(ids, max);
    RunKeepsInv(ids, Start(max), actions);
    LostOnlyBy(ids, Run(Start(max), actions), a, p);
  }

  lemma LostOnlyBy(ids: iset<string>, r: Relay, a: Action, p: (string, string))
    requires Inv(ids, r) && Enabled(r, a)
    requires p in Attached(r.devices) && RightlyHeld(r, p)
    requires var c := Occupant(r.devices, p).value;
             r.loops[c].clientID != "" && Occupant(Next(r, a).devices, p) != Some(c)
    ensures var c := Occupant(r.devices, p).value;
            || a == ClearOnExit(c)
            || (a.AgentLeaves? && a.id == p.0 && r.devices[p.0].agent == Some(a.agent))
            || (a.CommitBind? && r.loops[a.c].phase.b.deviceID == p.0
                && var b := r.loops[a.c].phase.b;
                   if b.clientID == "" || b.clientID == r.loops[c].clientID then b.channel == p.1 else b.force)
  {
    match a
    case CommitBind(c, now) => LostByBind(ids, r, c, now, p);
    case ClearOnExit(c) =>
      if Occupant(r.devices, p) != Some(c) {
        DetachKeepsOthers(r.devices, r.loops[c].deviceID, c, p);
      }
    case _ => LostByAgent(r, a, p);
  }

  lemma LostByAgent(r: Relay, a: Action, p: (string, string))
    requires Enabled(r, a) && p in Attached(r.devices) && !a.CommitBind? && !a.ClearOnExit?
    requires Occupant(Next(r, a).devices, p) != Occupant(r.devices, p)
    ensures a.AgentLeaves? && a.id == p.0 && r.devices[p.0].agent == Some(a.agent)
  {
  }

  lemma DetachKeepsOthers(ds: Devices, id: string, c: Conn, p: (string, string))
    requires p in Attached(ds) && Occupant(ds, p) != Some(c)
    ensures Occupant(ClearClient(ds, id, c), p) == Occupant(ds, p)
  {
  }

  lemma LostByBind(ids: iset<string>, r: Relay, c: Conn, now: nat, p: (string, string))
    requires Inv(ids, r) && Enabled(r, CommitBind(c, now))
    requires p in Attached(r.devices) && RightlyHeld(r, p)
    requires var o := Occupant(r.devices, p).value;
             r.loops[o].clientID != "" && Occupant(Next(r, CommitBind(c, now)).devices, p) != Some(o)
    ensures var o, b := Occupant(r.devices, p).value, r.loops[c].phase.b;
            && b.deviceID == p.0
            && if b.clientID == "" || b.clientID == r.loops[o].clientID then b.channel == p.1 else b.force
  {
    var b := r.loops[c].phase.b;
    assert LoopOk(ids, r.loops[c]);
    AttachedOwner(ids, r, p.0, p.1);
    BusyIff(r.devices, c, b, now);
    if BindClient(r.devices, c, b, now).1.busy {
      BusyChangesNothing(r.devices, c, b, now);
    } else {
      BoundIsAttached(r.devices, c, b, now);
    }
    hide BindClient, ChannelRoute, Bindable, Holders, LoopOk;
  }

  /** An exiting loop clears every place it occupies and nobody else's: a slot that now holds
      a successor stays as it is. */
  lemma ExitClearsExactlyItsOwn(ids: iset<string>, max: nat, actions: seq<Action>, c: Conn, id: string, ch: string)
    requires Separated(ids) && CanRun(Start(max), actions) && AllWithin(ids, actions)
    requires InPhase(Run(Start(max), actions), c, Leaving)
    requires id in Run(Start(max), actions).devices && IsChannel(ch)
    ensures var r := Run(Start(max), actions);
            var after := Next(r, ClearOnExit(c));
            && id in after.devices
            && Slot(after.devices[id], ch) ==
               (if Slot(r.devices[id], ch) == Some(c) then None else Slot(r.devices[id], ch))
            && after.devices[id].agent == r.devices[id].agent
  {
    StartInv(ids, max);
    RunKeepsInv(ids, Start(max), actions);
    var r := Run(Start(max), actions);
    ExitClearsItsOwn(ids, r, c, id, ch);
  }

  lemma ExitClearsItsOwn(ids: iset<string>, r: Relay, c: Conn, id: string, ch: string)
    requires Inv(ids, r) && InPhase(r, c, Leaving) && id in r.devices && IsChannel(ch)
    ensures var after := Next(r, ClearOnExit(c));
            && id in after.devices
            && Slot(after.devices[id], ch) ==
               (if Slot(r.devices[id], ch) == Some(c) then None else Slot(r.devices[id], ch))
            && after.devices[id].agent == r.devices[id].agent
  {
    assert SlotsOk(ids, r, id);
    if r.devices[id].client.Some? {
      SlotsDiffer(ids, r, id);
    }
    DetachFacts(r.devices[id], c);
    hide ChannelRoute, Bindable, Holders, Detach, LoopOk;
  }

  /** The whole busy path, uninterrupted, leaves devices, counter and loop as they were. */
  lemma RefusalChangesNothing(ids: iset<string>, r: Relay, c: Conn, b: Bind, now: nat)
    requires Inv(ids, r) && Enabled(r, BeginBind(c, b)) && Next(r, BeginBind(c, b)) != r
    requires BindClient(r.devices, c, b, now).1.busy
    ensures var r1 := Next(r, BeginBind(c, b));
            && Enabled(r1, CommitBind(c, now))
            && var r2 := Next(r1, CommitBind(c, now));
            && Enabled(r2, EndRefusal(c)) && Next(r2, EndRefusal(c)) == r
  {
    BusyChangesNothing(r.devices, c, b, now);
    var l := r.loops[c];
    var r1 := Next(r, BeginBind(c, b));
    var r2 := Next(r1, CommitBind(c, now));
    var r3 := Next(r2, EndRefusal(c));
    assert r3.loops == r.loops[c := l] == r.loops;
  }

  // ---- the condition on ids is exact ----

  lemma {:induction false} OneMore(r: Relay, actions: seq<Action>, a: Action)
    requires CanRun(r, actions) && Enabled(Run(r, actions), a)
    ensures CanRun(r, actions + [a]) && Run(r, actions + [a]) == Next(Run(r, actions), a)
    decreases |actions|
  {
    hide Next, Enabled;
    if actions == [] {
      assert [] + [a] == [a] && [a][1..] == [];
      assert CanRun(Next(r, a), []);
    } else {
      OneMore(Next(r, actions[0]), actions[1..], a);
      assert (actions + [a])[1..] == actions[1..] + [a];
    }
  }

  lemma NoActions(r: Relay)
    ensures CanRun(r, []) && Run(r, []) == r
  {
  }

  function Occupant(ds: Devices, p: (string, string)): Option<Conn> {
    if p.0 in ds then Slot(ds[p.0], p.1) else None
  }

  predicate Alive(r: Relay, c: Conn) {
    c in r.loops && !r.loops[c].phase.Cleared? && !r.loops[c].phase.Gone?
  }

  /** The client identity, if any, under which c is bound is the one device id names. */
  predicate Agrees(r: Relay, c: Conn, id: string)
    requires c in r.loops && id in r.devices
  {
    r.loops[c].clientID != "" ==> r.loops[c].clientID == r.devices[id].clientID
  }

  /** The live loop that occupies channel p.1 of device p.0 is in control of it. */
  predicate RightlyHeld(r: Relay, p: (string, string)) {
    var c := Occupant(r.devices, p);
    c.Some? && Alive(r, c.value) && Agrees(r, c.value, p.0)
  }

  /** No slot is left to a loop that is through with it or of an identity other than the
      device's, the counter covers the attached channels, and no connection is in two slots. */
  ghost predicate Safe(r: Relay) {
    && (forall p | p in Attached(r.devices) :: RightlyHeld(r, p))
    && |Attached(r.devices)| <= r.count
    && (forall p, q | p in Attached(r.devices) && q in Attached(r.devices) && p != q ::
          Occupant(r.devices, p) != Occupant(r.devices, q))
  }

  ghost predicate AlwaysSafe(ids: iset<string>, max: nat) {
    forall actions {:trigger CanRun(Start(max), actions)} | CanRun(Start(max), actions) && AllWithin(ids, actions) ::
      Safe(Run(Start(max), actions))
  }

  lemma InvIsSafe(ids: iset<string>, r: Relay)
    requires Inv(ids, r)
    ensures Safe(r)
  {
    AttachedWithinCount(ids, r);
    forall p | p in Attached(r.devices)
      ensures RightlyHeld(r, p)
    {
      AttachedOwner(ids, r, p.0, p.1);
    }
    forall p, q | p in Attached(r.devices) && q in Attached(r.devices) && p != q
      ensures Occupant(r.devices, p) != Occupant(r.devices, q)
    {
      AttachedOwner(ids, r, p.0, p.1);
      AttachedOwner(ids, r, q.0, q.1);
      if Occupant(r.devices, p) == Occupant(r.devices, q) {
        RoutesAreDistinct(ids, p.0, p.1, q.0, q.1);
      }
    }
  }

  // The devices of the converse: id, its twin whose id is the route of id's data channel, and
  // the device root whose agent the relay takes for that of id.

  function Joined(id: string, root: string, twin: string): Devices {
    map[root := Unbound(), id := Unbound(), twin := Unbound()]
  }

  function Unbound(): Device {
    NewDevice().(secret := "s", agent := Some(1), agentChannels := true)
  }

  function OnData(): Device {
    Unbound().(dataClient := Some(7), clientID := "p")
  }

  function OnDefault(): Device {
    Unbound().(client := Some(7), clientID := "p")
  }

  lemma WithinMore(ids: iset<string>, actions: seq<Action>, a: Action)
    requires AllWithin(ids, actions) && Within(ids, a)
    ensures AllWithin(ids, actions + [a])
  {
    hide Within;
  }

  lemma AgentsJoin(ids: iset<string>, max: nat, id: string, root: string, twin: string) returns (actions: seq<Action>)
    requires id != "" && root != "" && twin != "" && id in ids && root in ids && twin in ids && max >= 1
    ensures CanRun(Start(max), actions) && AllWithin(ids, actions)
    ensures Run(Start(max), actions) == Relay(Joined(id, root, twin), map[7 := Loop(Reading, false, "", "", "")], 0, max)
  {
    hide CanRun, Run;
    NoActions(Start(max));
    var a1, a2, a3 := AgentJoins(root, "s", true, 1), AgentJoins(id, "s", true, 1), AgentJoins(twin, "s", true, 1);
    OneMore(Start(max), [], a1);
    OneMore(Start(max), [] + [a1], a2);
    OneMore(Start(max), [] + [a1] + [a2], a3);
    OneMore(Start(max), [] + [a1] + [a2] + [a3], Connect(7));
    actions := [] + [a1] + [a2] + [a3] + [Connect(7)];
    assert Run(Start(max), actions).devices == Joined(id, root, twin);
  }

  /** One connection binds the data channel of id, and then, as the route is the same, the
      default channel of the twin. */
  lemma BindTwice(ids: iset<string>, max: nat, id: string) returns (actions: seq<Action>)
    requires "" !in ids && Bindable(ids, id) && ChannelRoute(id, CHANNEL_DATA) in ids && max >= 1
    ensures CanRun(Start(max), actions) && AllWithin(ids, actions)
    ensures var twin := ChannelRoute(id, CHANNEL_DATA);
            Run(Start(max), actions)
              == Relay(Joined(id, SplitRoute(id).0, twin)[id := OnData()][twin := OnDefault()],
                       map[7 := Loop(Reading, true, twin, twin, "p")], 1, max)
  {
    hide CanRun, Run;
    var twin, root := ChannelRoute(id, CHANNEL_DATA), SplitRoute(id).0;
    var before := AgentsJoin(ids, max, id, root, twin);
    var bind1, bind2 := BeginBind(7, Bind(id, CHANNEL_DATA, "p", "", false)), BeginBind(7, Bind(twin, "", "p", "", false));
    SplitInvertsRoute(id, CHANNEL_DATA);
    assert SplitRoute(twin).0 == id && twin != id && |twin| > |root|;
    hide SplitRoute, ChannelRoute;
    DefaultRoute(twin);
    var ds := Joined(id, root, twin);
    FirstBind(ds, max, id, root, twin);
    SecondBind(ds[id := OnData()], max, id, twin);
    var commit := CommitBind(7, 0);
    assert Within(ids, bind1) && Within(ids, commit) && Within(ids, bind2);
    hide *;
    OneMore(Start(max), before, bind1);
    OneMore(Start(max), before + [bind1], commit);
    OneMore(Start(max), before + [bind1] + [commit], bind2);
    OneMore(Start(max), before + [bind1] + [commit] + [bind2], commit);
    WithinMore(ids, before, bind1);
    WithinMore(ids, before + [bind1], commit);
    WithinMore(ids, before + [bind1] + [commit], bind2);
    WithinMore(ids, before + [bind1] + [commit] + [bind2], commit);
    actions := before + [bind1] + [commit] + [bind2] + [commit];
  }

  lemma FirstBind(ds: Devices, max: nat, id: string, root: string, twin: string)
    requires max >= 1 && SplitRoute(id).0 == root && ChannelRoute(id, CHANNEL_DATA) == twin
    requires ds == Joined(id, root, twin) && twin != id
    ensures var r := Relay(ds, map[7 := Loop(Reading, false, "", "", "")], 0, max);
            var bind := BeginBind(7, Bind(id, CHANNEL_DATA, "p", "", false));
            && Enabled(r, bind) && Enabled(Next(r, bind), CommitBind(7, 0))
            && Next(Next(r, bind), CommitBind(7, 0))
                 == Relay(ds[id := OnData()], map[7 := Loop(Reading, true, id, twin, "p")], 1, max)
  {
    hide SplitRoute, ChannelRoute;
  }

  lemma SecondBind(ds: Devices, max: nat, id: string, twin: string)
    requires SplitRoute(twin).0 == id && ChannelRoute(twin, "") == twin
    requires id in ds && ds[id] == OnData() && twin in ds && ds[twin] == Unbound()
    ensures var r := Relay(ds, map[7 := Loop(Reading, true, id, twin, "p")], 1, max);
            var bind := BeginBind(7, Bind(twin, "", "p", "", false));
            && Enabled(r, bind) && Enabled(Next(r, bind), CommitBind(7, 0))
            && Next(Next(r, bind), CommitBind(7, 0))
                 == Relay(ds[twin := OnDefault()], map[7 := Loop(Reading, true, twin, twin, "p")], 1, max)
  {
    hide SplitRoute, ChannelRoute;
  }

  lemma DefaultRoute(id: string)
    ensures ChannelRoute(id, "") == id
  {
  }

  /** Then it ends, clears the twin and gives its unit back: the slot of id stays attached to a
      loop that is gone, beyond the counter. */
  lemma SharedRouteLeaksSlot(ids: iset<string>, max: nat, id: string) returns (actions: seq<Action>)
    requires "" !in ids && Bindable(ids, id) && ChannelRoute(id, CHANNEL_DATA) in ids && max >= 1
    ensures CanRun(Start(max), actions) && AllWithin(ids, actions)
    ensures var r := Run(Start(max), actions);
            && r.count == 0 && (id, CHANNEL_DATA) in Attached(r.devices)
            && r.devices[id].dataClient == Some(7) && 7 in r.loops && r.loops[7].phase == Gone
  {
    var twin, root := ChannelRoute(id, CHANNEL_DATA), SplitRoute(id).0;
    assert twin != id && twin != "";
    var before := BindTwice(ids, max, id);
    var ds := Joined(id, root, twin)[id := OnData()][twin := OnDefault()];
    Exits(ds, max, twin);
    assert (id, CHANNEL_DATA) in Attached(ds[twin := Unbound()]);
    var a1, a2, a3 := ReadFails(7), ClearOnExit(7), ReleaseOnExit(7);
    assert Within(ids, a1) && Within(ids, a2) && Within(ids, a3);
    hide *;
    OneMore(Start(max), before, a1);
    OneMore(Start(max), before + [a1], a2);
    OneMore(Start(max), before + [a1] + [a2], a3);
    WithinMore(ids, before, a1);
    WithinMore(ids, before + [a1], a2);
    WithinMore(ids, before + [a1] + [a2], a3);
    actions := before + [a1] + [a2] + [a3];
  }

  lemma Exits(ds: Devices, max: nat, twin: string)
    requires twin != "" && twin in ds && ds[twin] == OnDefault()
    ensures var r := Relay(ds, map[7 := Loop(Reading, true, twin, twin, "p")], 1, max);
            && Enabled(r, ReadFails(7))
            && var r1 := Next(r, ReadFails(7));
            && Enabled(r1, ClearOnExit(7))
            && var r2 := Next(r1, ClearOnExit(7));
            && Enabled(r2, ReleaseOnExit(7))
            && Next(r2, ReleaseOnExit(7))
                 == Relay(ds[twin := Unbound()], map[7 := Loop(Gone, true, twin, twin, "p")], 0, max)
  {
  }

  /** The relay is safe over every run of devices from ids exactly when no device that can be
      bound shares the route of its data channel with another device. */
  lemma SafeIffSeparated(ids: iset<string>, max: nat)
    requires "" !in ids && max >= 1
    ensures AlwaysSafe(ids, max) <==> Separated(ids)
  {
    if Separated(ids) {
      forall actions | CanRun(Start(max), actions) && AllWithin(ids, actions)
        ensures Safe(Run(Start(max), actions))
      {
        StartInv(ids, max);
        RunKeepsInv(ids, Start(max), actions);
        InvIsSafe(ids, Run(Start(max), actions));
      }
    } else {
      var id :| Bindable(ids, id) && ChannelRoute(id, CHANNEL_DATA) in ids;
      var actions := SharedRouteLeaksSlot(ids, max, id);
      var r := Run(Start(max), actions);
      assert Occupant(r.devices, (id, CHANNEL_DATA)) == Some(7) && !Alive(r, 7);
      assert !Safe(r);
    }
  }

  /** Ids without the separator are separated. */
  lemma PlainIdsAreSeparated(ids: iset<string>)
    requires forall id | id in ids :: id != "" && '#' !in id
    ensures Separated(ids)
  {
    forall id | Bindable(ids, id) ensures ChannelRoute(id, CHANNEL_DATA) !in ids {
      assert ChannelRoute(id, CHANNEL_DATA)[|id|] == '#';
    }
  }

  /** An id and its twin are harmless when no agent can be found for the id: its agent is looked
      up under the part before its own separator. */
  lemma UnboundTwinIsSeparated()
    ensures Separated(iset{"x#y", "x#y#data"})
  {
    var ids := iset{"x#y", "x#y#data"};
    SplitInvertsRoute("x", "y");
    assert ChannelRoute("x", "y") == "x#y";
    forall id | Bindable(ids, id) ensures ChannelRoute(id, CHANNEL_DATA) !in ids {
      assert |ChannelRoute(id, CHANNEL_DATA)| == |id| + 5;
    }
  }
}
