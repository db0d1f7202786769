/** internal/bandwidth/bandwidth.go: the session counter. */
module Bandwidth {
  class Limiter {
    const max: nat
    var count: nat

    constructor (maxSessions: int)
      ensures max >= 1 && count == 0
      ensures maxSessions >= 1 ==> max == maxSessions
    {
      max := if maxSessions < 1 then 1 else maxSessions;
      count := 0;
    }

    method TryAcquire() returns (ok: bool)
      modifies this
      ensures ok <==> old(count) < max
      ensures count == if ok then old(count) + 1 else old(count)
    {
      if count >= max {
        return false;
      }
      count := count + 1;
      return true;
    }

    method Release()
      modifies this
      ensures count == if old(count) > 0 then old(count) - 1 else 0
    {
      if count > 0 {
        count := count - 1;
      }
    }

    /** The percentage in use, rounded down: 100 exactly when full, while the counter respects
        its maximum. */
    method BusyScore() returns (score: nat)
      ensures max > 0 ==> score * max <= 100 * count < (score + 1) * max
      ensures max == 0 ==> score == 100
      ensures count <= max ==> score <= 100 && (score == 100 <==> count == max)
    {
      if max <= 0 {
        return 100;
      }
      score := (count * 100) / max;
      Quotient(count * 100, max);
      if count <= max {
        Percent(count, max);
      }
    }
  }

  lemma SmallerFactor(q: int, r: int, m: nat)
    requires q * m < r * m
    ensures q < r
  {
  }

  lemma Quotient(n: nat, m: nat)
    requires m > 0
    ensures n / m * m <= n < (n / m + 1) * m
  {
  }

  lemma Percent(count: nat, max: nat)
    requires count <= max && max > 0
    ensures (count * 100) / max <= 100 && ((count * 100) / max == 100 <==> count == max)
  {
    var score := (count * 100) / max;
    Quotient(count * 100, max);
    SmallerFactor(score, 101, max);
    if count < max {
      SmallerFactor(score, 100, max);
    } else {
      SmallerFactor(100, score + 1, max);
    }
  }
}

/** Controller arbitration of cmd/relay/re2.go: the device table, as functions on a value
    and as the object that updates it. */
module RelayHub {
  import opened Words
  import opened Channel

  type Conn = nat

  datatype Device = Device(secret: string, agent: Option<Conn>, agentChannels: bool,
                           client: Option<Conn>, dataClient: Option<Conn>,
                           clientID: string, clientName: string, clientSince: nat)

  type Devices = map<string, Device>

  datatype Bind = Bind(deviceID: string, channel: string, clientID: string, clientName: string, force: bool)

  datatype BindResult = BindResult(busy: bool, peer: string, since: nat, displaced: seq<(Conn, string)>)

  function NewDevice(): Device {
    Device("", None, false, None, None, "", "", 0)
  }

  function Lookup(ds: Devices, id: string): Device {
    if id in ds then ds[id] else NewDevice()
  }

  function Slot(d: Device, channel: string): Option<Conn> {
    if channel == CHANNEL_DATA then d.dataClient else d.client
  }

  function WithSlot(d: Device, channel: string, c: Option<Conn>): Device {
    if channel == CHANNEL_DATA then d.(dataClient := c) else d.(client := c)
  }

  function Bound(id: string, d: Device): seq<(Conn, string)> {
    (if d.client.Some? then [(d.client.value, id)] else [])
    + (if d.dataClient.Some? then [(d.dataClient.value, ChannelRoute(id, CHANNEL_DATA))] else [])
  }

  /** Some channel of the device is attached by a connection other than c. */
  predicate HeldByOther(d: Device, c: Conn) {
    || (d.client.Some? && d.client.value != c)
    || (d.dataClient.Some? && d.dataClient.value != c)
  }

  /** Another install controls the device. */
  predicate Contested(d: Device, c: Conn, clientID: string) {
    HeldByOther(d, c) && clientID != "" && d.clientID != "" && d.clientID != clientID
  }

  function Attach(d: Device, c: Conn, b: Bind, now: nat): Device {
    var held := HeldByOther(d, c);
    var cleared := if Contested(d, c, b.clientID) then d.(client := None, dataClient := None) else d;
    var stamped := cleared.(clientSince := if !held || d.clientID != b.clientID then now else d.clientSince);
    var slotted := WithSlot(stamped, b.channel, Some(c));
    if b.clientID != "" || !held then
      slotted.(clientName := if b.clientName != "" || d.clientID != b.clientID then b.clientName else d.clientName,
               clientID := b.clientID)
    else slotted
  }

  function BindClient(ds: Devices, c: Conn, b: Bind, now: nat): (Devices, BindResult) {
    var d := Lookup(ds, b.deviceID);
    var other := Contested(d, c, b.clientID);
    if other && !b.force then (ds[b.deviceID := d], BindResult(true, d.clientName, d.clientSince, []))
    else (ds[b.deviceID := Attach(d, c, b, now)],
          BindResult(false, "", 0, if other then Bound(b.deviceID, d) else []))
  }

  function Detach(d: Device, c: Conn): Device {
    var e := if d.client == Some(c) then d.(client := None)
             else if d.dataClient == Some(c) then d.(dataClient := None)
             else d;
    if e != d && e.client.None? && e.dataClient.None? then e.(clientID := "", clientName := "") else e
  }

  function ClearClient(ds: Devices, id: string, c: Conn): Devices {
    if id in ds then ds[id := Detach(ds[id], c)] else ds
  }

  function SetAgent(ds: Devices, id: string, secret: string, channels: bool, c: Conn): Option<Devices> {
    var d := Lookup(ds, id);
    if d.secret != "" && d.secret != secret then None
    else Some(ds[id := d.(secret := secret, agent := Some(c), agentChannels := channels)])
  }

  function ClearAgent(ds: Devices, id: string, c: Conn): Devices {
    if id in ds && ds[id].agent == Some(c) then
      ds[id := ds[id].(agent := None, agentChannels := false, client := None, dataClient := None)]
    else ds
  }

  class Hub {
    var devices: Devices

    constructor ()
      ensures devices == map[]
    {
      devices := map[];
    }

    method SetRE2Agent(id: string, secret: string, channels: bool, c: Conn) returns (ok: bool)
      modifies this
      ensures ok <==> SetAgent(old(devices), id, secret, channels, c).Some?
      ensures ok ==> devices == SetAgent(old(devices), id, secret, channels, c).value
      ensures !ok ==> devices == old(devices)
    {
      var d := Lookup(devices, id);
      if d.secret != "" && d.secret != secret {
        // the table entry exists: a new entry has no secret
        return false;
      }
      devices := devices[id := d.(secret := secret, agent := Some(c), agentChannels := channels)];
      return true;
    }

    method ClearRE2Agent(id: string, c: Conn) returns (peers: seq<(Conn, string)>)
      modifies this
      ensures devices == ClearAgent(old(devices), id, c)
      ensures peers == if id in old(devices) && old(devices)[id].agent == Some(c) then Bound(id, old(devices)[id]) else []
    {
      if id !in devices {
        return [];
      }
      var d := devices[id];
      if d.agent != Some(c) {
        return [];
      }
      peers := Bound(id, d);
      devices := devices[id := d.(agent := None, agentChannels := false, client := None, dataClient := None)];
    }

    method BindRE2Client(c: Conn, b: Bind, now: nat) returns (res: BindResult)
      modifies this
      ensures (devices, res) == BindClient(old(devices), c, b, now)
    {
      var d := Lookup(devices, b.deviceID);
      var held := false;
      var bound := Bound(b.deviceID, d);
      for i := 0 to |bound|
        invariant held <==> exists j | 0 <= j < i :: bound[j].0 != c
      {
        if bound[i].0 != c {
          held := true;
        }
      }
      BoundHeld(b.deviceID, d, c);
      var other := held && b.clientID != "" && d.clientID != "" && d.clientID != b.clientID;
      if other && !b.force {
        devices := devices[b.deviceID := d];
        return BindResult(true, d.clientName, d.clientSince, []);
      }
      var e := d;
      res := BindResult(false, "", 0, []);
      if other {
        res := res.(displaced := bound);
        e := e.(client := None, dataClient := None);
      }
      if !held || d.clientID != b.clientID {
        e := e.(clientSince := now);
      }
      e := WithSlot(e, b.channel, Some(c));
      if b.clientID != "" || !held {
        if b.clientName != "" || d.clientID != b.clientID {
          e := e.(clientName := b.clientName);
        }
        e := e.(clientID := b.clientID);
      }
      devices := devices[b.deviceID := e];
    }

    method ClearRE2Client(id: string, c: Conn) returns (route: string)
      modifies this
      ensures devices == ClearClient(old(devices), id, c)
      ensures route == if id !in old(devices) then ""
                       else if old(devices)[id].client == Some(c) then id
                       else if old(devices)[id].dataClient == Some(c) then ChannelRoute(id, CHANNEL_DATA)
                       else ""
    {
      if id !in devices {
        return "";
      }
      var d := devices[id];
      if d.client == Some(c) {
        d := d.(client := None);
        route := id;
      } else if d.dataClient == Some(c) {
        d := d.(dataClient := None);
        route := ChannelRoute(id, CHANNEL_DATA);
      } else {
        assert devices == devices[id := d];
        return "";
      }
      if d.client.None? && d.dataClient.None? {
        d := d.(clientID := "", clientName := "");
      }
      devices := devices[id := d];
    }
  }

  lemma BoundHeld(id: string, d: Device, c: Conn)
    ensures (exists j | 0 <= j < |Bound(id, d)| :: Bound(id, d)[j].0 != c) <==> HeldByOther(d, c)
  {
    var b := Bound(id, d);
    if d.client.Some? {
      assert b[0].0 == d.client.value;
    }
    if d.dataClient.Some? {
      assert b[|b| - 1].0 == d.dataClient.value;
    }
  }

  // ---- single operations ----

  /** When a bind is refused, on the fields of the device: somebody else's connection is on one
      of its channels, both sides name an install, the names differ, and force is not set. */
  lemma BusyIff(ds: Devices, c: Conn, b: Bind, now: nat)
    ensures BindClient(ds, c, b, now).1.busy <==>
            && !b.force && b.clientID != "" && b.deviceID in ds
            && var d := ds[b.deviceID];
               && d.clientID != "" && d.clientID != b.clientID
               && ((d.client.Some? && d.client != Some(c)) || (d.dataClient.Some? && d.dataClient != Some(c)))
  {
  }

  function Opposite(channel: string): string {
    if channel == CHANNEL_DATA then "" else CHANNEL_DATA
  }

  /** What a bind that is not refused leaves: the binder on the channel it asked for, the other
      channel as it was unless another install was displaced, the agent and every other device
      untouched, and the identity and its time renewed only as far as they should be. */
  lemma BoundIsAttached(ds: Devices, c: Conn, b: Bind, now: nat)
    requires !BindClient(ds, c, b, now).1.busy
    ensures var d, (after, res) := Lookup(ds, b.deviceID), BindClient(ds, c, b, now);
            var e := after[b.deviceID];
            var others := (d.client.Some? && d.client != Some(c)) || (d.dataClient.Some? && d.dataClient != Some(c));
            && after.Keys == ds.Keys + {b.deviceID} && (forall id | id in ds && id != b.deviceID :: after[id] == ds[id])
            && Slot(e, b.channel) == Some(c)
            && res.peer == "" && res.since == 0
            && (res.displaced == [] ==> Slot(e, Opposite(b.channel)) == Slot(d, Opposite(b.channel)))
            && (res.displaced != [] ==> Slot(e, Opposite(b.channel)) == None && b.force && others)
            && (e.agent, e.agentChannels, e.secret) == (d.agent, d.agentChannels, d.secret)
            && e.clientID == (if b.clientID != "" || !others then b.clientID else d.clientID)
            && (b.clientID == "" && others ==> e.clientName == d.clientName)
            && (b.clientID == d.clientID && others ==> e.clientSince == d.clientSince)
            && (b.clientID != d.clientID || !others ==> e.clientSince == now)
            && (b.clientName != "" && (b.clientID != "" || !others) ==> e.clientName == b.clientName)
            && (b.clientName == "" && b.clientID == d.clientID ==> e.clientName == d.clientName)
            && (b.clientName == "" && b.clientID != d.clientID && b.clientID != "" ==> e.clientName == "")
  {
  }

  /** A refusal leaves every device as it was. */
  lemma BusyChangesNothing(ds: Devices, c: Conn, b: Bind, now: nat)
    requires BindClient(ds, c, b, now).1.busy
    ensures BindClient(ds, c, b, now).0 == ds
    ensures BindClient(ds, c, b, now).1.peer == ds[b.deviceID].clientName
    ensures BindClient(ds, c, b, now).1.since == ds[b.deviceID].clientSince
  {
    assert b.deviceID in ds;
  }

  /** A takeover lists every channel of the previous controller and leaves only the
      binder's slot attached, under the binder's identity. */
  lemma TakeoverLeavesOnlyTheBinder(ds: Devices, c: Conn, b: Bind, now: nat)
    requires Contested(Lookup(ds, b.deviceID), c, b.clientID) && b.force
    ensures var (after, res) := BindClient(ds, c, b, now);
            var d := after[b.deviceID];
            && !res.busy && res.displaced == Bound(b.deviceID, Lookup(ds, b.deviceID))
            && Slot(d, b.channel) == Some(c)
            && (forall ch | ch == "" || ch == CHANNEL_DATA ::
                  ch != (if b.channel == CHANNEL_DATA then CHANNEL_DATA else "") ==> Slot(d, ch) == None)
            && d.clientID == b.clientID
            && (forall id | id in ds && id != b.deviceID :: after[id] == ds[id])
  {
  }

  /** The channels of a device with the routes their frames travel under. */
  lemma BoundLists(id: string, d: Device, c: Conn, route: string)
    ensures (c, route) in Bound(id, d) <==>
            (d.client == Some(c) && route == id) || (d.dataClient == Some(c) && route == id + "#data")
    ensures |Bound(id, d)| == (if d.client.Some? then 1 else 0) + (if d.dataClient.Some? then 1 else 0)
  {
    assert ChannelRoute(id, CHANNEL_DATA) == id + "#data";
    if d.client == Some(c) {
      assert Bound(id, d)[0] == (c, id);
    }
    if d.dataClient == Some(c) {
      assert Bound(id, d)[|Bound(id, d)| - 1] == (c, id + "#data");
    }
  }

  /** The exit of the last connection makes the device forget who was in control; that of one
      of two does not. */
  lemma LastExitForgets(ds: Devices, id: string, c: Conn)
    requires id in ds && (ds[id].client == Some(c) || ds[id].dataClient == Some(c))
    ensures var d, e := ds[id], ClearClient(ds, id, c)[id];
            && (d.client.None? || d.dataClient.None? ==>
                  e == d.(client := None, dataClient := None, clientID := "", clientName := ""))
            && (d.client.Some? && d.dataClient.Some? && d.client != d.dataClient ==>
                  && (e.clientID, e.clientName, e.clientSince) == (d.clientID, d.clientName, d.clientSince)
                  && (e.client == None || e.client == d.client) && (e.dataClient == None || e.dataClient == d.dataClient)
                  && (e.client == None <==> d.client == Some(c)) && (e.dataClient == None <==> d.dataClient == Some(c)))
  {
  }

  /** The first agent's secret guards the device from then on, whoever comes and goes. */
  lemma SecretGuards(ds: Devices, id: string, secret: string, channels: bool, c: Conn)
    ensures SetAgent(ds, id, secret, channels, c).Some? <==> id in ds && ds[id].secret != "" ==> ds[id].secret == secret
    ensures SetAgent(ds, id, secret, channels, c).Some? ==>
              var after := SetAgent(ds, id, secret, channels, c).value;
              && after.Keys == ds.Keys + {id} && (forall k | k in ds && k != id :: after[k] == ds[k])
              && after[id] == Lookup(ds, id).(secret := secret, agent := Some(c), agentChannels := channels)
  {
  }

  /** The exit of the agent itself leaves nobody attached. */
  lemma AgentExitDetachesAll(ds: Devices, id: string, c: Conn)
    requires id in ds && ds[id].agent == Some(c)
    ensures var after := ClearAgent(ds, id, c);
            && after.Keys == ds.Keys && (forall k | k in ds && k != id :: after[k] == ds[k])
            && Bound(id, after[id]) == [] && after[id].agent == None && !after[id].agentChannels
            && after[id].secret == ds[id].secret
  {
  }

  /** A replaced agent's exit does not touch the device the new agent serves. */
  lemma ReplacedAgentIsHarmless(ds: Devices, id: string, secret: string, channels: bool, previous: Conn, successor: Conn)
    requires previous != successor && SetAgent(ds, id, secret, channels, successor).Some?
    ensures var after := SetAgent(ds, id, secret, channels, successor).value;
            ClearAgent(after, id, previous) == after
  {
  }
}
