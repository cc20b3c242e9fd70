/** The lidar SDK's registry of sockets: maps, vectors and sets that must stay in agreement
    while channels are created on demand, and the closing of everything at the end. */
module DeviceManager {

  import opened LivoxDefinitions

  /** The string "host:port"; the port is what follows the last colon. */
  datatype Key = Key(host: string, port: nat)

  datatype HostNetInfo = HostNetInfo(host: string, pointPort: nat, imuPort: nat, cmdPort: nat, pushPort: nat, logPort: nat)

  datatype Config = Config(deviceType: nat, net: HostNetInfo)

  predicate IsMid360(c: Config) {
    c.deviceType == MID360 || c.deviceType == MID360S
  }

  /** The operating system's side: descriptors are positive and not given out while open. */
  class SocketTable {
    var last: nat
    ghost var open: set<int>
    /** How many sockets the system has refused. */
    ghost var refused: nat

    ghost predicate Valid()
      reads this
    {
      forall s :: s in open ==> 0 < s <= last
    }

    constructor ()
      ensures Valid() && open == {} && refused == 0
    {
      last, open, refused := 0, {}, 0;
    }

    /** A new socket, or a negative number when the system refuses. */
    method Create() returns (s: int)
      requires Valid()
      modifies this
      ensures Valid()
      ensures s < 0 ==> open == old(open) && refused == old(refused) + 1
      ensures s >= 0 ==> s > 0 && s !in old(open) && open == old(open) + {s} && refused == old(refused)
    {
      if * {
        refused := refused + 1;
        return -1;
      }
      last := last + 1;
      s := last;
      open := open + {s};
    }

    /** Only an open descriptor may be closed. */
    method Close(s: int)
      requires Valid() && s in open
      modifies this
      ensures Valid() && open == old(open) - {s} && refused == old(refused)
    {
      open := open - {s};
    }
  }

  function Elements(q: seq<int>): set<int> {
    set s | s in q
  }

  predicate Distinct(q: seq<int>) {
    forall i, j :: 0 <= i < j < |q| ==> q[i] != q[j]
  }

  // ----- the registry as a value -----

  /** The fields of the manager and the open descriptors; `owner` is the key of each bound socket. */
  datatype Registry = Registry(
    channelInfo: map<Key, int>, customCommand: map<Key, int>, owner: map<int, Key>,
    sockets: seq<int>, commandChannel: set<int>, dataChannel: set<int>, broadcasts: seq<int>,
    detection: int, detectionBroadcast: int,
    commandDelegates: set<int>, dataDelegates: set<int>, detectionDelegates: set<int>, open: set<int>)

  /** The detection sockets that are open. */
  function DetectionSockets(r: Registry): set<int> {
    (if r.detection > 0 then {r.detection} else {}) + (if r.detectionBroadcast > 0 then {r.detectionBroadcast} else {})
  }

  /** Each key is bound to a socket of its own, and each bound socket to its key. */
  ghost predicate Bijective(channelInfo: map<Key, int>, owner: map<int, Key>) {
    && (forall k :: k in channelInfo ==> channelInfo[k] in owner && owner[channelInfo[k]] == k)
    && (forall s :: s in owner ==> owner[s] in channelInfo && channelInfo[owner[s]] == s)
  }

  /** The command channels are among the channels. */
  ghost predicate Submap(custom: map<Key, int>, channelInfo: map<Key, int>) {
    forall k :: k in custom ==> k in channelInfo && custom[k] == channelInfo[k]
  }

  /** The socket vector lists, once each, the bound sockets other than the detection socket. */
  ghost predicate Listed(sockets: seq<int>, owner: map<int, Key>, detection: int) {
    Distinct(sockets) && (forall s :: s in sockets <==> s in owner && s != detection)
  }

  /** Command and data channels are different sockets of the vector. */
  ghost predicate Partitioned(commandChannel: set<int>, dataChannel: set<int>, sockets: seq<int>) {
    commandChannel !! dataChannel && (forall s :: s in commandChannel || s in dataChannel ==> s in sockets)
  }

  /** The broadcast sockets and the detection sockets are none of the vector's. */
  ghost predicate Separate(r: Registry) {
    && Distinct(r.broadcasts) && (forall s :: s in r.broadcasts ==> s !in r.owner && s !in DetectionSockets(r))
    && r.detectionBroadcast !in r.owner && (r.detection > 0 ==> r.detection != r.detectionBroadcast)
    && (forall s :: s in r.owner || s in r.broadcasts ==> s > 0)
  }

  /** Exactly the sockets the registry knows are open, and each is watched by one loop: a socket of
      the vector by the command loop if it is a command channel, else by the data loop, a view
      socket without being in the data channel. */
  ghost predicate Accounted(r: Registry) {
    && r.open == Elements(r.sockets) + Elements(r.broadcasts) + DetectionSockets(r)
    && r.commandDelegates == r.commandChannel + Elements(r.broadcasts)
    && r.dataChannel <= r.dataDelegates && r.dataDelegates !! r.commandChannel
    && r.commandChannel + r.dataDelegates == Elements(r.sockets)
    && r.detectionDelegates == DetectionSockets(r)
  }

  ghost predicate Consistent(r: Registry) {
    && Bijective(r.channelInfo, r.owner) && Submap(r.customCommand, r.channelInfo)
    && Listed(r.sockets, r.owner, r.detection) && Partitioned(r.commandChannel, r.dataChannel, r.sockets)
    && Separate(r) && Accounted(r)
  }

  /** A new socket bound to a new key. */
  function Bound(r: Registry, key: Key, sock: int): Registry {
    r.(sockets := r.sockets + [sock], channelInfo := r.channelInfo[key := sock], owner := r.owner[sock := key], open := r.open + {sock})
  }

  function BoundCommand(r: Registry, key: Key, sock: int): Registry {
    Bound(r, key, sock).(customCommand := r.customCommand[key := sock], commandChannel := r.commandChannel + {sock},
                         commandDelegates := r.commandDelegates + {sock})
  }

  function BoundData(r: Registry, key: Key, sock: int): Registry {
    Bound(r, key, sock).(dataChannel := r.dataChannel + {sock}, dataDelegates := r.dataDelegates + {sock})
  }

  function BoundView(r: Registry, key: Key, sock: int): Registry {
    Bound(r, key, sock).(dataDelegates := r.dataDelegates + {sock})
  }

  lemma ElementsOf(q: seq<int>, s: int)
    ensures Elements(q + [s]) == Elements(q) + {s}
    ensures Distinct(q) && s !in q ==> Distinct(q + [s])
  {}

  /** A socket that is not open is unknown to the registry. */
  lemma FreshSocket(r: Registry, sock: int)
    requires Consistent(r) && sock > 0 && sock !in r.open
    ensures sock !in r.owner && sock !in r.sockets && sock !in r.broadcasts && sock != r.detection && sock != r.detectionBroadcast
    ensures sock !in r.commandChannel && sock !in r.dataChannel && sock !in r.dataDelegates && sock !in r.commandDelegates
  {}

  lemma BijectiveBound(channelInfo: map<Key, int>, owner: map<int, Key>, key: Key, sock: int)
    requires Bijective(channelInfo, owner) && key !in channelInfo && sock !in owner
    ensures Bijective(channelInfo[key := sock], owner[sock := key])
  {}

  lemma ListedBound(sockets: seq<int>, owner: map<int, Key>, detection: int, key: Key, sock: int)
    requires Listed(sockets, owner, detection) && sock !in owner && sock != detection
    ensures Listed(sockets + [sock], owner[sock := key], detection)
  {}

  /** Binding a fresh socket to a new key keeps the registry consistent, as a command, data or view channel. */
  lemma BoundIsConsistent(r: Registry, key: Key, sock: int)
    requires Consistent(r) && sock > 0 && sock !in r.open && key !in r.channelInfo
    ensures Consistent(BoundCommand(r, key, sock)) && Consistent(BoundData(r, key, sock)) && Consistent(BoundView(r, key, sock))
  {
    FreshSocket(r, sock);
    BijectiveBound(r.channelInfo, r.owner, key, sock);
    ListedBound(r.sockets, r.owner, r.detection, key, sock);
    ElementsOf(r.sockets, sock);
    BoundSeparate(r, key, sock);
    BoundAccounted(r, key, sock);
    hide Bijective, Listed, Separate, Accounted;
  }

  lemma BoundSeparate(r: Registry, key: Key, sock: int)
    requires Separate(r) && sock > 0 && sock !in r.broadcasts && sock != r.detectionBroadcast
    ensures Separate(BoundCommand(r, key, sock)) && Separate(BoundData(r, key, sock)) && Separate(BoundView(r, key, sock))
  {}

  lemma BoundAccounted(r: Registry, key: Key, sock: int)
    requires Accounted(r) && sock !in r.commandChannel && sock !in r.dataDelegates
    ensures Accounted(BoundCommand(r, key, sock)) && Accounted(BoundData(r, key, sock)) && Accounted(BoundView(r, key, sock))
  {}

  /** Sharing an existing channel as a command channel. */
  lemma SharedIsConsistent(r: Registry, key: Key)
    requires Consistent(r) && key in r.channelInfo
    ensures Consistent(r.(customCommand := r.customCommand[key := r.channelInfo[key]]))
    ensures key in r.customCommand ==> r.customCommand[key := r.channelInfo[key]] == r.customCommand
  {
    hide Bijective, Listed, Separate, Accounted;
    SharedSame(r, r.(customCommand := r.customCommand[key := r.channelInfo[key]]));
  }

  lemma SharedSame(r: Registry, r': Registry)
    requires r' == r.(customCommand := r'.customCommand)
    ensures Separate(r) ==> Separate(r')
    ensures Accounted(r) ==> Accounted(r')
  {}

  /** The registry before any channel, with detection sockets b and d: none, the first, or both. */
  function Unbound(b: int, d: int, detectionSockets: set<int>): Registry {
    Registry(map[], map[], map[], [], {}, {}, [], d, b, {}, {}, detectionSockets, detectionSockets)
  }

  /** The registry once the detection socket is bound. */
  function Watching(b: int, d: int, key: Key): Registry {
    Unbound(b, d, {b} + {d}).(channelInfo := map[key := d], customCommand := map[key := d], owner := map[d := key])
  }

  lemma DetectionSetup(b: int, d: int, key: Key)
    ensures b <= 0 && d <= 0 ==> Consistent(Unbound(b, d, {}))
    ensures b > 0 && d <= 0 ==> Consistent(Unbound(b, d, {b}))
    ensures b > 0 && d > 0 && b != d ==>
              Consistent(Watching(b, d, key))
  {}

  /** What no creation of a channel undoes. */
  ghost predicate Grows(r: Registry, r': Registry) {
    && r'.detection == r.detection && r'.detectionBroadcast == r.detectionBroadcast
    && (forall k :: k in r.channelInfo ==> k in r'.channelInfo && r'.channelInfo[k] == r.channelInfo[k])
    && (forall k :: k in r.customCommand ==> k in r'.customCommand && r'.customCommand[k] == r.customCommand[k])
    && r.sockets <= r'.sockets && r.broadcasts <= r'.broadcasts
    && r.commandChannel <= r'.commandChannel && r.commandDelegates <= r'.commandDelegates
    && r.dataChannel <= r'.dataChannel && r.dataDelegates <= r'.dataDelegates
  }

  /** Every key bound since r has a socket that the data loop watches as a data channel. */
  ghost predicate NewAreData(r: Registry, r': Registry) {
    forall k :: k in r'.channelInfo && k !in r.channelInfo ==>
      r'.channelInfo[k] in r'.dataChannel && r'.channelInfo[k] in r'.dataDelegates
  }

  /** Or one that the command loop watches as a command channel. */
  ghost predicate NewAreCommand(r: Registry, r': Registry) {
    forall k :: k in r'.channelInfo && k !in r.channelInfo ==>
      r'.channelInfo[k] in r'.commandChannel && r'.channelInfo[k] in r'.commandDelegates && k in r'.customCommand
  }

  /** Or one of the two. */
  ghost predicate NewAreWatched(r: Registry, r': Registry) {
    forall k :: k in r'.channelInfo && k !in r.channelInfo ==>
      || (r'.channelInfo[k] in r'.dataChannel && r'.channelInfo[k] in r'.dataDelegates)
      || (r'.channelInfo[k] in r'.commandChannel && r'.channelInfo[k] in r'.commandDelegates && k in r'.customCommand)
  }

  lemma NewOn(r: Registry, r': Registry, r'': Registry)
    requires Grows(r, r') && Grows(r', r'')
    ensures NewAreData(r, r') && NewAreData(r', r'') ==> NewAreData(r, r'')
    ensures NewAreCommand(r, r') && NewAreCommand(r', r'') ==> NewAreCommand(r, r'')
    ensures NewAreWatched(r, r') && NewAreWatched(r', r'') ==> NewAreWatched(r, r'')
    ensures NewAreData(r, r') || NewAreCommand(r, r') ==> NewAreWatched(r, r')
  {}

  lemma NothingBound(r: Registry, r': Registry)
    requires r'.channelInfo == r.channelInfo
    ensures NewAreData(r, r') && NewAreCommand(r, r') && NewAreWatched(r, r')
  {}

  /** Every bound key but the detection key has a command or data channel. */
  ghost predicate AllWatched(r: Registry) {
    forall k :: k in r.channelInfo ==>
      || r.channelInfo[k] == r.detection
      || (r.channelInfo[k] in r.dataChannel && r.channelInfo[k] in r.dataDelegates)
      || (r.channelInfo[k] in r.commandChannel && r.channelInfo[k] in r.commandDelegates && k in r.customCommand)
  }

  lemma WatchedNew(b: int, d: int, key: Key, r': Registry)
    ensures AllWatched(Unbound(b, d, DetectionSockets(Unbound(b, d, {}))))
    ensures Grows(Watching(b, d, key), r') && NewAreWatched(Watching(b, d, key), r') ==> AllWatched(r')
  {}

  lemma NothingNew(r: Registry)
    ensures NewAreData(r, r) && NewAreCommand(r, r) && NewAreWatched(r, r)
  {}

  /** The socket of a bound key is open and watched by exactly one of the three loops. */
  lemma BoundIsWatched(r: Registry, key: Key)
    requires Consistent(r) && key in r.channelInfo
    ensures var s := r.channelInfo[key];
            && s in r.open && (s in r.commandDelegates || s in r.dataDelegates || s in r.detectionDelegates)
            && !(s in r.commandDelegates && s in r.dataDelegates) && !(s in r.commandDelegates && s in r.detectionDelegates)
            && !(s in r.dataDelegates && s in r.detectionDelegates)
  {
    var s := r.channelInfo[key];
    assert s in r.owner;
    assert s != r.detection ==> s in Elements(r.sockets);
    assert s in r.broadcasts <==> s in Elements(r.broadcasts);
  }

  /** Nothing was opened or closed; existing channels may have become command channels too. */
  predicate SameChannels(r: Registry, r': Registry) {
    r' == r.(customCommand := r'.customCommand)
  }

  lemma GrowsOn(r: Registry, r': Registry, r'': Registry)
    requires Grows(r, r') && Grows(r', r'')
    ensures Grows(r, r'')
  {}

  lemma GrowsSelf(r: Registry)
    ensures Grows(r, r)
  {}

  lemma BoundGrows(r: Registry, key: Key, sock: int)
    requires Consistent(r) && key !in r.channelInfo
    ensures Grows(r, BoundCommand(r, key, sock)) && Grows(r, BoundData(r, key, sock))
  {
    hide Bijective, Listed, Partitioned, Separate, Accounted;
  }

  /** A port that needs a data channel has one. */
  predicate DataPort(host: string, port: nat, channels: map<Key, int>) {
    host == "" || port == 0 || port == LOG_PORT || port == DETECTION_PORT || Key(host, port) in channels
  }

  predicate DataBound(net: HostNetInfo, channels: map<Key, int>) {
    DataPort(net.host, net.pointPort, channels) && DataPort(net.host, net.imuPort, channels)
    && DataPort(net.host, HOST_DEBUG_POINT_CLOUD_PORT, channels)
  }

  /** A port that needs a command channel has one. */
  predicate CommandPort(host: string, port: nat, channels: map<Key, int>) {
    host == "" || port == 0 || port == LOG_PORT || Key(host, port) in channels
  }

  lemma PortsGrow(host: string, port: nat, r: Registry, r': Registry)
    requires Grows(r, r')
    ensures DataPort(host, port, r.channelInfo) ==> DataPort(host, port, r'.channelInfo)
    ensures CommandPort(host, port, r.channelInfo) ==> CommandPort(host, port, r'.channelInfo)
    ensures CommandPort(host, port, r.customCommand) ==> CommandPort(host, port, r'.customCommand)
  {}

  predicate PlainCommandBound(c: Config, master: bool, channels: map<Key, int>) {
    && (master ==> CommandPort(c.net.host, c.net.cmdPort, channels))
    && CommandPort(c.net.host, c.net.pushPort, channels)
    && (c.deviceType == PA ==> CommandPort(c.net.host, PA_HOST_FAULT_PORT, channels))
  }

  lemma PlainGrows(c: Config, master: bool, r: Registry, r': Registry)
    requires Grows(r, r') && PlainCommandBound(c, master, r.customCommand)
    ensures PlainCommandBound(c, master, r'.customCommand)
  {}

  lemma FaultPort(c: Config, master: bool, channels: map<Key, int>)
    requires PlainCommandBound(c, master, channels)
    ensures c.deviceType == 16 && c.net.host != "" ==> Key(c.net.host, 42867) in channels
  {}

  predicate CommandBound(c: Config, master: bool, logEnabled: bool, channels: map<Key, int>) {
    && PlainCommandBound(c, master, channels)
    && (logEnabled ==> CommandPort(c.net.host, c.net.logPort, channels))
  }

  /** The first k configurations have all their channels. */
  ghost predicate AllBound(configs: seq<Config>, k: nat, master: bool, logEnabled: bool, channels: map<Key, int>)
    requires k <= |configs|
  {
    forall i :: 0 <= i < k ==> DataBound(configs[i].net, channels) && CommandBound(configs[i], master, logEnabled, channels)
  }

  function Mid360s(configs: seq<Config>, k: nat): nat
    requires k <= |configs|
  {
    if k == 0 then 0 else Mid360s(configs, k - 1) + (if IsMid360(configs[k - 1]) then 1 else 0)
  }

  lemma BoundGrown(c: Config, master: bool, logEnabled: bool, r: Registry, r': Registry)
    requires Grows(r, r')
    ensures DataBound(c.net, r.channelInfo) ==> DataBound(c.net, r'.channelInfo)
    ensures CommandBound(c, master, logEnabled, r.channelInfo) ==> CommandBound(c, master, logEnabled, r'.channelInfo)
  {}

  lemma CustomIsChannel(r: Registry)
    requires Consistent(r)
    ensures forall k :: k in r.customCommand ==> k in r.channelInfo
  {}

  lemma OneMoreBound(configs: seq<Config>, i: nat, master: bool, logEnabled: bool, r: Registry, r': Registry, r'': Registry)
    requires i < |configs| && AllBound(configs, i, master, logEnabled, r.channelInfo) && Grows(r, r'') && Grows(r', r'')
    requires DataBound(configs[i].net, r'.channelInfo) && CommandBound(configs[i], master, logEnabled, r''.customCommand)
    requires forall k :: k in r''.customCommand ==> k in r''.channelInfo
    ensures AllBound(configs, i + 1, master, logEnabled, r''.channelInfo)
  {
    BoundGrown(configs[i], master, logEnabled, r', r'');
    forall j | 0 <= j < i
      ensures DataBound(configs[j].net, r''.channelInfo) && CommandBound(configs[j], master, logEnabled, r''.channelInfo)
    {
      BoundGrown(configs[j], master, logEnabled, r, r'');
    }
  }

  lemma CommandIsOpen(r: Registry, key: Key)
    requires Consistent(r) && key in r.customCommand
    ensures var s := r.customCommand[key]; s in r.owner && r.owner[s] == key && s in r.open
  {
    var s := r.customCommand[key];
    assert s in r.owner;
    assert s != r.detection ==> s in Elements(r.sockets);
  }

  /** The parts of the open sockets are disjoint, and each is listed once. */
  lemma Parts(r: Registry)
    requires Consistent(r)
    ensures Distinct(r.sockets) && Distinct(r.broadcasts) && r.open == Elements(r.sockets) + Elements(r.broadcasts) + DetectionSockets(r)
    ensures Elements(r.sockets) !! Elements(r.broadcasts) + DetectionSockets(r) && Elements(r.broadcasts) !! DetectionSockets(r)
    ensures r.detection > 0 ==> r.detection != r.detectionBroadcast
    ensures r.commandDelegates == r.commandChannel + Elements(r.broadcasts) && r.detectionDelegates == DetectionSockets(r)
  {}

  lemma FirstOut(q: seq<int>, i: nat)
    requires i < |q| && Distinct(q)
    ensures Elements(q[i..]) == Elements(q[i + 1..]) + {q[i]} && q[i] !in Elements(q[i + 1..])
  {}

  /** One more broadcast socket. */
  lemma BroadcastIsConsistent(r: Registry, sock: int)
    requires Consistent(r) && sock > 0 && sock !in r.open
    ensures Consistent(r.(broadcasts := r.broadcasts + [sock], commandDelegates := r.commandDelegates + {sock}, open := r.open + {sock}))
  {
    FreshSocket(r, sock);
    ElementsOf(r.broadcasts, sock);
  }

  class Manager {
    const table: SocketTable
    const master: bool
    const logEnabled: bool
    var host: string
    var channelInfo: map<Key, int>
    var customCommand: map<Key, int>
    var sockets: seq<int>
    var commandChannel: set<int>
    var dataChannel: set<int>
    var broadcasts: seq<int>
    var detection: int
    var detectionBroadcast: int
    var detecting: bool
    var commandDelegates: set<int>
    var dataDelegates: set<int>
    var detectionDelegates: set<int>
    /** For each bound socket, the key it is bound to. */
    ghost var owner: map<int, Key>

    ghost function State(): Registry
      reads this, table
    {
      Registry(channelInfo, customCommand, owner, sockets, commandChannel, dataChannel, broadcasts, detection, detectionBroadcast,
               commandDelegates, dataDelegates, detectionDelegates, table.open)
    }

    ghost predicate Valid()
      reads this, table
    {
      table.Valid() && Consistent(State())
    }

    /** Nothing has been set up, or everything has been taken down. */
    ghost predicate Fresh()
      reads this, table
    {
      && table.Valid() && channelInfo == map[] == customCommand && owner == map[] && sockets == [] == broadcasts
      && commandChannel == {} == dataChannel && detection <= 0 && detectionBroadcast <= 0 && !detecting
      && commandDelegates == {} == dataDelegates && detectionDelegates == {} && table.open == {}
    }

    constructor (t: SocketTable, hostIp: string, masterSdk: bool, logging: bool)
      requires t.Valid() && t.open == {}
      ensures Fresh() && Valid() && table == t && host == hostIp && master == masterSdk && logEnabled == logging
    {
      table, host, master, logEnabled := t, hostIp, masterSdk, logging;
      channelInfo, customCommand, sockets, broadcasts := map[], map[], [], [];
      commandChannel, dataChannel, detection, detectionBroadcast, detecting := {}, {}, 0, 0, false;
      commandDelegates, dataDelegates, detectionDelegates := {}, {}, {};
      owner := map[];
    }

    /** Sets up the two detection sockets; when the second fails the first stays open. */
    method CreateDetectionChannel() returns (ok: bool)
      requires Fresh()
      modifies this`detection, this`detectionBroadcast, this`detectionDelegates, this`channelInfo, this`customCommand, this`owner, table
      ensures Valid() && table.refused == old(table.refused) + (if ok then 0 else 1)
      ensures ok ==> detection > 0 && detectionBroadcast > 0
                     && State() == Watching(detectionBroadcast, detection, Key(host, DETECTION_PORT))
      ensures ok ==> channelInfo == map[Key(host, 56000) := detection] == customCommand
                     && detectionDelegates == {detection, detectionBroadcast} == table.open
      ensures !ok ==> detection <= 0 && State() == Unbound(detectionBroadcast, detection, DetectionSockets(State()))
    {
      hide Consistent, Bijective, Submap, Listed, Partitioned, Separate, Accounted, Elements, Distinct;
      detectionBroadcast := table.Create();
      DetectionSetup(detectionBroadcast, detection, Key(host, DETECTION_PORT));
      if detectionBroadcast < 0 {
        return false;
      }
      detectionDelegates := detectionDelegates + {detectionBroadcast};
      ok := CreateDetectionSocket();
    }

    method CreateDetectionSocket() returns (ok: bool)
      requires table.Valid() && detectionBroadcast > 0 && detection <= 0
      requires State() == Unbound(detectionBroadcast, detection, {detectionBroadcast})
      modifies this`detection, this`detectionDelegates, this`channelInfo, this`customCommand, this`owner, table
      ensures Valid() && table.refused == old(table.refused) + (if ok then 0 else 1)
      ensures ok ==> detection > 0 && State() == Watching(detectionBroadcast, detection, Key(host, DETECTION_PORT))
      ensures !ok ==> detection <= 0 && State() == Unbound(detectionBroadcast, detection, {detectionBroadcast})
    {
      hide Consistent, Bijective, Submap, Listed, Partitioned, Separate, Accounted, Elements, Distinct, DetectionSockets;
      var key := Key(host, DETECTION_PORT);
      detection := table.Create();
      DetectionSetup(detectionBroadcast, detection, key);
      if detection < 0 {
        return false;
      }
      detectionDelegates := detectionDelegates + {detection};
      channelInfo := channelInfo[key := detection];
      owner := owner[detection := key];
      if key !in customCommand {
        customCommand := customCommand[key := detection];
      }
      ghost var s := State();
      assert s == Watching(detectionBroadcast, detection, key);
      return true;
    }

    /** A command channel: an existing binding of the key is shared, whatever made it. */
    method CreateCommandSocket(hostIp: string, port: nat) returns (ok: bool)
      requires Valid()
      modifies this`sockets, this`channelInfo, this`owner, this`commandChannel, this`customCommand, this`commandDelegates, table
      ensures Valid() && table.refused == old(table.refused) + (if ok then 0 else 1)
      ensures var key := Key(hostIp, port);
              if hostIp == "" || port == 0 then ok && State() == old(State())
              else if key in old(channelInfo) then
                ok && State() == old(State()).(customCommand := old(customCommand)[key := old(channelInfo)[key]])
              else if ok then
                && key in channelInfo
                && var s := channelInfo[key];
                && s > 0 && s !in old(table.open) && table.open == old(table.open) + {s} && sockets == old(sockets) + [s]
                && channelInfo == old(channelInfo)[key := s] && customCommand == old(customCommand)[key := s]
                && commandChannel == old(commandChannel) + {s} && commandDelegates == old(commandDelegates) + {s}
              else State() == old(State())
      ensures NewAreCommand(old(State()), State())
      ensures Grows(old(State()), State()) && (ok ==> CommandPort(hostIp, port, customCommand))
      ensures CommandPort(hostIp, port, old(channelInfo)) ==> ok && SameChannels(old(State()), State())
    {
      hide Consistent, Bijective, Submap, Listed, Partitioned, Separate, Accounted, Elements, Distinct, DetectionSockets;
      if hostIp == "" || port == 0 || port == LOG_PORT {
        return true;
      }
      var key := Key(hostIp, port);
      if key in channelInfo {
        SharedIsConsistent(State(), key);
        if key !in customCommand {
          customCommand := customCommand[key := channelInfo[key]];
        }
        return true;
      }
      var sock := table.Create();
      if sock < 0 {
        return false;
      }
      AddCommand(old(State()), key, sock);
      BoundGrows(old(State()), key, sock);
      return true;
    }

    /** The bookkeeping for the new socket. */
    method AddCommand(ghost before: Registry, key: Key, sock: int)
      requires table.Valid() && Consistent(before) && sock > 0 && sock !in before.open && key !in before.channelInfo
      requires State() == before.(open := before.open + {sock})
      modifies this`sockets, this`channelInfo, this`owner, this`commandChannel, this`customCommand, this`commandDelegates
      ensures Valid() && State() == BoundCommand(before, key, sock)
    {
      hide Consistent, Bijective, Submap, Listed, Partitioned, Separate, Accounted, Elements, Distinct, DetectionSockets;
      BoundIsConsistent(before, key, sock);
      sockets := sockets + [sock];
      channelInfo := channelInfo[key := sock];
      owner := owner[sock := key];
      commandChannel := commandChannel + {sock};
      customCommand := customCommand[key := sock];
      commandDelegates := commandDelegates + {sock};
    }

    /** A data channel; the detection port is none. */
    method CreateDataSocket(hostIp: string, port: nat) returns (ok: bool)
      requires Valid()
      modifies this`sockets, this`channelInfo, this`owner, this`dataChannel, this`dataDelegates, table
      ensures Valid() && table.refused == old(table.refused) + (if ok then 0 else 1)
      ensures var key := Key(hostIp, port);
              if hostIp == "" || port == 0 || port == 56000 || key in old(channelInfo) then
                ok && State() == old(State())
              else if ok then
                && key in channelInfo
                && var s := channelInfo[key];
                && s > 0 && s !in old(table.open) && table.open == old(table.open) + {s} && sockets == old(sockets) + [s]
                && channelInfo == old(channelInfo)[key := s]
                && dataChannel == old(dataChannel) + {s} && dataDelegates == old(dataDelegates) + {s}
              else State() == old(State())
      ensures NewAreData(old(State()), State())
      ensures Grows(old(State()), State()) && (ok ==> DataPort(hostIp, port, channelInfo))
      ensures DataPort(hostIp, port, old(channelInfo)) ==> ok && State() == old(State())
    {
      hide Consistent, Bijective, Submap, Listed, Partitioned, Separate, Accounted, Elements, Distinct, DetectionSockets;
      if hostIp == "" || port == 0 || port == LOG_PORT || port == DETECTION_PORT {
        return true;
      }
      var key := Key(hostIp, port);
      if key in channelInfo {
        return true;
      }
      var sock := table.Create();
      if sock < 0 {
        return false;
      }
      AddData(old(State()), key, sock);
      return true;
    }

    /** The bookkeeping for the new socket. */
    method AddData(ghost before: Registry, key: Key, sock: int)
      requires table.Valid() && Consistent(before) && sock > 0 && sock !in before.open && key !in before.channelInfo
      requires State() == before.(open := before.open + {sock})
      modifies this`sockets, this`channelInfo, this`owner, this`dataChannel, this`dataDelegates
      ensures Valid() && State() == BoundData(before, key, sock)
    {
      hide Consistent, Bijective, Submap, Listed, Partitioned, Separate, Accounted, Elements, Distinct, DetectionSockets;
      BoundIsConsistent(before, key, sock);
      sockets := sockets + [sock];
      channelInfo := channelInfo[key := sock];
      owner := owner[sock := key];
      dataChannel := dataChannel + {sock};
      dataDelegates := dataDelegates + {sock};
    }

    /** One of the two channels of a viewed lidar: whatever its port, and outside the data channel. */
    method CreateViewSocket(hostIp: string, port: nat) returns (ok: bool)
      requires Valid()
      modifies this`sockets, this`channelInfo, this`owner, this`dataDelegates, table
      ensures Valid() && table.refused == old(table.refused) + (if ok then 0 else 1)
      ensures var key := Key(hostIp, port);
              if key in old(channelInfo) then ok && State() == old(State())
              else if ok then
                && key in channelInfo
                && var s := channelInfo[key];
                && s > 0 && s !in old(table.open) && table.open == old(table.open) + {s} && sockets == old(sockets) + [s]
                && channelInfo == old(channelInfo)[key := s] && dataDelegates == old(dataDelegates) + {s} && s !in dataChannel
              else State() == old(State())
      ensures Grows(old(State()), State())
    {
      hide Consistent, Bijective, Submap, Listed, Partitioned, Separate, Accounted, Elements, Distinct, DetectionSockets;
      var key := Key(hostIp, port);
      if key in channelInfo {
        return true;
      }
      var sock := table.Create();
      if sock < 0 {
        return false;
      }
      AddView(old(State()), key, sock);
      return true;
    }

    /** The bookkeeping for the new socket. */
    method AddView(ghost before: Registry, key: Key, sock: int)
      requires table.Valid() && Consistent(before) && sock > 0 && sock !in before.open && key !in before.channelInfo
      requires State() == before.(open := before.open + {sock})
      modifies this`sockets, this`channelInfo, this`owner, this`dataDelegates
      ensures Valid() && State() == BoundView(before, key, sock) && sock !in dataChannel
    {
      hide Consistent, Bijective, Submap, Listed, Partitioned, Separate, Accounted, Elements, Distinct, DetectionSockets;
      FreshSocket(before, sock);
      BoundIsConsistent(before, key, sock);
      sockets := sockets + [sock];
      channelInfo := channelInfo[key := sock];
      owner := owner[sock := key];
      dataDelegates := dataDelegates + {sock};
    }

    /** The channels of a viewed lidar; a failure of the first leaves out the second. */
    method CreateViewDataChannel(hostIp: string, pointPort: nat, imuPort: nat)
      requires Valid()
      modifies this`sockets, this`channelInfo, this`owner, this`dataDelegates, table
      ensures Valid() && Grows(old(State()), State())
      ensures table.refused == old(table.refused) ==> Key(hostIp, pointPort) in channelInfo && Key(hostIp, imuPort) in channelInfo
      ensures table.refused != old(table.refused) ==>
                table.refused == old(table.refused) + 1 && !(Key(hostIp, pointPort) in channelInfo && Key(hostIp, imuPort) in channelInfo)
      ensures forall k :: k in channelInfo && k !in old(channelInfo) ==>
                && (k == Key(hostIp, pointPort) || k == Key(hostIp, imuPort))
                && channelInfo[k] in table.open && channelInfo[k] !in old(table.open)
                && channelInfo[k] in dataDelegates && channelInfo[k] !in dataChannel
      ensures |sockets| <= |old(sockets)| + 2
      ensures Key(hostIp, pointPort) in old(channelInfo) && Key(hostIp, imuPort) in old(channelInfo) ==> State() == old(State())
    {
      hide Consistent, Bijective, Submap, Listed, Partitioned, Separate, Accounted, Elements, Distinct, DetectionSockets;
      var ok := CreateViewSocket(hostIp, pointPort);
      if ok {
        ghost var s := State();
        ok := CreateViewSocket(hostIp, imuPort);
        assert Grows(s, State());
      }
    }

    method CreateDataChannel(net: HostNetInfo) returns (ok: bool)
      requires Valid()
      modifies this`sockets, this`channelInfo, this`owner, this`dataChannel, this`dataDelegates, table
      ensures Valid() && Grows(old(State()), State()) && broadcasts == old(broadcasts)
      ensures table.refused == old(table.refused) + (if ok then 0 else 1)
      ensures NewAreData(old(State()), State())
      ensures ok ==> DataBound(net, channelInfo) && (net.host != "" ==> Key(net.host, 44332) in channelInfo)
      ensures DataBound(net, old(channelInfo)) ==> ok && State() == old(State())
    {
      hide Consistent, Bijective, Submap, Listed, Partitioned, Separate, Accounted, Elements, Distinct, DetectionSockets,
        Grows, BoundData, DataPort, NewAreData, NewAreCommand, NewAreWatched;
      ok := CreateDataSocket(net.host, net.pointPort);
      if !ok {
        return;
      }
      ghost var s1 := State();
      ok := CreateDataSocket(net.host, net.imuPort);
      ghost var s2 := State();
      GrowsOn(old(State()), s1, s2);
      NewOn(old(State()), s1, s2);
      PortsGrow(net.host, net.pointPort, s1, s2);
      if !ok {
        return;
      }
      ok := CreateDataSocket(net.host, HOST_DEBUG_POINT_CLOUD_PORT);
      GrowsOn(old(State()), s2, State());
      NewOn(old(State()), s2, State());
      PortsGrow(net.host, net.pointPort, s2, State());
      PortsGrow(net.host, net.imuPort, s2, State());
    }

    /** The broadcast socket of a Mid360: a new one with every call. */
    method CreateBroadcastSocket() returns (ok: bool)
      requires Valid()
      modifies this`broadcasts, this`commandDelegates, table
      ensures Valid() && Grows(old(State()), State())
      ensures table.refused == old(table.refused) + (if ok then 0 else 1)
      ensures ok ==> |broadcasts| == |old(broadcasts)| + 1 && commandDelegates == old(commandDelegates) + {broadcasts[|broadcasts| - 1]}
      ensures !ok ==> State() == old(State())
    {
      hide Consistent, Bijective, Submap, Listed, Partitioned, Separate, Accounted, Elements, Distinct, DetectionSockets;
      var sock := table.Create();
      if sock < 0 {
        return false;
      }
      BroadcastIsConsistent(old(State()), sock);
      broadcasts := broadcasts + [sock];
      commandDelegates := commandDelegates + {sock};
      return true;
    }

    /** The command, push and, for one type, fault channels. */
    method CreatePlainCommandChannels(c: Config) returns (ok: bool)
      requires Valid()
      modifies this`sockets, this`channelInfo, this`owner, this`commandChannel, this`customCommand, this`commandDelegates, table
      ensures Valid() && Grows(old(State()), State()) && broadcasts == old(broadcasts)
      ensures table.refused == old(table.refused) + (if ok then 0 else 1)
      ensures NewAreCommand(old(State()), State())
      ensures ok ==> PlainCommandBound(c, master, customCommand)
      ensures PlainCommandBound(c, master, old(channelInfo)) ==> ok && SameChannels(old(State()), State())
    {
      hide Consistent, Bijective, Submap, Listed, Partitioned, Separate, Accounted, Elements, Distinct, DetectionSockets,
        Grows, BoundCommand, CommandPort, NewAreData, NewAreCommand, NewAreWatched;
      var net := c.net;
      ghost var s0 := State();
      GrowsSelf(s0);
      if master {
        ok := CreateCommandSocket(net.host, net.cmdPort);
        if !ok {
          return;
        }
      } else {
        NothingNew(s0);
      }
      ghost var s1 := State();
      PortsGrow(net.host, net.pushPort, s0, s1);
      ok := CreateCommandSocket(net.host, net.pushPort);
      ghost var s2 := State();
      GrowsOn(s0, s1, s2);
      NewOn(s0, s1, s2);
      PortsGrow(net.host, net.cmdPort, s1, s2);
      if ok && c.deviceType == PA {
        PortsGrow(net.host, PA_HOST_FAULT_PORT, s0, s2);
        ok := CreateCommandSocket(net.host, PA_HOST_FAULT_PORT);
        GrowsOn(s0, s2, State());
        NewOn(s0, s2, State());
        PortsGrow(net.host, net.cmdPort, s2, State());
        PortsGrow(net.host, net.pushPort, s2, State());
      }
    }

    method CreateCommandChannel(c: Config) returns (ok: bool)
      requires Valid()
      modifies this`sockets, this`channelInfo, this`owner, this`commandChannel, this`customCommand, this`commandDelegates, this`broadcasts, table
      ensures Valid() && Grows(old(State()), State())
      ensures table.refused == old(table.refused) + (if ok then 0 else 1)
      ensures NewAreCommand(old(State()), State())
      ensures ok ==> CommandBound(c, master, logEnabled, customCommand)
      ensures ok ==> |broadcasts| == |old(broadcasts)| + (if c.deviceType == 9 || c.deviceType == 35 then 1 else 0)
      ensures ok && c.deviceType == 16 && c.net.host != "" ==> Key(c.net.host, 42867) in customCommand
      ensures CommandBound(c, master, logEnabled, old(channelInfo)) ==>
                sockets == old(sockets) && channelInfo == old(channelInfo) && (!ok ==> IsMid360(c) && broadcasts == old(broadcasts))
    {
      hide Consistent, Bijective, Submap, Listed, Partitioned, Separate, Accounted, Elements, Distinct, DetectionSockets,
        Grows, BoundCommand, CommandPort, PlainCommandBound, NewAreData, NewAreCommand, NewAreWatched;
      ghost var s0 := State();
      ok := CreatePlainCommandChannels(c);
      ghost var s1 := State();
      if !ok {
        return;
      }
      if IsMid360(c) {
        ok := CreateBroadcastSocket();
        GrowsOn(s0, s1, State());
        NothingBound(s1, State());
        NewOn(s0, s1, State());
        PlainGrows(c, master, s1, State());
        if !ok {
          return;
        }
      }
      ghost var s2 := State();
      if logEnabled {
        PortsGrow(c.net.host, c.net.logPort, s0, s2);
        ok := CreateCommandSocket(c.net.host, c.net.logPort);
        GrowsOn(s0, s2, State());
        NewOn(s0, s2, State());
        PlainGrows(c, master, s2, State());
      }
      if ok {
        FaultPort(c, master, customCommand);
      }
    }

    /** All channels of all configured lidars, stopping at the first failure. Where every
        channel exists already, this opens one broadcast socket per Mid360 and nothing else. */
    method CreateChannels(configs: seq<Config>) returns (ok: bool)
      requires Valid()
      modifies this`sockets, this`channelInfo, this`owner, this`commandChannel, this`customCommand, this`commandDelegates,
               this`broadcasts, this`dataChannel, this`dataDelegates, table
      ensures Valid() && Grows(old(State()), State())
      ensures table.refused == old(table.refused) + (if ok then 0 else 1)
      ensures NewAreWatched(old(State()), State())
      ensures ok ==> AllBound(configs, |configs|, master, logEnabled, channelInfo) && |broadcasts| == |old(broadcasts)| + Mid360s(configs, |configs|)
      ensures AllBound(configs, |configs|, master, logEnabled, old(channelInfo)) ==> sockets == old(sockets) && channelInfo == old(channelInfo)
    {
      hide Consistent, Bijective, Submap, Listed, Partitioned, Separate, Accounted, Elements, Distinct, DetectionSockets, Grows, DataBound, CommandBound, SameChannels,
        NewAreData, NewAreCommand, NewAreWatched;
      ghost var s0 := State();
      GrowsSelf(s0);
      NothingNew(s0);
      var i := 0;
      while i < |configs|
        invariant i <= |configs| && Valid() && Grows(s0, State()) && NewAreWatched(s0, State()) && table.refused == old(table.refused)
        invariant AllBound(configs, i, master, logEnabled, channelInfo)
        invariant |broadcasts| == |s0.broadcasts| + Mid360s(configs, i)
        invariant AllBound(configs, |configs|, master, logEnabled, s0.channelInfo) ==> sockets == s0.sockets && channelInfo == s0.channelInfo
      {
        ghost var s1 := State();
        ok := CreateDataChannel(configs[i].net);
        ghost var s2 := State();
        GrowsOn(s0, s1, s2);
        NewOn(s0, s1, s2);
        NewOn(s1, s2, s2) by { GrowsSelf(s2); }
        if !ok {
          return;
        }
        ok := CreateCommandChannel(configs[i]);
        GrowsOn(s0, s2, State());
        GrowsOn(s1, s2, State());
        NewOn(s2, State(), State()) by { GrowsSelf(State()); }
        NewOn(s0, s2, State());
        if !ok {
          return;
        }
        OneMoreBound(configs, i, master, logEnabled, s1, s2, State()) by { CustomIsChannel(State()); }
        i := i + 1;
      }
      return true;
    }

    lemma FreshIsValid()
      requires Fresh()
      ensures Valid()
    {}

    /** The detection channel and all configured ones, stopping at the first failure. */
    method CreateChannel(configs: seq<Config>) returns (ok: bool)
      requires Fresh()
      modifies this`detection, this`detectionBroadcast, this`detectionDelegates, this`sockets, this`channelInfo, this`owner, this`commandChannel,
               this`customCommand, this`commandDelegates, this`broadcasts, this`dataChannel, this`dataDelegates, table
      ensures Valid() && table.refused == old(table.refused) + (if ok then 0 else 1)
      ensures ok ==> AllBound(configs, |configs|, master, logEnabled, channelInfo) && |broadcasts| == Mid360s(configs, |configs|)
      ensures AllWatched(State())
      ensures ok ==> detection > 0 && detectionBroadcast > 0 && Key(host, DETECTION_PORT) in channelInfo && channelInfo[Key(host, DETECTION_PORT)] == detection
    {
      hide Consistent, Bijective, Submap, Listed, Partitioned, Separate, Accounted, Elements, Distinct, DetectionSockets, AllBound, Mid360s;
      ok := CreateDetectionChannel();
      if ok {
        ok := CreateChannels(configs);
      }
    }

    /** Sets up detection and the configured channels, and starts the detection thread. Detection
        is on the host of the first configuration, by type or else by lidar; there must be one.
        `prepared` is the outcome of the steps before the channels, which open no socket. */
    method Init(types: seq<Config>, configs: seq<Config>, prepared: bool) returns (ok: bool)
      requires Fresh()
      modifies this, table
      ensures Valid() && (ok <==> detecting)
      ensures host == if types != [] then types[0].net.host else if configs != [] then configs[0].net.host else old(host)
      ensures if (types == [] == configs) || !prepared then !ok && State() == old(State()) && table.refused == old(table.refused)
              else table.refused == old(table.refused) + (if ok then 0 else 1) && AllWatched(State())
      ensures ok ==> AllBound(configs, |configs|, master, logEnabled, channelInfo) && |broadcasts| == Mid360s(configs, |configs|)
      ensures ok ==> detection > 0 && detectionBroadcast > 0 && Key(host, DETECTION_PORT) in channelInfo && channelInfo[Key(host, DETECTION_PORT)] == detection
    {
      hide Consistent, Bijective, Submap, Listed, Partitioned, Separate, Accounted, Elements, Distinct, DetectionSockets, AllBound, Mid360s;
      FreshIsValid();
      if types != [] {
        host := types[0].net.host;
      } else if configs != [] {
        host := configs[0].net.host;
      } else {
        return false;
      }
      if !prepared {
        return false;
      }
      ok := CreateChannel(configs);
      detecting := ok;
    }

    /** View mode: detection on the given host, and no channel until a lidar has been found. */
    method InitView(hostIp: string, prepared: bool) returns (ok: bool)
      requires Fresh()
      modifies this, table
      ensures Valid() && (ok <==> detecting) && host == hostIp
      ensures if !prepared then !ok && State() == old(State()) && table.refused == old(table.refused)
              else table.refused == old(table.refused) + (if ok then 0 else 1)
      ensures ok ==> detection > 0 && detectionBroadcast > 0
                     && State() == Watching(detectionBroadcast, detection, Key(hostIp, DETECTION_PORT))
      ensures !ok ==> detection <= 0 && State() == Unbound(detectionBroadcast, detection, DetectionSockets(State()))
    {
      hide Consistent, Bijective, Submap, Listed, Partitioned, Separate, Accounted, Elements, Distinct;
      FreshIsValid();
      host := hostIp;
      if !prepared {
        return false;
      }
      ok := CreateDetectionChannel();
      detecting := ok;
    }

    /** After a successful Init of either kind, Destory leaves no socket open. */
    method InitAndDestory(view: bool, hostIp: string, types: seq<Config>, configs: seq<Config>, prepared: bool) returns (ok: bool)
      requires Fresh()
      modifies this, table
      ensures ok ==> table.open == {} && commandDelegates == {} == detectionDelegates
    {
      if view {
        ok := InitView(hostIp, prepared);
      } else {
        ok := Init(types, configs, prepared);
      }
      Destory();
    }

    /** Creating the channels again, as each newly found lidar makes the manager do. */
    method CreateChannelsTwice(configs: seq<Config>) returns (ok: bool, ghost first: Registry)
      requires Valid()
      modifies this`sockets, this`channelInfo, this`owner, this`commandChannel, this`customCommand, this`commandDelegates,
               this`broadcasts, this`dataChannel, this`dataDelegates, table
      ensures Valid() && Grows(old(State()), first) && Grows(first, State())
      ensures table.refused == old(table.refused) + (if ok then 0 else 1)
      ensures ok ==> sockets == first.sockets && channelInfo == first.channelInfo
      ensures ok ==> |broadcasts| == |first.broadcasts| + Mid360s(configs, |configs|)
    {
      ok := CreateChannels(configs);
      first := State();
      GrowsSelf(first);
      if ok {
        ok := CreateChannels(configs);
      }
    }

    /** The socket over which commands to a lidar go, found by its handle: open, and bound to the
        key of its configuration. */
    method GetCommandChannel(custom: map<nat, Config>, handle: nat) returns (found: bool, sock: int)
      requires Valid()
      ensures found <==> handle in custom && Key(custom[handle].net.host, custom[handle].net.cmdPort) in customCommand
      ensures !found ==> sock == -1
      ensures found ==>
                var key := Key(custom[handle].net.host, custom[handle].net.cmdPort);
                sock == customCommand[key] && sock in table.open && sock in owner && owner[sock] == key
    {
      if handle in custom {
        var key := Key(custom[handle].net.host, custom[handle].net.cmdPort);
        if key in customCommand {
          CommandIsOpen(State(), key);
          return true, customCommand[key];
        }
      }
      return false, -1;
    }

    /** Without such a channel a command goes over the detection socket. */
    method SendCommand(custom: map<nat, Config>, handle: nat) returns (sock: int)
      requires Valid()
      ensures detection > 0 ==> sock in table.open
      ensures if handle in custom && Key(custom[handle].net.host, custom[handle].net.cmdPort) in customCommand
              then sock in owner && owner[sock] == Key(custom[handle].net.host, custom[handle].net.cmdPort)
              else sock == detection
    {
      var found;
      found, sock := GetCommandChannel(custom, handle);
      if !found {
        sock := detection;
      }
    }

    /** Closes a vector of sockets, leaving the rest open. */
    method CloseAll(q: seq<int>, ghost rest: set<int>)
      requires table.Valid() && Distinct(q) && Elements(q) !! rest && table.open == Elements(q) + rest
      modifies table
      ensures table.Valid() && table.open == rest
    {
      var i := 0;
      while i < |q|
        invariant i <= |q| && table.Valid() && table.open == Elements(q[i..]) + rest
      {
        FirstOut(q, i);
        table.Close(q[i]);
        i := i + 1;
      }
    }

    /** Takes everything down. Every socket is closed exactly once; but the detection sockets only
        when the detection thread was started, and the loop's interest in view sockets remains. */
    method Destory()
      requires Valid()
      modifies this, table
      ensures table.Valid() && channelInfo == map[] == customCommand && sockets == [] == broadcasts && commandChannel == {} == dataChannel
      ensures table.open == if old(detecting) then {} else old(DetectionSockets(State()))
      ensures commandDelegates == {} == detectionDelegates && dataDelegates == old(dataDelegates) - old(dataChannel) && !detecting
      ensures old(detecting) ==> detection <= 0 && detectionBroadcast <= 0
      ensures host == ""
    {
      TakeDown();
      host := "";
      channelInfo, customCommand, commandChannel, dataChannel := map[], map[], {}, {};
      owner := map[];
    }

    method TakeDown()
      requires Valid()
      modifies this`detectionDelegates, this`commandDelegates, this`dataDelegates, this`sockets, this`broadcasts,
               this`detecting, this`detection, this`detectionBroadcast, table
      ensures table.Valid() && sockets == [] == broadcasts && !detecting
      ensures table.open == if old(detecting) then {} else old(DetectionSockets(State()))
      ensures commandDelegates == {} == detectionDelegates && dataDelegates == old(dataDelegates) - dataChannel
      ensures old(detecting) ==> detection <= 0 && detectionBroadcast <= 0
    {
      hide Consistent, Bijective, Submap, Listed, Partitioned, Separate, Accounted, Distinct, Elements;
      Parts(State());
      ghost var watched := DetectionSockets(State());
      RemoveDelegates();
      CloseChannels(watched);
      if detecting {
        CloseDetection();
      }
    }

    /** The loops stop watching the sockets of each kind. */
    method RemoveDelegates()
      requires commandDelegates == commandChannel + Elements(broadcasts) && detectionDelegates == DetectionSockets(State())
      modifies this`detectionDelegates, this`commandDelegates, this`dataDelegates
      ensures commandDelegates == {} == detectionDelegates && dataDelegates == old(dataDelegates) - dataChannel
    {
      if detection > 0 {
        detectionDelegates := detectionDelegates - {detection};
      }
      if detectionBroadcast > 0 {
        detectionDelegates := detectionDelegates - {detectionBroadcast};
      }
      commandDelegates := commandDelegates - commandChannel;
      commandDelegates := commandDelegates - Elements(broadcasts);
      dataDelegates := dataDelegates - dataChannel;
    }

    method CloseChannels(ghost watched: set<int>)
      requires table.Valid() && Distinct(sockets) && Distinct(broadcasts) && table.open == Elements(sockets) + Elements(broadcasts) + watched
      requires Elements(sockets) !! Elements(broadcasts) + watched && Elements(broadcasts) !! watched
      modifies this`sockets, this`broadcasts, table
      ensures table.Valid() && table.open == watched && sockets == [] == broadcasts
    {
      CloseAll(sockets, Elements(broadcasts) + watched);
      sockets := [];
      CloseAll(broadcasts, watched);
      broadcasts := [];
    }

    /** The detection thread has been joined; its sockets are closed. */
    method CloseDetection()
      requires table.Valid() && table.open == (if detection > 0 then {detection} else {}) + (if detectionBroadcast > 0 then {detectionBroadcast} else {})
      requires detection > 0 ==> detection != detectionBroadcast
      modifies this`detecting, this`detection, this`detectionBroadcast, table
      ensures table.Valid() && table.open == {} && !detecting && detection <= 0 && detectionBroadcast <= 0
    {
      detecting := false;
      if detection > 0 {
        table.Close(detection);
        detection := -1;
      }
      if detectionBroadcast > 0 {
        table.Close(detectionBroadcast);
        detectionBroadcast := -1;
      }
    }
  }
}
