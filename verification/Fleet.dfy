/** The registry of host agents (apps/server/src/fleet.ts). */
module Fleet {
  import opened Requests

  /** Higher wins when two agents claim the same machine. */
  function Rank(m: Mode): nat {
    match m
    case Live => 1
    case Installed => 2
    case Embedded => 3
  }

  // ---- Which agent is active -----------------------------------------------------------

  /** The last arrived among those of maximal rank. */
  ghost predicate IsActive(modes: seq<Mode>, k: int) {
    && 0 <= k < |modes|
    && (forall j :: 0 <= j < |modes| ==> Rank(modes[j]) <= Rank(modes[k]))
    && (forall j :: k < j < |modes| ==> Rank(modes[j]) < Rank(modes[k]))
  }

  lemma ActiveIsUnique(modes: seq<Mode>, k: int, l: int)
    requires IsActive(modes, k) && IsActive(modes, l)
    ensures k == l
  {
    assert Rank(modes[k]) == Rank(modes[l]);
  }

  /** Embedded before installed before live, and of a kind the last to arrive. */
  predicate FirstChoice(modes: seq<Mode>, k: nat)
    requires k < |modes|
  {
    match modes[k]
    case Embedded => forall j :: k < j < |modes| ==> modes[j] != Embedded
    case Installed =>
      (forall j :: 0 <= j < |modes| ==> modes[j] != Embedded) && forall j :: k < j < |modes| ==> modes[j] != Installed
    case Live => (forall j :: 0 <= j < |modes| ==> modes[j] == Live) && k == |modes| - 1
  }

  /** The ranking comes to that. */
  lemma ActiveIsFirstChoice(modes: seq<Mode>, k: nat)
    requires k < |modes|
    ensures IsActive(modes, k) <==> FirstChoice(modes, k)
  {
    assert Rank(modes[|modes| - 1]) >= Rank(Live);
  }

  /** An agent whose place a newcomer of that mode takes. */
  predicate GivesWay(present: Mode, newcomer: Mode) {
    match newcomer
    case Embedded => true
    case Installed => present != Embedded
    case Live => present == Live
  }

  /** An arrival takes over exactly when nothing connected outranks it; otherwise nothing changes. */
  lemma ArrivalTakesOver(modes: seq<Mode>, k: int, m: Mode)
    requires IsActive(modes, k)
    ensures Rank(m) >= Rank(modes[k]) <==> IsActive(modes + [m], |modes|)
    ensures Rank(m) < Rank(modes[k]) <==> IsActive(modes + [m], k)
  {
    var all := modes + [m];
    assert all[|modes|] == m && all[k] == modes[k];
    if Rank(m) < Rank(modes[k]) {
      assert forall j :: k < j < |modes| ==> all[j] == modes[j];
    }
  }

  /** A standby's departure leaves the active agent active. */
  lemma StandbyLeaves(modes: seq<Mode>, k: int, gone: int)
    requires IsActive(modes, k) && 0 <= gone < |modes| && gone != k
    ensures IsActive(modes[..gone] + modes[gone + 1..], if gone < k then k - 1 else k)
  {
  }

  lemma {:induction false} SomeActive(modes: seq<Mode>) returns (k: nat)
    requires modes != []
    ensures IsActive(modes, k)
  {
    var n := |modes| - 1;
    k := n;
    if n > 0 {
      k := SomeActive(modes[..n]);
      ArrivalTakesOver(modes[..n], k, modes[n]);
      assert modes == modes[..n] + [modes[n]];
      if Rank(modes[n]) >= Rank(modes[k]) {
        k := n;
      }
    }
  }

  ghost function Modes(list: seq<HostAgent>): (r: seq<Mode>)
    ensures |r| == |list|
    ensures forall k :: 0 <= k < |list| ==> r[k] == list[k].mode
  {
    seq(|list|, k requires 0 <= k < |list| => list[k].mode)
  }

  method ActiveOf(list: seq<HostAgent>) returns (best: HostAgent?, ghost k: int)
    ensures list == [] <==> best == null
    ensures best != null ==> IsActive(Modes(list), k) && list[k] == best
  {
    best, k := null, -1;
    for i := 0 to |list|
      invariant i == 0 <==> best == null
      invariant best != null ==> IsActive(Modes(list[..i]), k) && list[k] == best
    {
      assert Modes(list[..i + 1]) == Modes(list[..i]) + [list[i].mode];
      if best != null {
        ArrivalTakesOver(Modes(list[..i]), k, list[i].mode);
      }
      if best == null || Rank(list[i].mode) >= Rank(best.mode) {
        best, k := list[i], i;
      }
    }
    assert list[..|list|] == list;
  }

  // ---- The registry --------------------------------------------------------------------

  /** What is remembered of a machine, connected or not. */
  datatype Record = Record(mode: Mode, lastSeenAt: int)

  datatype Entry = Entry(id: MachineId, online: bool, mode: Mode, standbys: seq<Mode>)

  datatype RemoveResult = Removed | StillConnected | UnknownServer

  ghost predicate NoDuplicates(list: seq<HostAgent>) {
    forall i, j :: 0 <= i < j < |list| ==> list[i] != list[j]
  }

  ghost predicate GoodList(id: MachineId, list: seq<HostAgent>) {
    list != [] && NoDuplicates(list) && forall i :: 0 <= i < |list| ==> list[i].id == id
  }

  /** Exactly one agent of the list is active: the one the ranking names. */
  ghost predicate OneActive(list: seq<HostAgent>)
    reads list`active
  {
    forall i :: 0 <= i < |list| ==> (list[i].active <==> IsActive(Modes(list), i))
  }

  /** Apply active and standby state across a machine's connections. */
  method Reconcile(list: seq<HostAgent>) returns (active: HostAgent, ghost k: int)
    requires list != [] && NoDuplicates(list)
    modifies list`active
    ensures OneActive(list) && IsActive(Modes(list), k) && active == list[k]
    ensures forall a :: a in list ==> (a.active <==> a == active)
  {
    var best;
    best, k := ActiveOf(list);
    active := best;
    for i := 0 to |list|
      invariant forall j :: 0 <= j < i ==> (list[j].active <==> list[j] == active)
    {
      if list[i] == active {
        list[i].Activate();
      } else {
        list[i].Deactivate();
      }
    }
    forall i | 0 <= i < |list| ensures list[i].active <==> IsActive(Modes(list), i) {
      if IsActive(Modes(list), i) {
        ActiveIsUnique(Modes(list), i, k);
      }
    }
  }

  /** Of a list whose flags are right, the one agent that is active. */
  lemma FlagsName(list: seq<HostAgent>, k: nat)
    requires NoDuplicates(list) && OneActive(list) && IsActive(Modes(list), k)
    ensures forall a :: a in list ==> (a.active <==> a == list[k])
  {
    forall i | 0 <= i < |list| ensures list[i].active <==> list[i] == list[k] {
      if list[i].active {
        ActiveIsUnique(Modes(list), i, k);
      }
    }
  }

  ghost predicate AllGiveWay(list: seq<HostAgent>, newcomer: Mode) {
    forall a :: a in list ==> GivesWay(a.mode, newcomer)
  }

  /** A newcomer becomes the active one exactly when everything in the list gives way to it. */
  lemma NewcomerWins(list: seq<HostAgent>, k: nat, agent: HostAgent, l: nat)
    requires IsActive(Modes(list), k) && IsActive(Modes(list + [agent]), l)
    ensures agent !in list ==>
              && ((list + [agent])[l] == agent <==> AllGiveWay(list, agent.mode))
              && ((list + [agent])[l] != agent ==> (list + [agent])[l] == list[k])
  {
    assert Modes(list + [agent]) == Modes(list) + [agent.mode];
    ArrivalTakesOver(Modes(list), k, agent.mode);
    if Rank(agent.mode) >= Rank(list[k].mode) {
      ActiveIsUnique(Modes(list + [agent]), l, |list|);
      forall a | a in list ensures GivesWay(a.mode, agent.mode) {
        var i :| 0 <= i < |list| && list[i] == a;
        assert Rank(Modes(list)[i]) <= Rank(Modes(list)[k]);
      }
    } else {
      ActiveIsUnique(Modes(list + [agent]), l, k);
      assert list[k] in list;
    }
  }

  /** When a standby leaves, the active agent is the same one. */
  lemma StandbyLeft(list: seq<HostAgent>, k: nat, gone: nat, l: nat)
    requires gone < |list| && gone != k && IsActive(Modes(list), k)
    requires IsActive(Modes(list[..gone] + list[gone + 1..]), l)
    ensures (list[..gone] + list[gone + 1..])[l] == list[k]
  {
    assert Modes(list[..gone] + list[gone + 1..]) == Modes(list)[..gone] + Modes(list)[gone + 1..];
    StandbyLeaves(Modes(list), k, gone);
    ActiveIsUnique(Modes(list[..gone] + list[gone + 1..]), l, if gone < k then k - 1 else k);
  }

  lemma GoodWithout(id: MachineId, list: seq<HostAgent>, k: nat)
    requires GoodList(id, list) && k < |list| && list[..k] + list[k + 1..] != []
    ensures GoodList(id, list[..k] + list[k + 1..])
    ensures forall a :: a in list[..k] + list[k + 1..] ==> a in list
  {
  }

  method Standbys(list: seq<HostAgent>, active: HostAgent, ghost k: nat) returns (standbys: seq<Mode>)
    requires NoDuplicates(list) && k < |list| && list[k] == active
    ensures standbys == Modes(list[..k] + list[k + 1..])
  {
    standbys := [];
    for i := 0 to |list|
      invariant |standbys| == if i <= k then i else i - 1
      invariant forall j :: 0 <= j < |standbys| ==> standbys[j] == list[if j < k then j else j + 1].mode
    {
      if list[i] != active {
        standbys := standbys + [list[i].mode];
      }
    }
  }

  function ListOf(connections: map<MachineId, seq<HostAgent>>, id: MachineId): seq<HostAgent> {
    if id in connections then connections[id] else []
  }

  /** Some agent that arrived after this one also claims to be embedded. */
  ghost predicate Challenged(list: seq<HostAgent>, local: HostAgent) {
    exists k, i :: 0 <= k < i < |list| && list[k] == local && list[i].mode == Embedded
  }

  /** An embedded agent is its machine's active one unless it is challenged. */
  lemma EmbeddedIsActiveIff(list: seq<HostAgent>, k: nat)
    requires NoDuplicates(list) && k < |list| && list[k].mode == Embedded
    ensures IsActive(Modes(list), k) <==> !Challenged(list, list[k])
  {
    var modes := Modes(list);
    if !IsActive(modes, k) {
      var i :| k < i < |modes| && Rank(modes[i]) >= Rank(modes[k]);
      assert list[k] == list[k] && list[i].mode == Embedded;
    }
  }

  lemma ChallengedMore(list: seq<HostAgent>, local: HostAgent, agent: HostAgent)
    requires NoDuplicates(list) && local in list && agent !in list
    ensures Challenged(list + [agent], local) <==> Challenged(list, local) || agent.mode == Embedded
  {
    var all := list + [agent];
    var k :| 0 <= k < |list| && list[k] == local;
    assert all[k] == local && all[|list|] == agent;
    if Challenged(list, local) {
      var j, i :| 0 <= j < i < |list| && list[j] == local && list[i].mode == Embedded;
      assert all[j] == local && all[i].mode == Embedded;
    }
  }

  lemma ChallengedLess(list: seq<HostAgent>, local: HostAgent, gone: nat)
    requires gone < |list| && Challenged(list[..gone] + list[gone + 1..], local)
    ensures Challenged(list, local)
  {
    var rest := list[..gone] + list[gone + 1..];
    var k, i :| 0 <= k < i < |rest| && rest[k] == local && rest[i].mode == Embedded;
    var j, l := if k < gone then k else k + 1, if i < gone then i else i + 1;
    assert list[j] == local && list[l].mode == Embedded;
  }

  /** A machine's record is that of its active agent. */
  ghost predicate RecordsActive(list: seq<HostAgent>, record: Record, now: int) {
    exists k :: IsActive(Modes(list), k) && record == Record(list[k].mode, now)
  }

  class Fleet {
    /** Every connected agent of each machine, in arrival order. */
    var connections: map<MachineId, seq<HostAgent>>
    var known: map<MachineId, Record>
    /** Every agent that is or was connected. */
    ghost var agents: set<HostAgent>
    /** The control plane's own agent. */
    const local: HostAgent

    ghost predicate Valid()
      reads this, agents`active
    {
      && connections.Keys <= known.Keys
      && local.mode == Embedded && local.id in connections && local in connections[local.id]
      && forall id :: id in connections ==> GoodMachine(id)
    }

    ghost predicate GoodMachine(id: MachineId)
      requires id in connections
      reads this, agents`active
    {
      var list := connections[id];
      GoodList(id, list) && (forall i :: 0 <= i < |list| ==> list[i] in agents) && OneActive(list)
    }

    constructor (stored: map<MachineId, Record>, local: HostAgent, now: int)
      requires local.mode == Embedded
      modifies local`active
      ensures this.local == local
      ensures Valid() && connections == map[local.id := [local]] && agents == {local}
      ensures known == (stored - {"local"})[local.id := Record(local.mode, now)]
      ensures local.active
    {
      this.local, connections, agents := local, map[local.id := [local]], {local};
      known := (stored - {"local"})[local.id := Record(local.mode, now)];
      new;
      local.Activate();
      assert IsActive(Modes([local]), 0);
    }

    ghost predicate LocalChallenged() reads this { Challenged(ListOf(connections, local.id), local) }

    /** In every state the embedded agent is active unless an agent of its machine that arrived
        later claims to be embedded too. */
    lemma LocalIsActiveIff()
      requires Valid()
      ensures local.active <==> !LocalChallenged()
    {
      assert GoodMachine(local.id);
      var list := connections[local.id];
      var k :| 0 <= k < |list| && list[k] == local;
      EmbeddedIsActiveIff(list, k);
    }

    /** In every state an agent is active exactly when it is its machine's first choice. */
    lemma ActiveByMode(id: MachineId, k: nat)
      requires Valid() && id in connections && k < |connections[id]|
      ensures connections[id][k].active <==> FirstChoice(Modes(connections[id]), k)
    {
      assert GoodMachine(id);
      ActiveIsFirstChoice(Modes(connections[id]), k);
    }

    /** The agent that is active on a connected machine, and where it is in the list. */
    lemma ActiveOn(id: MachineId) returns (k: nat)
      requires Valid() && id in connections
      ensures IsActive(Modes(connections[id]), k)
      ensures forall a :: a in connections[id] ==> (a.active <==> a == connections[id][k])
    {
      assert GoodMachine(id);
      k := SomeActive(Modes(connections[id]));
      FlagsName(connections[id], k);
    }

    /** Set a machine's list and settle which of it is active; other machines are untouched. */
    method SetList(id: MachineId, list: seq<HostAgent>, now: int) returns (active: HostAgent, ghost k: int)
      requires Valid() && GoodList(id, list) && forall i :: 0 <= i < |list| ==> list[i] in agents
      requires id == local.id ==> local in list
      modifies this`connections, this`known, list`active
      ensures Valid() && connections == old(connections)[id := list]
      ensures known == old(known)[id := Record(active.mode, now)]
      ensures IsActive(Modes(list), k) && active == list[k]
      ensures forall a :: a in list ==> (a.active <==> a == active)
    {
      connections := connections[id := list];
      active, k := Reconcile(list);
      known := known[id := Record(active.mode, now)];
      ListIsSet(id, list);
    }

    /** One machine's list replaced and its flags set right, nothing else changed. */
    twostate lemma ListIsSet(id: MachineId, new list: seq<HostAgent>)
      requires local.mode == Embedded && local.id in connections && local in connections[local.id]
      requires forall m :: m in old(connections) && m != id ==> old(GoodMachine(m))
      requires GoodList(id, list) && forall i :: 0 <= i < |list| ==> list[i] in agents
      requires connections == old(connections)[id := list] && agents == old(agents)
      requires connections.Keys <= known.Keys
      requires OneActive(list)
      requires forall a :: a in agents && a !in list ==> a.active == old(a.active)
      ensures Valid()
    {
      forall m | m in connections && m != id ensures GoodMachine(m) {
        StaysGood(m);
      }
    }

    /** A machine whose list and flags have not changed. */
    twostate lemma StaysGood(m: MachineId)
      requires m in old(connections) && old(GoodMachine(m)) && m in connections && connections[m] == old(connections[m])
      requires old(agents) <= agents && forall a :: a in connections[m] ==> a.active == old(a.active)
      ensures GoodMachine(m)
    {
    }

    /** Track a connected agent under its machine; says whether it became the active one. The
        embedded agent loses its place exactly to a newcomer of its machine that claims to be
        embedded; a newcomer that is outranked changes nobody's standing. */
    method Register(agent: HostAgent, now: int) returns (becameActive: bool)
      requires Valid()
      modifies this, agents`active, agent`active
      ensures Valid() && agents == old(agents) + {agent}
      ensures var list := ListOf(old(connections), agent.id);
              connections == old(connections)[agent.id := if agent in list then list else list + [agent]]
      ensures agent.id in known && known == old(known)[agent.id := known[agent.id]]
      ensures RecordsActive(connections[agent.id], known[agent.id], now)
      ensures becameActive <==> agent.active
      ensures var list := ListOf(old(connections), agent.id);
        agent !in list ==>
          && (becameActive <==> AllGiveWay(list, agent.mode))
          && (!becameActive ==> forall a :: a in list ==> a.active == old(a.active))
      ensures LocalChallenged() <==> old(LocalChallenged()) || Challenges(old(connections), local, agent)
    {
      var list := if agent.id in connections then connections[agent.id] else [];
      assert list != [] ==> GoodMachine(agent.id);
      ghost var was, j: nat := list, 0;
      if list != [] {
        j := ActiveOn(agent.id);
      }
      if agent !in list {
        list := list + [agent];
      }
      agents := agents + {agent};
      forall m | m in connections ensures GoodMachine(m) {
        StaysGood(m);
      }
      var active, k := SetList(agent.id, list, now);
      becameActive := agent == active;
      if agent !in was && was != [] {
        NewcomerWins(was, j, agent, k);
      }
      ChallengedOnce(old(connections), local, agent);
    }

    /** The machine's last connection is gone; it is remembered, as seen just now. */
    method SawLast(id: MachineId, now: int)
      requires Valid() && id in connections && id != local.id
      modifies this`connections, this`known
      ensures Valid() && connections == old(connections) - {id}
      ensures id in old(known) && known == old(known)[id := old(known)[id].(lastSeenAt := now)]
    {
      connections := connections - {id};
      if id in known {
        known := known[id := known[id].(lastSeenAt := now)];
      }
      forall m | m in connections ensures GoodMachine(m) {
        StaysGood(m);
      }
    }

    /** The flag of the agent at a position of the embedded agent's list. */
    lemma FlagAt(k: nat)
      requires Valid() && k < |connections[local.id]|
      ensures connections[local.id][k].active <==> IsActive(Modes(connections[local.id]), k)
    {
      assert GoodMachine(local.id);
    }

    lemma RestIsGood(id: MachineId, k: nat)
      requires Valid() && id in connections && k < |connections[id]| && connections[id][k] != local
      ensures var rest := connections[id][..k] + connections[id][k + 1..];
        && (id == local.id ==> local in rest)
        && (rest != [] ==> GoodList(id, rest) && forall i :: 0 <= i < |rest| ==> rest[i] in agents)
    {
      assert GoodMachine(id);
      var list := connections[id];
      if id == local.id {
        StaysListed(list, k, local);
      }
      if list[..k] + list[k + 1..] != [] {
        GoodWithout(id, list, k);
      }
    }

    /** One of a machine's several connections is gone. A standby's departure changes nobody's
        standing. */
    method DropFrom(id: MachineId, k: nat, now: int)
      requires Valid() && id in connections && k < |connections[id]| && connections[id][k] != local
      requires connections[id][..k] + connections[id][k + 1..] != []
      modifies this`connections, this`known, connections[id]`active
      ensures Valid() && connections == old(connections)[id := old(connections[id][..k] + connections[id][k + 1..])]
      ensures id in known && known == old(known)[id := known[id]] && RecordsActive(connections[id], known[id], now)
      ensures !old(connections[id][k].active) ==> forall a :: a in connections[id] ==> a.active == old(a.active)
    {
      var list := connections[id];
      RestIsGood(id, k);
      ghost var j := ActiveOn(id);
      var active, i := SetList(id, list[..k] + list[k + 1..], now);
      if j != k {
        StandbyLeft(list, j, k, i);
        GoodWithout(id, list, k);
      }
    }

    /** Forget a connection, `k` its position; a standby is promoted if it was the active one.
        The embedded agent has no connection to lose, and no departure takes its place away. */
    method Deregister(agent: HostAgent, now: int) returns (ghost k: int)
      requires Valid() && agent != local
      modifies this, agents`active
      ensures Valid() && known.Keys == old(known).Keys && agents == old(agents)
      ensures k == -1 <==> agent !in ListOf(old(connections), agent.id)
      ensures k == -1 ==> connections == old(connections) && known == old(known)
      ensures k != -1
        ==> 0 <= k < |ListOf(old(connections), agent.id)| && ListOf(old(connections), agent.id)[k] == agent
      ensures k != -1 ==> connections == Without(old(connections), agent.id, k)
      ensures k != -1 ==> agent.id in known && known == old(known)[agent.id := known[agent.id]]
                          && if agent.id in connections then RecordsActive(connections[agent.id], known[agent.id], now)
                             else known[agent.id] == old(known)[agent.id].(lastSeenAt := now)
      ensures LocalChallenged() ==> old(LocalChallenged())
      ensures k != -1 && !old(agent.active)
        ==> forall a :: a in ListOf(connections, agent.id) ==> a.active == old(a.active)
    {
      if agent.id !in connections {
        return -1;
      }
      var list := connections[agent.id];
      if agent !in list {
        return -1;
      }
      var idx :| 0 <= idx < |list| && list[idx] == agent;
      k := idx;
      RestIsGood(agent.id, idx);
      ChallengedNoMore(connections, local, agent.id, idx);
      if list[..idx] + list[idx + 1..] == [] {
        SawLast(agent.id, now);
      } else {
        DropFrom(agent.id, idx, now);
      }
    }

    method Remove(id: MachineId) returns (r: RemoveResult)
      requires Valid()
      modifies this`known
      ensures Valid()
      ensures r == if id in connections then StillConnected else if id !in old(known) then UnknownServer else Removed
      ensures known == if r == Removed then old(known) - {id} else old(known)
    {
      if id in connections {
        return StillConnected;
      }
      if id !in known {
        return UnknownServer;
      }
      known := known - {id};
      return Removed;
    }

    /** The connected half of the listing: the active agent, the others as standbys. */
    method ConnectedEntry(id: MachineId) returns (e: Entry)
      requires Valid() && id in connections
      ensures e.id == id && Describes(connections, known, e)
    {
      var list := connections[id];
      assert GoodMachine(id);
      var active, k := ActiveOf(list);
      var standbys := Standbys(list, active, k);
      e := Entry(id, true, active.mode, standbys);
    }

    method OnlineEntries() returns (result: seq<Entry>)
      requires Valid()
      ensures Listed(connections, known, result, connections.Keys)
    {
      result := [];
      var todo := connections.Keys;
      while todo != {}
        invariant todo <= connections.Keys && Listed(connections, known, result, connections.Keys - todo)
        decreases |todo|
      {
        var id :| id in todo;
        var e := ConnectedEntry(id);
        ListedMore(connections, known, result, connections.Keys - todo, e);
        assert connections.Keys - todo + {id} == connections.Keys - (todo - {id});
        result, todo := result + [e], todo - {id};
      }
      assert connections.Keys - todo == connections.Keys;
    }

    /** Every known machine once; a connected one under its active agent, the rest standbys. */
    method Entries() returns (result: seq<Entry>)
      requires Valid()
      ensures Listed(connections, known, result, known.Keys)
      ensures forall i, j :: 0 <= i < j < |result| ==> result[i].id != result[j].id
      ensures forall i :: 0 <= i < |result| ==> result[i].id in known && Describes(connections, known, result[i])
      ensures |result| == |known|
    {
      result := OnlineEntries();
      var todo := known.Keys - connections.Keys;
      assert known.Keys - todo == connections.Keys;
      while todo != {}
        invariant todo <= known.Keys - connections.Keys && Listed(connections, known, result, known.Keys - todo)
        decreases |todo|
      {
        var id :| id in todo;
        var e := Entry(id, false, known[id].mode, []);
        ListedMore(connections, known, result, known.Keys - todo, e);
        assert known.Keys - todo + {id} == known.Keys - (todo - {id});
        result, todo := result + [e], todo - {id};
      }
      assert known.Keys - todo == known.Keys;
      ListedIs(connections, known, result, known.Keys);
    }
  }

  type Connections = map<MachineId, seq<HostAgent>>

  type Known = map<MachineId, Record>

  ghost predicate Describes(c: Connections, known: Known, e: Entry) {
    && (e.online <==> e.id in c)
    && (e.online ==> ShowsActive(c[e.id], e))
    && (!e.online ==> e.id in known && e.mode == known[e.id].mode && e.standbys == [])
  }

  /** Each of these machines once, described as it is, and nothing else. */
  ghost predicate Listed(c: Connections, known: Known, result: seq<Entry>, ids: set<MachineId>) {
    if result == [] then ids == {}
    else
      var n := |result| - 1;
      Describes(c, known, result[n]) && result[n].id in ids && Listed(c, known, result[..n], ids - {result[n].id})
  }

  lemma ListedMore(c: Connections, known: Known, result: seq<Entry>, ids: set<MachineId>, e: Entry)
    requires Listed(c, known, result, ids) && e.id !in ids && Describes(c, known, e)
    ensures Listed(c, known, result + [e], ids + {e.id})
  {
    assert (result + [e])[..|result|] == result;
    assert ids + {e.id} - {e.id} == ids;
  }

  lemma {:induction false} ListedIs(c: Connections, known: Known, result: seq<Entry>, ids: set<MachineId>)
    requires Listed(c, known, result, ids)
    ensures forall i, j :: 0 <= i < j < |result| ==> result[i].id != result[j].id
    ensures forall i :: 0 <= i < |result| ==> result[i].id in ids && Describes(c, known, result[i])
    ensures |result| == |ids|
  {
    if result != [] {
      var n := |result| - 1;
      ListedIs(c, known, result[..n], ids - {result[n].id});
    }
  }

  ghost predicate ShowsActive(list: seq<HostAgent>, e: Entry) {
    exists k :: IsActive(Modes(list), k) && e.mode == list[k].mode && e.standbys == Modes(list[..k] + list[k + 1..])
  }

  /** A newcomer on the embedded agent's machine that claims to be embedded itself. */
  ghost predicate Challenges(c: Connections, local: HostAgent, agent: HostAgent) {
    agent.id == local.id && agent.mode == Embedded && agent !in ListOf(c, local.id)
  }

  lemma ChallengedNoMore(c: Connections, local: HostAgent, id: MachineId, k: nat)
    requires id in c && k < |c[id]|
    ensures Challenged(ListOf(Without(c, id, k), local.id), local) ==> Challenged(ListOf(c, local.id), local)
  {
    if id == local.id && Challenged(c[id][..k] + c[id][k + 1..], local) {
      ChallengedLess(c[id], local, k);
    }
  }

  lemma StaysListed(list: seq<HostAgent>, gone: nat, a: HostAgent)
    requires gone < |list| && a in list && a != list[gone]
    ensures a in list[..gone] + list[gone + 1..]
  {
    var i :| 0 <= i < |list| && list[i] == a;
    assert (list[..gone] + list[gone + 1..])[if i < gone then i else i - 1] == a;
  }

  lemma ChallengedOnce(c: Connections, local: HostAgent, agent: HostAgent)
    requires local.id in c && local in c[local.id] && NoDuplicates(c[local.id])
    ensures var list := ListOf(c, agent.id);
      var d := c[agent.id := if agent in list then list else list + [agent]];
      Challenged(ListOf(d, local.id), local) <==> Challenged(ListOf(c, local.id), local) || Challenges(c, local, agent)
  {
    if agent.id == local.id && agent !in c[local.id] {
      ChallengedMore(c[local.id], local, agent);
    }
  }

  ghost function Without(connections: map<MachineId, seq<HostAgent>>, id: MachineId, k: nat)
    : map<MachineId, seq<HostAgent>>
    requires id in connections && k < |connections[id]|
  {
    var rest := connections[id][..k] + connections[id][k + 1..];
    if rest == [] then connections - {id} else connections[id := rest]
  }

  // ---- The embedded agent over every run -------------------------------------------------

  datatype Op = Arrives(agent: HostAgent) | Leaves(agent: HostAgent) | Forget(id: MachineId)

  ghost function Arriving(ops: seq<Op>): set<HostAgent> { set i | 0 <= i < |ops| && ops[i].Arrives? :: ops[i].agent }

  /** Of the embedded agent's machine, only the embedded agent says so. */
  ghost predicate NoChallenger(ops: seq<Op>, local: HostAgent) {
    forall i :: 0 <= i < |ops| && ops[i].Arrives? && ops[i].agent.id == local.id && ops[i].agent.mode == Embedded
      ==> ops[i].agent == local
  }

  /** Whatever connects, disconnects and is forgotten, the embedded agent stays active as long
      as nothing else that arrives on its machine claims to be embedded. */
  method Serve(fleet: Fleet, ops: seq<Op>, now: int)
    requires fleet.Valid() && forall i :: 0 <= i < |ops| && ops[i].Leaves? ==> ops[i].agent != fleet.local
    modifies fleet, fleet.agents`active, Arriving(ops)`active
    ensures fleet.Valid()
    ensures old(fleet.local.active) && NoChallenger(ops, fleet.local) ==> fleet.local.active
  {
    fleet.LocalIsActiveIff();
    for i := 0 to |ops|
      invariant fleet.Valid() && fleet.agents <= old(fleet.agents) + Arriving(ops)
      invariant old(fleet.local.active) && NoChallenger(ops, fleet.local) ==> !fleet.LocalChallenged()
    {
      match ops[i] {
        case Arrives(agent) =>
          assert agent in Arriving(ops);
          var became := fleet.Register(agent, now);
        case Leaves(agent) =>
          var k := fleet.Deregister(agent, now);
        case Forget(id) =>
          var r := fleet.Remove(id);
      }
    }
    fleet.LocalIsActiveIff();
  }

  /** And it does not otherwise: a second agent of its machine that identifies itself as
      embedded takes its place. */
  method ChallengerTakesOver(stored: map<MachineId, Record>, local: HostAgent, other: HostAgent, now: int)
    returns (fleet: Fleet)
    requires local.mode == Embedded == other.mode && local.id == other.id && local != other
    modifies local`active, other`active
    ensures fleet.Valid() && fleet.local == local && fleet.connections[local.id] == [local, other]
    ensures !local.active && other.active
  {
    fleet := new Fleet(stored, local, now);
    var became := fleet.Register(other, now);
    assert Modes([local, other]) == [Embedded, Embedded];
    fleet.LocalIsActiveIff();
    assert fleet.connections[local.id][0] == local && fleet.connections[local.id][1] == other;
    fleet.FlagAt(1);
  }
}
