/** The registry on the heap: client objects, the key map, and one mutable list of clients per station. */
module Registry {
  import opened Entries
  import opened ClientKeys
  import opened RegistrySpec

  class ClientInfo {
    /** The key of the client's address, under which it is registered. */
    ghost const key: string
    var currStation: int
    /** Whether EventChan, which is made with the client and never replaced, has been closed. */
    var closed: bool

    constructor (ghost key: string, currStation: int)
      ensures this.key == key && this.currStation == currStation && !closed
    {
      this.key, this.currStation, this.closed := key, currStation, false;
    }

    /** Closing a closed channel panics, so a caller has to know that it is open. */
    method CloseChannel()
      requires !closed
      modifies this`closed
      ensures closed
    {
      closed := true;
    }
  }

  // ---- Lists with swap-with-last removal ----

  ghost predicate NoDuplicates<T>(list: seq<T>) {
    forall i, j :: 0 <= i < j < |list| ==> list[i] != list[j]
  }

  /** Overwrites position `i` with the last element and drops the last position. */
  function SwapOut<T>(list: seq<T>, i: nat): seq<T>
    requires i < |list|
  {
    list[i := list[|list| - 1]][..|list| - 1]
  }

  /** Swap-with-last takes out exactly one element and keeps the others, in some order. */
  lemma SwapOutRemoves<T>(list: seq<T>, i: nat)
    requires i < |list| && NoDuplicates(list)
    ensures NoDuplicates(SwapOut(list, i))
    ensures forall x :: x in SwapOut(list, i) <==> x in list && x != list[i]
    ensures multiset(SwapOut(list, i)) == multiset(list) - multiset{list[i]}
  {
    var n := |list| - 1;
    var out := SwapOut(list, i);
    assert list == list[..n] + [list[n]];
    if i == n {
      assert out == list[..n];
    } else {
      assert list[..n] == list[..i] + [list[i]] + list[i + 1..n];
      assert out == list[..i] + [list[n]] + list[i + 1..n];
    }
    forall x ensures x in out <==> x in list && x != list[i] {
      if x in list && x != list[i] {
        var j :| 0 <= j < |list| && list[j] == x;
        assert out[if j == n then i else j] == x;
      }
    }
  }

  class Registry {
    var clients: map<string, ClientInfo>
    var stations: seq<seq<ClientInfo>>
    /** Every client that has been registered so far. */
    ghost var repr: set<ClientInfo>
    /** The key-to-station map the objects stand for. */
    ghost var mem: Mem

    /** The map is keyed by each client's own key, stations are in range, and every registered channel is open. */
    ghost predicate ClientsOk()
      reads this, repr
    {
      && mem.Keys == clients.Keys
      && forall k :: k in clients ==>
           && clients[k] in repr
           && clients[k].key == k && clients[k].currStation == mem[k] && !clients[k].closed
           && -1 <= mem[k] < |stations|
    }

    /** A station's list holds, without duplicates, exactly the registered clients tuned to it. */
    ghost predicate StationOk(i: nat)
      requires i < |stations|
      reads this, repr
    {
      && NoDuplicates(stations[i])
      && (forall c :: c in stations[i] ==> c in repr && c.key in clients && clients[c.key] == c && c.currStation == i)
      && (forall k :: k in clients && clients[k] in repr && clients[k].currStation == i ==> clients[k] in stations[i])
    }

    ghost predicate Valid()
      reads this, repr
    {
      ClientsOk() && forall i: nat :: i < |stations| ==> StationOk(i)
    }

    constructor (n: nat)
      ensures Valid() && clients == map[] && repr == {} && |stations| == n && mem == map[]
    {
      clients, repr, mem := map[], {}, map[];
      stations := seq(n, _ => []);
    }

    /** Empty lists for `n` stations. The clients are not touched, so the caller must not have any. */
    method InitStations(n: nat)
      modifies this`stations
      ensures stations == seq(n, _ => [])
      ensures old(Valid()) && clients == map[] ==> Valid() && mem == map[]
    {
      stations := seq(n, _ => []);
    }

    method GetClient(key: string) returns (c: Option<ClientInfo>)
      ensures c == if key in clients then Some(clients[key]) else None
    {
      c := if key in clients then Some(clients[key]) else None;
    }

    /** Searches the client's station for it and swaps it out. */
    method RemoveFromCurrentStation(client: ClientInfo)
      requires client.currStation == -1 || 0 <= client.currStation < |stations|
      modifies this`stations
      ensures client.currStation == -1 ==> stations == old(stations)
      ensures client.currStation != -1 && client !in old(stations)[client.currStation] ==> stations == old(stations)
      ensures client.currStation != -1 && client in old(stations)[client.currStation] ==>
                exists i :: && 0 <= i < |old(stations)[client.currStation]|
                            && old(stations)[client.currStation][i] == client
                            && stations == old(stations)[client.currStation := SwapOut(old(stations)[client.currStation], i)]
    {
      var st := client.currStation;
      if st == -1 { return; }
      var list := stations[st];
      var i := 0;
      while i < |list|
        invariant i <= |list| && client !in list[..i] && stations == old(stations)
      {
        if list[i] == client {
          stations := stations[st := SwapOut(list, i)];
          return;
        }
        i := i + 1;
      }
    }

    /** The lists have no duplicates, and `client` is on its own station's list and no other. */
    ghost predicate InPlace(client: ClientInfo)
      reads this, client
    {
      && (forall i :: 0 <= i < |stations| ==> NoDuplicates(stations[i]))
      && (forall i :: 0 <= i < |stations| ==> (client in stations[i] <==> i == client.currStation))
      && -1 <= client.currStation < |stations|
    }

    lemma RegisteredIsInPlace(key: string)
      requires Valid() && key in clients
      ensures InPlace(clients[key])
    {
      forall i | 0 <= i < |stations|
        ensures NoDuplicates(stations[i]) && (clients[key] in stations[i] <==> i == clients[key].currStation)
      {
        assert StationOk(i);
      }
    }

    /** The client leaves its station's list; every other membership stays. */
    method Leave(client: ClientInfo)
      requires InPlace(client)
      modifies this`stations
      ensures |stations| == |old(stations)|
      ensures forall i :: 0 <= i < |stations| ==> NoDuplicates(stations[i])
      ensures forall i, c :: 0 <= i < |stations| ==> (c in stations[i] <==> c in old(stations)[i] && c != client)
    {
      var st := client.currStation;
      RemoveFromCurrentStation(client);
      if st != -1 {
        ghost var i :| 0 <= i < |old(stations)[st]| && old(stations)[st][i] == client
                       && stations == old(stations)[st := SwapOut(old(stations)[st], i)];
        SwapOutRemoves(old(stations)[st], i);
      }
    }

    /** The client is appended to a station's list, unless `station` is out of range. */
    method Join(client: ClientInfo, station: int)
      requires forall i :: 0 <= i < |stations| ==> NoDuplicates(stations[i]) && client !in stations[i]
      modifies this`stations
      ensures |stations| == |old(stations)|
      ensures forall i :: 0 <= i < |stations| ==> NoDuplicates(stations[i])
      ensures forall i, c :: 0 <= i < |stations| ==>
                (c in stations[i] <==> c in old(stations)[i] || (i == station && c == client))
    {
      if 0 <= station < |stations| {
        stations := stations[station := stations[station] + [client]];
      }
    }

    /**
     * Takes a registered client off its station and puts it on another one, or on none. A station that does not
     * exist is noted in the client all the same, and the registry is then no longer in order.
     */
    method Move(client: ClientInfo, station: int)
      requires Valid() && client.key in clients && clients[client.key] == client
      modifies this`stations, this`mem, client`currStation
      ensures |stations| == |old(stations)|
      ensures mem == old(mem)[client.key := station]
      ensures Valid() <==> -1 <= station < |stations|
    {
      RegisteredIsInPlace(client.key);
      Leave(client);
      Join(client, station);
      client.currStation, mem := station, mem[client.key := station];
      forall i: nat | i < |stations| ensures StationOk(i) {
        assert old(StationOk(i));
      }
    }

    // ---- Applying an operation ----

    /** Registers a new client on no station. */
    method ApplyHandshake(ip: string, port: nat) returns (ok: bool)
      requires Valid()
      modifies this`clients, this`repr, this`mem
      ensures Valid() && stations == old(stations)
      ensures old(repr) <= repr && fresh(repr - old(repr))
      ensures ok == Apply(old(mem), |stations|, Handshake(ip, port)).Ok?
      ensures mem == if ok then Apply(old(mem), |stations|, Handshake(ip, port)).mem else old(mem)
    {
      var key := ClientKey(ip, port);
      if key in clients { return false; }
      var client := new ClientInfo(key, -1);
      clients, repr, mem := clients[key := client], repr + {client}, mem[key := -1];
      forall i: nat | i < |stations| ensures StationOk(i) {
        assert old(StationOk(i));
      }
      return true;
    }

    /** Moves a client to a station; the caller must have checked the station number. */
    method ApplySetStation(key: string, station: nat) returns (ok: bool)
      requires Valid() && station < |stations|
      modifies this`stations, this`mem, repr
      ensures Valid() && clients == old(clients) && repr == old(repr) && |stations| == |old(stations)|
      ensures ok == (key in old(mem))
      ensures mem == if ok then old(mem)[key := station] else old(mem)
    {
      if key !in clients { return false; }
      Move(clients[key], station);
      return true;
    }

    /** Forgets a client, takes it off its station and closes its channel. */
    method ApplyDisconnect(key: string) returns (ok: bool)
      requires Valid()
      modifies this, repr
      ensures Valid() && |stations| == |old(stations)|
      ensures clients == old(clients) - {key} && repr == old(repr)
      ensures ok == (key in old(mem))
      ensures mem == old(mem) - {key}
      ensures ok ==> old(clients)[key].closed
    {
      if key !in clients { return false; }
      var client := clients[key];
      RegisteredIsInPlace(key);
      clients, mem := clients - {key}, mem - {key};
      Leave(client);
      client.CloseChannel();
      forall i: nat | i < |stations| ensures StationOk(i) {
        assert old(StationOk(i));
      }
      return true;
    }

    // ---- Undoing one ----

    /**
     * Forgets a client. It does not look at the station lists, so the registry stays in order exactly when the
     * client was on none of them.
     */
    method RollbackHandshake(ip: string, port: nat)
      requires Valid()
      modifies this`clients, this`mem
      ensures stations == old(stations)
      ensures clients == old(clients) - {ClientKey(ip, port)}
      ensures mem == old(mem) - {ClientKey(ip, port)}
      ensures var key := ClientKey(ip, port);
              Valid() <==> (key in old(mem) ==> old(mem)[key] == -1)
    {
      var key := ClientKey(ip, port);
      clients, mem := clients - {key}, mem - {key};
      if key in old(mem) && old(mem)[key] != -1 {
        assert old(StationOk(mem[key])) && !StationOk(old(mem)[key]);
      } else {
        forall i: nat | i < |stations| ensures StationOk(i) {
          assert old(StationOk(i));
        }
      }
    }

    /** Puts a client back on the station it came from (-1 for none), if it is still registered. */
    method RollbackSetStation(key: string, previous: int)
      requires Valid()
      modifies this`stations, this`mem, repr
      ensures clients == old(clients) && repr == old(repr) && |stations| == |old(stations)|
      ensures mem == if key in old(mem) then old(mem)[key := previous] else old(mem)
      ensures Valid() <==> (key in old(mem) ==> -1 <= previous < |stations|)
    {
      if key in clients {
        Move(clients[key], previous);
      }
    }

    /**
     * Registers a saved copy of a client and puts it on its station. The registry stays in order when the client
     * is not registered and the copy is a proper one: its own key, an open channel and an existing station.
     */
    method RollbackDisconnect(key: string, saved: ClientInfo)
      requires Valid()
      modifies this
      ensures var st := saved.currStation;
              stations == if 0 <= st < |old(stations)| then old(stations)[st := old(stations)[st] + [saved]] else old(stations)
      ensures clients == old(clients)[key := saved] && repr == old(repr) + {saved}
      ensures mem == old(mem)[key := saved.currStation]
      ensures key !in old(clients) && saved.key == key && !saved.closed && -1 <= saved.currStation < |stations| ==> Valid()
    {
      var st := saved.currStation;
      clients, repr, mem := clients[key := saved], repr + {saved}, mem[key := st];
      if 0 <= st < |stations| {
        stations := stations[st := stations[st] + [saved]];
      }
      if key !in old(clients) && saved.key == key {
        forall i: nat | i < |stations| ensures StationOk(i) {
          assert old(StationOk(i));
        }
      }
    }

    // ---- Replay ----

    /** One log entry. Past a `Crashed` the process is gone, so nothing is said about the registry. */
    method ApplyWalEntry(e: Entry) returns (status: Status)
      requires Valid()
      modifies this, repr
      ensures status != Crashed ==> Valid() && |stations| == |old(stations)|
      ensures Replayed(if status == Crashed then old(mem) else mem, status) == Replay(old(mem), |old(stations)|, [e])
      ensures old(repr) <= repr && fresh(repr - old(repr))
    {
      var ok: bool;
      match e.op {
        case Handshake(ip, port) => ok := ApplyHandshake(ip, port);
        case SetStation(ip, port, station, _) =>
          var key := ClientKey(ip, port);
          if key in clients && !(0 <= station < |stations|) { return Crashed; }
          if key !in clients { return Stopped; }
          ok := ApplySetStation(key, station);
        case Disconnect(ip, port) => ok := ApplyDisconnect(ClientKey(ip, port));
        case Unknown => ok := false;
      }
      return if ok then Completed else Stopped;
    }

    /** The replay loop of recovery and promotion. */
    method ReplayLog(log: seq<Entry>) returns (status: Status)
      requires Valid()
      modifies this, repr
      ensures status != Crashed ==> Valid() && |stations| == |old(stations)|
      ensures Replayed(if status == Crashed then Replay(old(mem), |old(stations)|, log).mem else mem, status)
              == Replay(old(mem), |old(stations)|, log)
      ensures old(repr) <= repr && fresh(repr - old(repr))
    {
      var i := 0;
      ghost var m0, n := mem, |stations|;
      while i < |log|
        invariant i <= |log|
        invariant Valid() && |stations| == n && old(repr) <= repr && fresh(repr - old(repr))
        invariant Replay(m0, n, log) == Replay(mem, n, log[i..])
      {
        assert log[i..] == [log[i]] + log[i + 1..];
        ReplayConcat(mem, n, [log[i]], log[i + 1..]);
        status := ApplyWalEntry(log[i]);
        if status != Completed { return; }
        i := i + 1;
      }
      return Completed;
    }
  }

  /** A valid registry's station lists are determined by the key-to-station map, up to order. */
  lemma ListenersMatchMap(r: Registry, i: nat)
    requires r.Valid() && i < |r.stations|
    ensures forall k :: (exists c :: c in r.stations[i] && c.key == k) <==> (k in r.mem && r.mem[k] == i)
    ensures forall a, b :: 0 <= a < b < |r.stations[i]| ==> r.stations[i][a].key != r.stations[i][b].key
  {
    assert r.StationOk(i);
    forall k | k in r.mem && r.mem[k] == i ensures exists c :: c in r.stations[i] && c.key == k {
      assert r.clients[k] in r.stations[i];
    }
  }

  /** The streaming loop sends events only to open channels. */
  lemma ListenersAreOpen(r: Registry, i: nat, c: ClientInfo)
    requires r.Valid() && i < |r.stations| && c in r.stations[i]
    ensures !c.closed
  {
    assert r.StationOk(i);
  }
}
