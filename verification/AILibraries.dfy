/**
 Loading of AI interfaces and Skirmish AI libraries: each interface counts the
 users of every AI it has loaded, and the manager drops an interface once all
 its counts are zero.
 */
module AILibraries {
  import opened Sequences

  type AIKey = nat

  type InterfaceKey = nat

  /** What an interface holds for an AI; Empty stands in for an AI that could not be found. */
  datatype SkirmishAILibrary = Loaded | Empty

  /** Calls into the interface's own code. */
  datatype ForeignCall = Load(key: AIKey) | Unload(key: AIKey)

  /** Loads without unload so far. */
  ghost function Balance(calls: seq<ForeignCall>, key: AIKey): int {
    if calls == [] then 0
    else
      var last := calls[|calls| - 1];
      Balance(calls[..|calls| - 1], key) + if last == Load(key) then 1 else if last == Unload(key) then -1 else 0
  }

  /** For every key, loads and unloads alternate, beginning with a load. */
  ghost predicate Alternates(calls: seq<ForeignCall>) {
    forall n: nat, key :: n <= |calls| ==> 0 <= Balance(calls[..n], key) <= 1
  }

  lemma BalanceStep(calls: seq<ForeignCall>, call: ForeignCall)
    ensures forall key :: Balance(calls + [call], key) ==
              Balance(calls, key) + if call == Load(key) then 1 else if call == Unload(key) then -1 else 0
  {
    assert (calls + [call])[..|calls|] == calls;
  }

  lemma AlternatesStep(calls: seq<ForeignCall>, call: ForeignCall)
    requires Alternates(calls)
    requires Balance(calls, call.key) == if call.Load? then 0 else 1
    ensures Alternates(calls + [call])
  {
    BalanceStep(calls, call);
    assert calls[..|calls|] == calls;
    var calls' := calls + [call];
    forall n: nat, key | n <= |calls'|
      ensures 0 <= Balance(calls'[..n], key) <= 1
    {
      if n <= |calls| {
        assert calls'[..n] == calls[..n];
      } else {
        assert calls'[..n] == calls';
        assert 0 <= Balance(calls[..|calls|], key) <= 1;
      }
    }
  }

  function CountIn(counts: map<AIKey, nat>, key: AIKey): nat {
    if key in counts then counts[key] else 0
  }

  /** The user count of key changes by one, no other does. */
  ghost predicate Changed(before: map<AIKey, nat>, after: map<AIKey, nat>, key: AIKey, step: int) {
    forall k :: CountIn(after, k) == CountIn(before, k) + if k == key then step else 0
  }

  /** A library is held exactly while it is counted, and exactly then its last foreign call was a load. */
  ghost predicate InStep(counts: map<AIKey, nat>, held: set<AIKey>, calls: seq<ForeignCall>) {
    && (forall key :: key in held <==> CountIn(counts, key) > 0)
    && (forall key :: Balance(calls, key) == if CountIn(counts, key) > 0 then 1 else 0)
    && Alternates(calls)
  }

  /** The foreign calls that bring the count of key from before to after. */
  function CallsFor(key: AIKey, before: nat, after: nat): seq<ForeignCall> {
    if before == 0 && after > 0 then [Load(key)]
    else if before > 0 && after == 0 then [Unload(key)]
    else []
  }

  lemma CallsForKeepBalance(calls: seq<ForeignCall>, key: AIKey, before: nat, after: nat)
    requires Alternates(calls)
    requires Balance(calls, key) == if before > 0 then 1 else 0
    ensures Alternates(calls + CallsFor(key, before, after))
    ensures forall k :: Balance(calls + CallsFor(key, before, after), k) ==
                        if k != key then Balance(calls, k) else if after > 0 then 1 else 0
  {
    var call := CallsFor(key, before, after);
    if call == [] {
      assert calls + call == calls;
    } else {
      BalanceStep(calls, call[0]);
      AlternatesStep(calls, call[0]);
    }
  }

  /** Loading with the first user and unloading with the last keeps everything in step. */
  lemma InStepKept(counts: map<AIKey, nat>, held: set<AIKey>, calls: seq<ForeignCall>, key: AIKey, count: nat)
    requires InStep(counts, held, calls)
    ensures InStep(counts[key := count], if count > 0 then held + {key} else held - {key},
                   calls + CallsFor(key, CountIn(counts, key), count))
  {
    CallsForKeepBalance(calls, key, CountIn(counts, key), count);
    var counts' := counts[key := count];
    assert forall k :: CountIn(counts', k) == if k == key then count else CountIn(counts, k);
  }

  lemma NoneCounted(counts: map<AIKey, nat>)
    ensures SumOf(counts) == 0 <==> forall key :: CountIn(counts, key) == 0
  {
    SumIsZero(counts);
    assert forall key :: key in counts ==> CountIn(counts, key) == counts[key];
  }

  class AIInterfaceLibrary {
    var skirmishAILoadCount: map<AIKey, nat>
    var loadedSkirmishAILibraries: map<AIKey, SkirmishAILibrary>
    ghost var calls: seq<ForeignCall>

    ghost predicate Valid()
      reads this
    {
      InStep(skirmishAILoadCount, loadedSkirmishAILibraries.Keys, calls)
    }

    constructor ()
      ensures Valid() && skirmishAILoadCount == map[] && calls == []
    {
      skirmishAILoadCount, loadedSkirmishAILibraries, calls := map[], map[], [];
    }

    method GetLoadCount() returns (total: nat)
      ensures total == 0 <==> forall key :: CountIn(skirmishAILoadCount, key) == 0
      ensures total == SumOf(skirmishAILoadCount)
    {
      total := 0;
      var rest := skirmishAILoadCount;
      while rest != map[]
        invariant total + SumOf(rest) == SumOf(skirmishAILoadCount)
        decreases |rest|
      {
        var key :| key in rest;
        SumSplit(rest, key);
        RemoveShrinks(rest, key);
        total := total + rest[key];
        rest := rest - {key};
      }
      NoneCounted(skirmishAILoadCount);
    }

    method FetchSkirmishAILibrary(key: AIKey) returns (lib: SkirmishAILibrary)
      requires Valid()
      modifies this
      ensures Valid()
      ensures Changed(old(skirmishAILoadCount), skirmishAILoadCount, key, 1)
      ensures key in loadedSkirmishAILibraries && lib == loadedSkirmishAILibraries[key]
      ensures calls ==
              old(calls) + CallsFor(key, CountIn(old(skirmishAILoadCount), key), CountIn(skirmishAILoadCount, key))
    {
      // the lookup creates a missing entry
      var count := CountIn(skirmishAILoadCount, key);
      InStepKept(skirmishAILoadCount, loadedSkirmishAILibraries.Keys, calls, key, count + 1);
      if count == 0 {
        calls := calls + [Load(key)];
        var found: bool := *;
        loadedSkirmishAILibraries := loadedSkirmishAILibraries[key := if found then Loaded else Empty];
      } else {
        assert loadedSkirmishAILibraries.Keys + {key} == loadedSkirmishAILibraries.Keys;
        assert calls + [] == calls;
      }
      skirmishAILoadCount := skirmishAILoadCount[key := count + 1];
      lib := loadedSkirmishAILibraries[key];
    }

    method ReleaseSkirmishAILibrary(key: AIKey) returns (count: nat)
      requires Valid()
      modifies this
      ensures Valid()
      ensures Changed(old(skirmishAILoadCount), skirmishAILoadCount, key,
                      if CountIn(old(skirmishAILoadCount), key) > 0 then -1 else 0)
      ensures count == CountIn(skirmishAILoadCount, key)
      ensures calls == old(calls) + CallsFor(key, CountIn(old(skirmishAILoadCount), key), count)
    {
      count := CountIn(skirmishAILoadCount, key);
      if count == 0 {
        InStepKept(skirmishAILoadCount, loadedSkirmishAILibraries.Keys, calls, key, 0);
        assert loadedSkirmishAILibraries.Keys - {key} == loadedSkirmishAILibraries.Keys;
        assert calls + [] == calls;
        // the lookup creates a missing entry
        skirmishAILoadCount := skirmishAILoadCount[key := 0];
        return;
      }
      count := count - 1;
      InStepKept(skirmishAILoadCount, loadedSkirmishAILibraries.Keys, calls, key, count);
      skirmishAILoadCount := skirmishAILoadCount[key := count];
      if count == 0 {
        calls := calls + [Unload(key)];
        assert (loadedSkirmishAILibraries - {key}).Keys == loadedSkirmishAILibraries.Keys - {key};
        loadedSkirmishAILibraries := loadedSkirmishAILibraries - {key};
      } else {
        assert loadedSkirmishAILibraries.Keys + {key} == loadedSkirmishAILibraries.Keys;
        assert calls + [] == calls;
      }
    }
  }

  // ---- what the manager holds, as a value ----

  /** The AIs and interfaces on disk, and SkirmishAIKey::GetInterface. */
  datatype Infos = Infos(interfaces: set<InterfaceKey>, skirmishAIs: set<AIKey>, interfaceOf: AIKey -> InterfaceKey)

  /** A loaded interface: one that failed to initialize is remembered, one that runs counts its users. */
  datatype Entry = Failed | Running(counts: map<AIKey, nat>)

  type View = map<InterfaceKey, Entry>

  function UsersIn(view: View, i: InterfaceKey, key: AIKey): nat {
    if i in view && view[i].Running? then CountIn(view[i].counts, key) else 0
  }

  /** The number of users of an AI. */
  function Users(infos: Infos, view: View, key: AIKey): nat {
    UsersIn(view, infos.interfaceOf(key), key)
  }

  /** Only known interfaces are loaded, and they count their own known AIs only. */
  ghost predicate Sound(infos: Infos, view: View) {
    && view.Keys <= infos.interfaces
    && forall i, k :: UsersIn(view, i, k) > 0 ==> infos.interfaceOf(k) == i && k in infos.skirmishAIs
  }

  /** An AI that can not be fetched: unknown, or of an interface that is unknown or failed to initialize. */
  predicate Dead(infos: Infos, view: View, key: AIKey) {
    var i := infos.interfaceOf(key);
    key !in infos.skirmishAIs || i !in infos.interfaces || (i in view && view[i] == Failed)
  }

  ghost predicate InUse(view: View, i: InterfaceKey) {
    exists k :: UsersIn(view, i, k) > 0
  }

  /** Interfaces are only kept running while some AI of theirs is in use. */
  ghost predicate NoIdleInterface(view: View) {
    forall i :: i in view && view[i].Running? ==> InUse(view, i)
  }

  /** A known interface not yet loaded either starts, without users, or fails. */
  predicate Opened(infos: Infos, before: View, after: View, i: InterfaceKey) {
    if i in before || i !in infos.interfaces then after == before
    else after == before[i := Failed] || after == before[i := Running(map[])]
  }

  lemma OpenedSound(infos: Infos, before: View, after: View, i: InterfaceKey)
    requires Sound(infos, before) && Opened(infos, before, after, i)
    ensures Sound(infos, after)
  {
    assert forall j, k :: UsersIn(after, j, k) == UsersIn(before, j, k);
  }

  ghost predicate Stepped(before: View, after: View, i: InterfaceKey, key: AIKey, step: int) {
    && i in before && i in after && before[i].Running? && after[i].Running?
    && after == before[i := after[i]]
    && Changed(before[i].counts, after[i].counts, key, step)
  }

  /** An interface without users goes. */
  ghost predicate Closed(before: View, after: View, i: InterfaceKey) {
    after == if InUse(before, i) then before else before - {i}
  }

  /** One more user of key; None tells that key is dead, and stays so. */
  ghost predicate Fetched(infos: Infos, before: View, after: View, key: AIKey, success: bool) {
    && Sound(infos, after)
    && (success <==> !Dead(infos, after, key))
    && (forall k :: Users(infos, after, k) == Users(infos, before, k) + if k == key && success then 1 else 0)
    && (forall k :: Dead(infos, before, k) ==> Dead(infos, after, k))
    && (forall i :: i in before && i != infos.interfaceOf(key) ==> i in after && after[i] == before[i])
    && (NoIdleInterface(before) ==> NoIdleInterface(after))
  }

  lemma FetchSucceeds(infos: Infos, before: View, ready: View, after: View, key: AIKey)
    requires Sound(infos, before) && key in infos.skirmishAIs
    requires Opened(infos, before, ready, infos.interfaceOf(key))
    requires Stepped(ready, after, infos.interfaceOf(key), key, 1)
    ensures Fetched(infos, before, after, key, true)
  {
    var i := infos.interfaceOf(key);
    assert forall j, k :: j != i ==> UsersIn(after, j, k) == UsersIn(before, j, k);
    assert forall k :: UsersIn(ready, i, k) == UsersIn(before, i, k);
    assert forall k :: UsersIn(after, i, k) == UsersIn(ready, i, k) + if k == key then 1 else 0;
    assert UsersIn(after, i, key) > 0;
    if NoIdleInterface(before) {
      forall j | j in after && after[j].Running?
        ensures InUse(after, j)
      {
        if j != i {
          var k :| UsersIn(before, j, k) > 0;
          assert UsersIn(after, j, k) > 0;
        }
      }
    }
  }

  lemma FetchFails(infos: Infos, before: View, after: View, key: AIKey)
    requires Sound(infos, before)
    requires after == before || (infos.interfaceOf(key) !in before && after == before[infos.interfaceOf(key) := Failed])
    requires Sound(infos, after) && Dead(infos, after, key)
    ensures Fetched(infos, before, after, key, false)
  {
    assert forall j, k :: UsersIn(after, j, k) == UsersIn(before, j, k);
    if NoIdleInterface(before) {
      forall j | j in after && after[j].Running?
        ensures InUse(after, j)
      {
        var k :| UsersIn(before, j, k) > 0;
        assert UsersIn(after, j, k) > 0;
      }
    }
  }

  /**
   One user of key less, if there was one. The interface of key stays just while it has users,
   whichever AIs of it they use.
   */
  ghost predicate Released(infos: Infos, before: View, after: View, key: AIKey) {
    var i := infos.interfaceOf(key);
    && Sound(infos, after)
    && (forall k :: Users(infos, after, k) ==
          Users(infos, before, k) - if k == key && Users(infos, before, k) > 0 then 1 else 0)
    && (forall k :: Dead(infos, before, k) ==> Dead(infos, after, k))
    && (i in after && after[i].Running? <==> InUse(after, i))
    && (forall j :: j in before && j != i ==> j in after && after[j] == before[j])
    && (NoIdleInterface(before) ==> NoIdleInterface(after))
  }

  lemma ReleaseSucceeds(infos: Infos, before: View, ready: View, released: View, after: View, key: AIKey)
    requires Sound(infos, before)
    requires Opened(infos, before, ready, infos.interfaceOf(key))
    requires Stepped(ready, released, infos.interfaceOf(key), key,
                     if UsersIn(ready, infos.interfaceOf(key), key) > 0 then -1 else 0)
    requires Closed(released, after, infos.interfaceOf(key))
    ensures Released(infos, before, after, key)
  {
    var i := infos.interfaceOf(key);
    assert forall j, k :: j != i ==> UsersIn(after, j, k) == UsersIn(before, j, k);
    assert forall k :: UsersIn(ready, i, k) == UsersIn(before, i, k);
    assert forall k :: UsersIn(released, i, k) ==
             UsersIn(before, i, k) - if k == key && UsersIn(before, i, k) > 0 then 1 else 0;
    assert forall k :: UsersIn(after, i, k) == UsersIn(released, i, k);
    assert InUse(after, i) <==> InUse(released, i) by {
      if InUse(released, i) {
        var k :| UsersIn(released, i, k) > 0;
        assert UsersIn(after, i, k) > 0;
      }
    }
    if NoIdleInterface(before) {
      forall j | j in after && after[j].Running?
        ensures InUse(after, j)
      {
        if j != i {
          var k :| UsersIn(before, j, k) > 0;
          assert UsersIn(after, j, k) > 0;
        }
      }
    }
  }

  lemma ReleaseOfDead(infos: Infos, before: View, after: View, key: AIKey)
    requires Sound(infos, before)
    requires Opened(infos, before, after, infos.interfaceOf(key))
    requires infos.interfaceOf(key) in after ==> after[infos.interfaceOf(key)] == Failed
    ensures Released(infos, before, after, key)
  {
    assert forall j, k :: UsersIn(after, j, k) == UsersIn(before, j, k);
    if NoIdleInterface(before) {
      forall j | j in after && after[j].Running?
        ensures InUse(after, j)
      {
        var k :| UsersIn(before, j, k) > 0;
        assert UsersIn(after, j, k) > 0;
      }
    }
  }

  class AILibraryManager {
    const infos: Infos
    /** null is kept for an interface that failed to initialize. */
    var loadedAIInterfaceLibs: map<InterfaceKey, AIInterfaceLibrary?>

    ghost function Libs(): set<AIInterfaceLibrary>
      reads this
    {
      set i | i in loadedAIInterfaceLibs && loadedAIInterfaceLibs[i] != null :: loadedAIInterfaceLibs[i]
    }

    ghost function Contents(): (view: View)
      reads this, Libs()
    {
      map i | i in loadedAIInterfaceLibs ::
        if loadedAIInterfaceLibs[i] == null then Failed else Running(loadedAIInterfaceLibs[i].skirmishAILoadCount)
    }

    ghost predicate Valid()
      reads this, Libs()
    {
      Owned() && Sound(infos, Contents())
    }

    /** No two interfaces share a library. */
    ghost predicate Owned()
      reads this, Libs()
    {
      && (forall i, j | i in loadedAIInterfaceLibs && j in loadedAIInterfaceLibs && i != j ::
            loadedAIInterfaceLibs[i] == null || loadedAIInterfaceLibs[i] != loadedAIInterfaceLibs[j])
      && (forall lib :: lib in Libs() ==> lib.Valid())
    }

    constructor (infos: Infos)
      ensures Valid() && fresh(Libs()) && Contents() == map[]
    {
      this.infos := infos;
      loadedAIInterfaceLibs := map[];
    }

    method FetchInterface(i: InterfaceKey) returns (lib: AIInterfaceLibrary?)
      requires Valid()
      modifies this
      ensures Valid() && fresh(Libs() - old(Libs()))
      ensures lib == if i in loadedAIInterfaceLibs then loadedAIInterfaceLibs[i] else null
      ensures i in loadedAIInterfaceLibs <==> i in infos.interfaces
      ensures Opened(infos, old(Contents()), Contents(), i)
    {
      if i in loadedAIInterfaceLibs {
        return loadedAIInterfaceLibs[i];
      }
      if i !in infos.interfaces {
        return null;
      }
      var initialized: bool := *;
      if initialized {
        lib := new AIInterfaceLibrary();
      } else {
        lib := null;
      }
      loadedAIInterfaceLibs := loadedAIInterfaceLibs[i := lib];
      assert Contents() == old(Contents())[i := if lib == null then Failed else Running(map[])];
      OpenedSound(infos, old(Contents()), Contents(), i);
    }

    method FetchSkirmishAILibrary(key: AIKey) returns (lib: Option<SkirmishAILibrary>)
      requires Valid()
      modifies this, Libs()
      ensures Valid() && fresh(Libs() - old(Libs()))
      ensures Fetched(infos, old(Contents()), Contents(), key, lib.Some?)
    {
      if key !in infos.skirmishAIs {
        FetchFails(infos, Contents(), Contents(), key);
        return None;
      }
      var i := infos.interfaceOf(key);
      var intLib := FetchInterface(i);
      ghost var ready := Contents();
      if intLib == null {
        FetchFails(infos, old(Contents()), Contents(), key);
        return None;
      }
      var aiLib := intLib.FetchSkirmishAILibrary(key);
      assert Contents() == ready[i := Contents()[i]];
      FetchSucceeds(infos, old(Contents()), ready, Contents(), key);
      lib := Some(aiLib);
    }

    /** Drops the interface, unless it still has users. */
    method ReleaseInterface(i: InterfaceKey)
      requires Owned()
      requires i in loadedAIInterfaceLibs ==> loadedAIInterfaceLibs[i] != null
      modifies this
      ensures Owned() && Libs() <= old(Libs())
      ensures Closed(old(Contents()), Contents(), i)
    {
      if i !in loadedAIInterfaceLibs {
        assert Contents() - {i} == Contents();
        return;
      }
      var loadCount := loadedAIInterfaceLibs[i].GetLoadCount();
      ghost var view := Contents();
      assert forall k :: UsersIn(view, i, k) == CountIn(loadedAIInterfaceLibs[i].skirmishAILoadCount, k);
      if loadCount != 0 {
        return;
      }
      loadedAIInterfaceLibs := loadedAIInterfaceLibs - {i};
      assert Contents() == old(Contents()) - {i};
    }

    method ReleaseSkirmishAILibrary(key: AIKey)
      requires Valid()
      modifies this, Libs()
      ensures Valid() && fresh(Libs() - old(Libs()))
      ensures Released(infos, old(Contents()), Contents(), key)
    {
      var i := infos.interfaceOf(key);
      var intLib := FetchInterface(i);
      ghost var ready := Contents();
      if intLib == null {
        ReleaseOfDead(infos, old(Contents()), Contents(), key);
        return;
      }
      var _ := intLib.ReleaseSkirmishAILibrary(key);
      ghost var released := Contents();
      assert released == ready[i := released[i]];
      ReleaseInterface(i);
      ReleaseSucceeds(infos, old(Contents()), ready, released, Contents(), key);
    }
  }

  // ---- the wrappers, as users of the manager ----

  /** A wrapper between PreInit and Kill; opened tells whether its fetch gave a library. */
  datatype Client = Client(key: AIKey, hasLibrary: bool)

  /** The live wrappers that got the library of key. */
  ghost function Holders(clients: map<int, Client>, key: AIKey): set<int> {
    set id | id in clients && clients[id] == Client(key, true)
  }

  /** Every fetch is accounted for: what holds no library never will. */
  ghost predicate Accounted(infos: Infos, view: View, clients: map<int, Client>) {
    && (forall key :: Users(infos, view, key) == |Holders(clients, key)|)
    && (forall id :: id in clients && !clients[id].hasLibrary ==> Dead(infos, view, clients[id].key))
  }

  lemma HoldersStep(clients: map<int, Client>, id: int, client: Client)
    requires id !in clients
    ensures forall key :: |Holders(clients[id := client], key)| ==
                          |Holders(clients, key)| + if client == Client(key, true) then 1 else 0
  {
    forall key
      ensures |Holders(clients[id := client], key)| ==
              |Holders(clients, key)| + if client == Client(key, true) then 1 else 0
    {
      HoldersOneMore(clients, id, client, key);
    }
  }

  lemma HoldersOneMore(clients: map<int, Client>, id: int, client: Client, key: AIKey)
    requires id !in clients
    ensures |Holders(clients[id := client], key)| ==
            |Holders(clients, key)| + if client == Client(key, true) then 1 else 0
  {
    var before, after := Holders(clients, key), Holders(clients[id := client], key);
    assert id !in before;
    if client == Client(key, true) {
      assert after == before + {id};
    } else {
      assert after == before;
    }
  }

  /** No wrapper, no user, and so no interface left running. */
  lemma NothingLeft(infos: Infos, view: View)
    requires Accounted(infos, view, map[]) && Sound(infos, view) && NoIdleInterface(view)
    ensures forall key :: Users(infos, view, key) == 0
    ensures forall i :: i in view ==> view[i] == Failed
  {
    forall key
      ensures Users(infos, view, key) == 0
    {
      assert Holders(map[], key) == {};
    }
    assert forall i, k :: UsersIn(view, i, k) <= Users(infos, view, k);
  }

  class Session {
    const manager: AILibraryManager
    var clients: map<int, Client>

    ghost predicate Valid()
      reads this, manager, manager.Libs()
    {
      && manager.Valid()
      && NoIdleInterface(manager.Contents())
      && Accounted(manager.infos, manager.Contents(), clients)
    }

    constructor (infos: Infos)
      ensures Valid() && clients == map[] && fresh(manager) && fresh(manager.Libs())
    {
      manager := new AILibraryManager(infos);
      clients := map[];
      new;
      assert forall key :: Holders(clients, key) == {};
    }

    /** InitLibrary: the wrapper keeps what the fetch gave, if anything. */
    method InitLibrary(id: int, key: AIKey) returns (lib: Option<SkirmishAILibrary>)
      requires Valid() && id !in clients
      modifies this, manager, manager.Libs()
      ensures Valid() && fresh(manager.Libs() - old(manager.Libs()))
      ensures clients == old(clients)[id := Client(key, lib.Some?)]
    {
      lib := manager.FetchSkirmishAILibrary(key);
      HoldersStep(clients, id, Client(key, lib.Some?));
      clients := clients[id := Client(key, lib.Some?)];
    }

    /** Kill releases whether or not the fetch had given a library. */
    method Kill(id: int)
      requires Valid() && id in clients
      modifies this, manager, manager.Libs()
      ensures Valid() && fresh(manager.Libs() - old(manager.Libs()))
      ensures clients == old(clients) - {id}
      ensures clients == map[] ==> forall i :: i in manager.Contents() ==> manager.Contents()[i] == Failed
    {
      var client := clients[id];
      clients := clients - {id};
      HoldersStep(clients, id, client);
      assert clients[id := client] == old(clients);
      manager.ReleaseSkirmishAILibrary(client.key);
      if clients == map[] {
        NothingLeft(manager.infos, manager.Contents());
      }
    }

    /** IsLoadSupported fetches the library of a wrapper and releases it again. */
    method IsLoadSupported(key: AIKey)
      requires Valid()
      modifies manager, manager.Libs()
      ensures Valid() && fresh(manager.Libs() - old(manager.Libs()))
      ensures forall k ::
                Users(manager.infos, manager.Contents(), k) == old(Users(manager.infos, manager.Contents(), k))
    {
      var _ := manager.FetchSkirmishAILibrary(key);
      ghost var during := manager.Contents();
      manager.ReleaseSkirmishAILibrary(key);
    }
  }
}
