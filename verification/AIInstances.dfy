/**
 The Skirmish AI instances of a game: an array of slots, and beside it a map of the
 slots in use and their number.
 */
module AIInstances {
  import opened Sequences

  const MAX_AIS := 255

  /** Unused slots have no name. */
  datatype SkirmishAIData = SkirmishAIData(shortName: string, team: int, hostPlayer: int, isLuaAI: bool)

  const UNUSED := SkirmishAIData("", -1, -1, false)

  predicate IsValid(data: SkirmishAIData) {
    data.shortName != ""
  }

  // ---- what the slots say ----

  function ValidSlots(slots: seq<SkirmishAIData>): set<nat> {
    set id: nat | id < |slots| && IsValid(slots[id])
  }

  lemma ValidSlotsStep(slots: seq<SkirmishAIData>, id: nat, data: SkirmishAIData)
    requires id < |slots|
    ensures ValidSlots(slots[id := data]) ==
            if IsValid(data) then ValidSlots(slots) + {id} else ValidSlots(slots) - {id}
  {
  }

  lemma {:induction false} ValidSlotsBound(slots: seq<SkirmishAIData>)
    ensures |ValidSlots(slots)| <= |slots|
  {
    if slots == [] {
      assert ValidSlots(slots) == {};
    } else {
      var n := |slots| - 1;
      ValidSlotsBound(slots[..n]);
      assert ValidSlots(slots) == ValidSlots(slots[..n]) + if IsValid(slots[n]) then {n} else {};
    }
  }

  /** Whether an AI is asked for; a negative host player stands for any. */
  predicate Wanted(data: SkirmishAIData, team: int, hostPlayer: int) {
    data.team == team && (hostPlayer < 0 || data.hostPlayer == hostPlayer)
  }

  /** The wanted AIs among the first n slots, by one pass over them. */
  function Scan(slots: seq<SkirmishAIData>, team: int, hostPlayer: int, n: nat): seq<nat>
    requires n <= |slots|
  {
    if n == 0 then []
    else
      var found := Scan(slots, team, hostPlayer, n - 1);
      if IsValid(slots[n - 1]) && Wanted(slots[n - 1], team, hostPlayer) then found + [n - 1] else found
  }

  function Below(): (nat, nat) -> bool {
    (i: nat, j: nat) => i < j
  }

  lemma {:induction false} ScanFinds(slots: seq<SkirmishAIData>, team: int, hostPlayer: int, n: nat)
    requires n <= |slots|
    ensures StrictlySorted(Below(), Scan(slots, team, hostPlayer, n))
    ensures forall id: nat :: id in Scan(slots, team, hostPlayer, n) <==>
              id < n && IsValid(slots[id]) && Wanted(slots[id], team, hostPlayer)
  {
    if n > 0 {
      ScanFinds(slots, team, hostPlayer, n - 1);
      var found := Scan(slots, team, hostPlayer, n - 1);
      assert forall k :: 0 <= k < |found| ==> found[k] in found;
    }
  }

  // ---- sorting ----

  /** id at its place in an ascending list. */
  function Inserted(ids: seq<nat>, id: nat): seq<nat> {
    if ids == [] || ids[|ids| - 1] < id then ids + [id]
    else Inserted(ids[..|ids| - 1], id) + [ids[|ids| - 1]]
  }

  lemma {:induction false} InsertedIsSorted(ids: seq<nat>, id: nat)
    requires StrictlySorted(Below(), ids) && id !in ids
    ensures StrictlySorted(Below(), Inserted(ids, id))
    ensures forall x :: x in Inserted(ids, id) <==> x in ids || x == id
  {
    if ids != [] && ids[|ids| - 1] >= id {
      var init, last := ids[..|ids| - 1], ids[|ids| - 1];
      assert ids == init + [last];
      InsertedIsSorted(init, id);
      var inserted := Inserted(init, id);
      assert forall k :: 0 <= k < |inserted| ==> inserted[k] in inserted;
      assert forall x :: x in init ==> x < last;
    }
  }

  /** std::sort: the same ids, ascending. */
  method Sort(ids: seq<nat>) returns (sorted: seq<nat>)
    requires NoDuplicates(ids)
    ensures StrictlySorted(Below(), sorted)
    ensures forall x :: x in sorted <==> x in ids
  {
    sorted := [];
    for k := 0 to |ids|
      invariant StrictlySorted(Below(), sorted)
      invariant forall x :: x in sorted <==> x in ids[..k]
    {
      assert ids[..k + 1] == ids[..k] + [ids[k]];
      InsertedIsSorted(sorted, ids[k]);
      sorted := Inserted(sorted, ids[k]);
    }
    assert ids[..|ids|] == ids;
  }

  // ---- the handler ----

  function IndexOf(slots: seq<SkirmishAIData>): map<nat, nat> {
    map id | id in ValidSlots(slots) :: id
  }

  lemma KeysOfIndex(slots: seq<SkirmishAIData>)
    ensures IndexOf(slots).Keys == ValidSlots(slots)
  {
  }

  lemma CountStep(slots: seq<SkirmishAIData>, id: nat, data: SkirmishAIData)
    requires id < |slots|
    ensures |ValidSlots(slots[id := data])| ==
            |ValidSlots(slots)| - (if IsValid(slots[id]) then 1 else 0) + if IsValid(data) then 1 else 0
  {
    ValidSlotsStep(slots, id, data);
    var others := ValidSlots(slots) - {id};
    assert ValidSlots(slots) == if IsValid(slots[id]) then others + {id} else others;
    assert ValidSlots(slots[id := data]) == if IsValid(data) then others + {id} else others;
  }

  lemma IndexOfStep(slots: seq<SkirmishAIData>, id: nat, data: SkirmishAIData)
    requires id < |slots|
    ensures IndexOf(slots[id := data]) == if IsValid(data) then IndexOf(slots)[id := id] else IndexOf(slots) - {id}
  {
    KeysOfIndex(slots);
    KeysOfIndex(slots[id := data]);
    ValidSlotsStep(slots, id, data);
  }

  /** A list holds the wanted AIs of those walked so far, once each. */
  ghost predicate Collected(slots: seq<SkirmishAIData>, team: int, hostPlayer: int, rest: set<nat>, ids: seq<nat>) {
    && rest <= ValidSlots(slots)
    && NoDuplicates(ids)
    && forall id: nat :: id in ids <==> id in ValidSlots(slots) && id !in rest && Wanted(slots[id], team, hostPlayer)
  }

  lemma CollectedStep(slots: seq<SkirmishAIData>, team: int, hostPlayer: int, rest: set<nat>, ids: seq<nat>, id: nat)
    requires Collected(slots, team, hostPlayer, rest, ids) && id in rest
    ensures Collected(slots, team, hostPlayer, rest - {id},
                      if Wanted(slots[id], team, hostPlayer) then ids + [id] else ids)
  {
  }

  lemma CollectedAll(slots: seq<SkirmishAIData>, team: int, hostPlayer: int, ids: seq<nat>, sorted: seq<nat>)
    requires Collected(slots, team, hostPlayer, {}, ids)
    requires StrictlySorted(Below(), sorted) && forall x :: x in sorted <==> x in ids
    ensures sorted == Scan(slots, team, hostPlayer, |slots|)
  {
    ScanFinds(slots, team, hostPlayer, |slots|);
    assert StrictTotalOrder(Below());
    StrictlySortedUnique(Below(), sorted, Scan(slots, team, hostPlayer, |slots|));
  }

  /** The data of an AI once the names of the Lua AIs are known. */
  function Completed(data: SkirmishAIData, luaNames: set<string>): SkirmishAIData {
    data.(isLuaAI := data.shortName in luaNames)
  }

  /** What becomes of the slots when a game is loaded. */
  function Reloaded(slots: seq<SkirmishAIData>, luaNames: set<string>): (r: seq<SkirmishAIData>)
    ensures |r| == |slots|
  {
    seq(|slots|, i requires 0 <= i < |slots| => if IsValid(slots[i]) then Completed(slots[i], luaNames) else UNUSED)
  }

  lemma ReloadKeepsIndex(slots: seq<SkirmishAIData>, luaNames: set<string>)
    ensures ValidSlots(Reloaded(slots, luaNames)) == ValidSlots(slots)
    ensures IndexOf(Reloaded(slots, luaNames)) == IndexOf(slots)
    ensures Reloaded(Reloaded(slots, luaNames), luaNames) == Reloaded(slots, luaNames)
  {
  }

  class SkirmishAIHandler {
    const aiInstanceData: array<SkirmishAIData>
    const aiKillFlags: array<int>
    /** Ids with the slots they point to. */
    var skirmishAIDataMap: map<nat, nat>
    /** Eight bits wide. */
    var numSkirmishAIs: nat
    var luaAIShortNames: set<string>
    var gameInitialized: bool

    ghost predicate Sized()
      reads this
    {
      aiInstanceData.Length == aiKillFlags.Length == MAX_AIS
    }

    /** The map leads to each slot in use, and nowhere else, and the count is right. */
    ghost predicate Valid()
      reads this, aiInstanceData
    {
      && Sized()
      && skirmishAIDataMap == IndexOf(aiInstanceData[..])
      && numSkirmishAIs == |ValidSlots(aiInstanceData[..])|
    }

    constructor ()
      ensures Valid() && fresh(aiInstanceData) && fresh(aiKillFlags) && numSkirmishAIs == 0
    {
      aiInstanceData := new SkirmishAIData[MAX_AIS](_ => UNUSED);
      aiKillFlags := new int[MAX_AIS](_ => -1);
      skirmishAIDataMap, numSkirmishAIs, luaAIShortNames, gameInitialized := map[], 0, {}, false;
      new;
      assert ValidSlots(aiInstanceData[..]) == {};
    }

    method CompleteSkirmishAI(id: nat)
      requires Valid() && id < MAX_AIS
      modifies aiInstanceData
      ensures Valid()
      ensures aiInstanceData[..] ==
              var data := old(aiInstanceData[id]);
              if gameInitialized && data.shortName != ""
              then old(aiInstanceData[..])[id := data.(isLuaAI := data.shortName in luaAIShortNames)]
              else old(aiInstanceData[..])
    {
      if !gameInitialized {
        return;
      }
      if !IsValid(aiInstanceData[id]) {
        return;
      }
      ghost var slots := aiInstanceData[..];
      var data := Completed(aiInstanceData[id], luaAIShortNames);
      aiInstanceData[id] := data;
      assert aiInstanceData[..] == slots[id := data];
      IndexOfStep(slots, id, data);
      CountStep(slots, id, data);
    }

    method AddSkirmishAI(data: SkirmishAIData, id: nat) returns (ok: bool)
      requires Valid() && id < MAX_AIS && IsValid(data)
      modifies this`skirmishAIDataMap, this`numSkirmishAIs, aiInstanceData
      ensures Valid() && (ok <==> old(aiInstanceData[id]).shortName == "")
      ensures aiInstanceData[..] ==
              if !ok then old(aiInstanceData[..])
              else if !gameInitialized then old(aiInstanceData[..])[id := data]
              else old(aiInstanceData[..])[id := data.(isLuaAI := data.shortName in luaAIShortNames)]
      ensures numSkirmishAIs == old(numSkirmishAIs) + if ok then 1 else 0
    {
      if IsValid(aiInstanceData[id]) {
        return false;
      }
      ghost var slots := aiInstanceData[..];
      aiInstanceData[id] := data;
      assert aiInstanceData[..] == slots[id := data];
      IndexOfStep(slots, id, data);
      CountStep(slots, id, data);
      ValidSlotsBound(aiInstanceData[..]);
      skirmishAIDataMap := skirmishAIDataMap[id := id];
      numSkirmishAIs := (numSkirmishAIs + 1) % 256;
      CompleteSkirmishAI(id);
      ok := true;
    }

    method RemoveSkirmishAI(id: nat) returns (ok: bool)
      requires Valid() && id < MAX_AIS
      modifies this`skirmishAIDataMap, this`numSkirmishAIs, aiInstanceData, aiKillFlags
      ensures Valid() && (ok <==> old(aiInstanceData[id]).shortName != "")
      ensures aiInstanceData[..] ==
              if ok then old(aiInstanceData[..])[id := SkirmishAIData("", -1, -1, false)] else old(aiInstanceData[..])
      ensures aiKillFlags[..] == if ok then old(aiKillFlags[..])[id := -1] else old(aiKillFlags[..])
      ensures numSkirmishAIs == old(numSkirmishAIs) - if ok then 1 else 0
    {
      if !IsValid(aiInstanceData[id]) {
        return false;
      }
      ghost var slots := aiInstanceData[..];
      aiKillFlags[id] := -1;
      aiInstanceData[id] := UNUSED;
      assert aiInstanceData[..] == slots[id := UNUSED];
      IndexOfStep(slots, id, UNUSED);
      CountStep(slots, id, UNUSED);
      ValidSlotsBound(slots);
      skirmishAIDataMap := skirmishAIDataMap - {id};
      numSkirmishAIs := (numSkirmishAIs + 255) % 256;
      ok := true;
    }

    method ResetState()
      requires Sized()
      modifies this, aiInstanceData, aiKillFlags
      ensures Valid() && numSkirmishAIs == 0 && !gameInitialized && luaAIShortNames == {}
      ensures forall k :: 0 <= k < MAX_AIS ==> aiInstanceData[k] == UNUSED && aiKillFlags[k] == -1
    {
      forall k | 0 <= k < aiInstanceData.Length {
        aiInstanceData[k] := UNUSED;
      }
      forall k | 0 <= k < aiKillFlags.Length {
        aiKillFlags[k] := -1;
      }
      skirmishAIDataMap, luaAIShortNames, numSkirmishAIs, gameInitialized := map[], {}, 0, false;
      assert ValidSlots(aiInstanceData[..]) == {};
    }

    /** The Lua AIs become known, and the data of all AIs is completed. */
    method LoadPreGame(luaNames: set<string>)
      requires Valid() && !gameInitialized
      modifies this`luaAIShortNames, this`gameInitialized, aiInstanceData
      ensures Valid() && gameInitialized && luaAIShortNames == old(luaAIShortNames) + luaNames
      ensures forall k :: 0 <= k < MAX_AIS ==>
                var data := old(aiInstanceData[k]);
                aiInstanceData[k] ==
                  if data.shortName != "" then data.(isLuaAI := data.shortName in luaAIShortNames) else data
    {
      luaAIShortNames := luaAIShortNames + luaNames;
      gameInitialized := true;
      ghost var slots := aiInstanceData[..];
      for i := 0 to MAX_AIS
        invariant Valid() && gameInitialized && luaAIShortNames == old(luaAIShortNames) + luaNames
        invariant forall k :: 0 <= k < MAX_AIS ==>
                    aiInstanceData[k] ==
                    if k < i && IsValid(slots[k]) then Completed(slots[k], luaAIShortNames) else slots[k]
      {
        CompleteSkirmishAI(i);
        assert forall k :: 0 <= k < MAX_AIS ==> aiInstanceData[k] == aiInstanceData[..][k];
      }
    }

    /**
     After loading, the slots are all that is known; map and count are built anew, and come out as
     they were when the game was saved.
     */
    method PostLoad(luaNames: set<string>)
      requires Sized()
      modifies this, aiInstanceData, aiKillFlags
      ensures Valid() && gameInitialized
      ensures aiInstanceData[..] == Reloaded(old(aiInstanceData[..]), luaNames)
      ensures skirmishAIDataMap == IndexOf(old(aiInstanceData[..]))
      ensures forall k :: 0 <= k < MAX_AIS ==>
                var data := old(aiInstanceData[k]);
                aiInstanceData[k] ==
                  if data.shortName != "" then data.(isLuaAI := data.shortName in luaNames)
                  else SkirmishAIData("", -1, -1, false)
      ensures forall id: nat :: id in skirmishAIDataMap <==> id < MAX_AIS && old(aiInstanceData[..])[id].shortName != ""
      ensures forall id :: id in skirmishAIDataMap ==> skirmishAIDataMap[id] == id
      ensures numSkirmishAIs == |skirmishAIDataMap|
      ensures forall k :: 0 <= k < MAX_AIS ==> aiKillFlags[k] == -1
    {
      var aiDataCont := aiInstanceData[..];
      ResetState();
      for i := 0 to MAX_AIS
        invariant Valid() && !gameInitialized && luaAIShortNames == {}
        invariant forall k :: 0 <= k < MAX_AIS ==>
                    aiInstanceData[k] == if k < i && IsValid(aiDataCont[k]) then aiDataCont[k] else UNUSED
        invariant forall k :: 0 <= k < MAX_AIS ==> aiKillFlags[k] == -1
      {
        ghost var before := aiInstanceData[..];
        if IsValid(aiDataCont[i]) {
          var ok := AddSkirmishAI(aiDataCont[i], i);
          assert aiInstanceData[..] == before[i := aiDataCont[i]];
          assert forall k :: 0 <= k < MAX_AIS ==> aiInstanceData[k] == aiInstanceData[..][k];
        }
      }
      LoadPreGame(luaNames);
      assert aiInstanceData[..] == Reloaded(aiDataCont, luaNames);
      ReloadKeepsIndex(aiDataCont, luaNames);
      KeysOfIndex(aiDataCont);
    }

    /** Through the map, in whatever order it is walked, then sorted: the same as a pass over all slots. */
    method GetSkirmishAIsInTeam(team: int, hostPlayer: int) returns (ids: seq<nat>)
      requires Valid()
      ensures ids == Scan(aiInstanceData[..], team, hostPlayer, MAX_AIS)
      ensures forall i, j :: 0 <= i < j < |ids| ==> ids[i] < ids[j]
      ensures forall id: nat ::
                id in ids <==>
                  id < MAX_AIS && aiInstanceData[id].shortName != "" && aiInstanceData[id].team == team &&
                  (hostPlayer < 0 || aiInstanceData[id].hostPlayer == hostPlayer)
    {
      var slots := aiInstanceData[..];
      KeysOfIndex(slots);
      ScanFinds(slots, team, hostPlayer, MAX_AIS);
      ids := [];
      if skirmishAIDataMap == map[] {
        CollectedAll(slots, team, hostPlayer, ids, ids);
        return;
      }
      var rest := skirmishAIDataMap;
      while rest != map[]
        invariant forall id :: id in rest ==> rest[id] == id
        invariant Collected(slots, team, hostPlayer, rest.Keys, ids)
        decreases |rest|
      {
        var id :| id in rest;
        var aiData := aiInstanceData[rest[id]];
        RemoveShrinks(rest, id);
        CollectedStep(slots, team, hostPlayer, rest.Keys, ids, id);
        assert (rest - {id}).Keys == rest.Keys - {id};
        rest := rest - {id};
        if aiData.team != team {
          continue;
        }
        if hostPlayer >= 0 && aiData.hostPlayer != hostPlayer {
          continue;
        }
        ids := ids + [id];
      }
      var sorted := Sort(ids);
      CollectedAll(slots, team, hostPlayer, ids, sorted);
      ids := sorted;
    }
  }
}
