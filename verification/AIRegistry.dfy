/**
 The registries of the local Skirmish AIs, and the operations on them: creation, events, destruction.
 */
module AIRegistry {
  import opened Sequences
  import opened AILifecycle

  /**
   The active list and the team lists hold each active AI once, the latter under the team its wrapper
   names; the wrapper of an inactive AI names neither AI nor team.
   */
  ghost predicate Registry(h: World, active: seq<nat>, teams: seq<seq<nat>>) {
    && NoDuplicates(active)
    && (forall id :: id in active ==> id < |h.wrappers| && 0 <= h.wrappers[id].teamId < |teams|)
    && (forall id :: 0 <= id < |h.wrappers| ==> h.wrappers[id].skirmishAIId == if id in active then id else -1)
    && (forall id :: 0 <= id < |h.wrappers| && id !in active ==> h.wrappers[id].teamId == -1)
    && (forall t :: 0 <= t < |teams| ==> NoDuplicates(teams[t]))
    && (forall t: nat, id: nat {:trigger id in teams[t]} :: t < |teams| ==>
          (id in teams[t] <==> id < |h.wrappers| && h.wrappers[id].teamId == t))
  }

  /** Every active AI is in exactly one team list, and nothing else is in any. */
  lemma ActiveIsDisjointUnion(h: World, active: seq<nat>, teams: seq<seq<nat>>, id: nat)
    requires Registry(h, active, teams)
    ensures id in active <==> exists t: nat :: t < |teams| && id in teams[t]
    ensures forall t: nat, u: nat :: t < |teams| && u < |teams| && id in teams[t] && id in teams[u] ==> t == u
  {
    if id in active {
      var t: nat := h.wrappers[id].teamId;
      assert id in teams[t];
    }
  }

  lemma SameIdsSameRegistry(h: World, h': World, active: seq<nat>, teams: seq<seq<nat>>)
    requires Registry(h, active, teams) && SameIds(h, h')
    ensures Registry(h', active, teams)
  {
  }

  lemma AddToRegistry(h: World, active: seq<nat>, teams: seq<seq<nat>>, id: nat, w: Wrapper)
    requires Registry(h, active, teams) && id !in active && id < |h.wrappers|
    requires w.skirmishAIId == id && 0 <= w.teamId < |teams|
    ensures Registry(With(h, id, w), active + [id], teams[w.teamId := teams[w.teamId] + [id]])
  {
    assert h.wrappers[id].teamId == -1;
    assert id !in teams[w.teamId];
    assert NoDuplicates(teams[w.teamId] + [id]) && NoDuplicates(active + [id]);
    var h', teams' := With(h, id, w), teams[w.teamId := teams[w.teamId] + [id]];
    assert forall x :: 0 <= x < |h.wrappers| ==> h'.wrappers[x] == if x == id then w else h.wrappers[x];
    forall t: nat, x: nat | t < |teams|
      ensures x in teams'[t] <==> x < |h.wrappers| && h'.wrappers[x].teamId == t
    {
      assert x in teams[t] <==> x < |h.wrappers| && h.wrappers[x].teamId == t;
    }
    assert forall x :: x in active + [id] <==> x in active || x == id;
    assert forall x :: 0 <= x < |h.wrappers| ==> h'.wrappers[x].skirmishAIId == if x in active + [id] then x else -1;
  }

  function RemoveAt<T>(s: seq<T>, k: nat): seq<T>
    requires k < |s|
  {
    s[..k] + s[k + 1..]
  }

  lemma RemoveAtRemoves<T>(s: seq<T>, k: nat)
    requires k < |s| && NoDuplicates(s)
    ensures NoDuplicates(RemoveAt(s, k))
    ensures forall x :: x in RemoveAt(s, k) <==> x in s && x != s[k]
  {
    assert s == s[..k] + [s[k]] + s[k + 1..];
  }

  lemma RemoveFromRegistry(h: World, active: seq<nat>, teams: seq<seq<nat>>, id: nat, j: nat, k: nat)
    requires Registry(h, active, teams)
    requires j < |active| && active[j] == id
    requires id < |h.wrappers| && 0 <= h.wrappers[id].teamId < |teams|
    requires k < |teams[h.wrappers[id].teamId]| && teams[h.wrappers[id].teamId][k] == id
    ensures var t := h.wrappers[id].teamId;
            Registry(With(h, id, Inactive(h.wrappers[id])), RemoveAt(active, j), teams[t := RemoveAt(teams[t], k)])
  {
    var w := h.wrappers[id];
    RemoveAtRemoves(active, j);
    RemoveAtRemoves(teams[w.teamId], k);
    var h', teams' := With(h, id, Inactive(w)), teams[w.teamId := RemoveAt(teams[w.teamId], k)];
    assert forall x :: 0 <= x < |h.wrappers| ==> h'.wrappers[x] == if x == id then Inactive(w) else h.wrappers[x];
    forall t: nat, x: nat | t < |teams|
      ensures x in teams'[t] <==> x < |h.wrappers| && h'.wrappers[x].teamId == t
    {
      assert x in teams[t] <==> x < |h.wrappers| && h.wrappers[x].teamId == t;
    }
  }

  lemma FewerIsCoherent(h: World, active: seq<nat>, fewer: seq<nat>)
    requires Coherent(h, active) && forall id :: id in fewer ==> id in active
    ensures Coherent(h, fewer)
  {
  }

  lemma RefusedIsFlagged(h: World, active: seq<nat>, id: nat, reaction: Reaction)
    requires Coherent(h, active) && id in active && Deliverable(h.wrappers[id], true, Init)
    ensures reaction.code != 0 ==> InitSent(h, active, id, reaction).killFlags[id] == FAILED_TO_INIT
  {
  }

  /** Everything the engine does to wrapper id between its removal from the registries and its end. */
  function Killed(h: World, active: seq<nat>, id: nat, onRelease: Reaction, release: Reaction): (h': World)
    requires id < |h.wrappers|
    ensures |h'.wrappers| == |h.wrappers|
  {
    var released := LibraryReleased(Released(h, active, id, onRelease), active, id, release);
    With(released, id, Inactive(released.wrappers[id]))
  }

  /** AI id is over: it got its RELEASE event if it had handled INIT, and its library instance was released. */
  ghost predicate Over(w: Wrapper, w': Wrapper) {
    var p, p' := PhaseOf(w.trace), PhaseOf(w'.trace);
    p'.stage == (if w.initialized then Gone else p.stage) && !p'.held && !w'.library
  }

  /** The other AIs are at the stage they were at, and those not active are left alone. */
  ghost predicate OthersStay(before: seq<Wrapper>, after: seq<Wrapper>, active: seq<nat>, id: nat) {
    && |after| == |before|
    && forall x :: 0 <= x < |before| && x != id ==>
         SameStage(before[x], after[x]) && (x !in active ==> after[x] == before[x])
  }

  lemma KilledKeeps(h: World, active: seq<nat>, id: nat, onRelease: Reaction, release: Reaction)
    requires Coherent(h, active) && id < |h.wrappers| && id !in active
    requires Alive(h.wrappers[id], h.killFlags[id], h.data[id])
    ensures var h' := Killed(h, active, id, onRelease, release);
            && Coherent(h', active) && Over(h.wrappers[id], h'.wrappers[id])
            && OthersStay(h.wrappers, h'.wrappers, active, id)
  {
    var h1 := Released(h, active, id, onRelease);
    ReleasedKeeps(h, active, id, onRelease);
    var h2 := LibraryReleased(h1, active, id, release);
    LibraryReleasedKeeps(h1, active, id, release);
    OthersEvolvedTransitive(h, h1, h2, active, id);
    assert h2.wrappers[id] in h2.wrappers;
    WithIsCoherent(h2, active, id, Inactive(h2.wrappers[id]));
    forall x | 0 <= x < |h.wrappers| && x != id
      ensures Killed(h, active, id, onRelease, release).wrappers[x] == h2.wrappers[x] &&
              Evolved(h.wrappers[x], h2.wrappers[x], x in active)
    {
    }
  }

  /** The end of an AI that calls nothing back. */
  lemma QuietKilled(h: World, active: seq<nat>, id: nat, onRelease: Reaction, release: Reaction)
    requires id < |h.wrappers| && !h.wrappers[id].released
    requires onRelease.callbacks == [] && release.callbacks == []
    ensures
      var w := h.wrappers[id];
      Killed(h, active, id, onRelease, release) ==
        With(h, id, w.(
          skirmishAIId := -1, teamId := -1, library := false, released := w.released || w.initialized,
          trace := w.trace + (if w.initialized then [Delivered(Release)] else []) +
                   (if w.libraryInit then [LibraryRelease] else [])))
  {
    var w := h.wrappers[id];
    QuietHandled(h, active, id, Release, onRelease);
    var h1 := Released(h, active, id, onRelease);
    var w1 := w.(
      released := w.released || w.initialized,
      trace := w.trace + if w.initialized then [Delivered(Release)] else []);
    assert w.trace + [] == w.trace && w1.trace + [] == w1.trace;
    assert h.wrappers[id := w] == h.wrappers;
    assert h1 == With(h, id, w1);
    assert h1.wrappers[id := w1] == h1.wrappers;
    CallsNothing(With(h1, id, Noting(w1, LibraryRelease)), active, id);
    var h2 := LibraryReleased(h1, active, id, release);
    assert h2 == With(h, id, w1.(trace := w1.trace + if w.libraryInit then [LibraryRelease] else []));
  }

  lemma KilledSameIds(h: World, active: seq<nat>, id: nat, onRelease: Reaction, release: Reaction)
    requires Coherent(h, active) && id < |h.wrappers| && id !in active
    requires Alive(h.wrappers[id], h.killFlags[id], h.data[id])
    ensures SameIds(h, LibraryReleased(Released(h, active, id, onRelease), active, id, release))
  {
    ReleasedKeeps(h, active, id, onRelease);
    LibraryReleasedKeeps(Released(h, active, id, onRelease), active, id, release);
    OthersEvolvedTransitive(h, Released(h, active, id, onRelease),
                            LibraryReleased(Released(h, active, id, onRelease), active, id, release), active, id);
  }

  ghost predicate SameStage(w: Wrapper, w': Wrapper) {
    w'.initialized == w.initialized && PhaseOf(w'.trace).stage == PhaseOf(w.trace).stage
  }

  /** One event sent to the AIs in who, in list order. */
  function Sent(h: World, active: seq<nat>, ids: seq<nat>, who: set<nat>, react: nat -> Reaction): (h': World)
    ensures |h'.wrappers| == |h.wrappers|
  {
    if ids == [] then h
    else
      var id, h1 := ids[|ids| - 1], Sent(h, active, ids[..|ids| - 1], who, react);
      if id in who && id < |h.wrappers| then Handled(h1, active, id, Other, react(id)) else h1
  }

  lemma {:induction false} SentKeeps(h: World, active: seq<nat>, ids: seq<nat>, who: set<nat>, react: nat -> Reaction)
    requires Coherent(h, active) && forall id :: id in ids ==> id in active
    ensures Coherent(Sent(h, active, ids, who, react), active)
    ensures SameIds(h, Sent(h, active, ids, who, react))
  {
    if ids != [] {
      var id, fewer := ids[|ids| - 1], ids[..|ids| - 1];
      SentKeeps(h, active, fewer, who, react);
      var h1 := Sent(h, active, fewer, who, react);
      if id in who {
        HandledKeeps(h1, active, id, react(id));
        EvolvedIsSameIds(h1, Handled(h1, active, id, Other, react(id)), active, id);
        SameIdsTransitive(h, h1, Handled(h1, active, id, Other, react(id)));
      }
    }
  }

  lemma SentStep(h: World, active: seq<nat>, ids: seq<nat>, k: nat, who: set<nat>, react: nat -> Reaction)
    requires k < |ids|
    ensures
      var h1, id := Sent(h, active, ids[..k], who, react), ids[k];
      Sent(h, active, ids[..k + 1], who, react) ==
        if id in who && id < |h.wrappers| then Handled(h1, active, id, Other, react(id)) else h1
  {
    assert ids[..k + 1][..k] == ids[..k];
  }

  /** The states before the first AI's turn and after each AI's. */
  lemma SentSteps(h: World, active: seq<nat>, who: set<nat>, react: nat -> Reaction) returns (steps: seq<World>)
    requires forall id :: id in active ==> id < |h.wrappers|
    ensures |steps| == |active| + 1 && steps[0] == h && steps[|active|] == Sent(h, active, active, who, react)
    ensures
      forall k {:trigger active[k]} :: 0 <= k < |active| ==>
        var id, h1 := active[k], steps[k];
        && id < |h1.wrappers|
        && (id !in who || h1.wrappers[id].blockEvents ==> steps[k + 1] == h1)
        && (id in who && !h1.wrappers[id].blockEvents ==>
              var w := h1.wrappers[id];
              steps[k + 1] == Called(h1.(wrappers := h1.wrappers[id := w.(trace := w.trace + [Delivered(Other)])]),
                                     active, id, react(id).callbacks))
  {
    steps := seq(|active| + 1, k requires 0 <= k <= |active| => Sent(h, active, active[..k], who, react));
    assert active[..0] == [] && active[..|active|] == active;
    forall k | 0 <= k < |active|
      ensures active[k] in active
      ensures steps[k + 1] == if active[k] in who then Handled(steps[k], active, active[k], Other, react(active[k]))
                              else steps[k]
    {
      SentStep(h, active, active, k, who, react);
    }
    forall k | 0 <= k < |active| && active[k] in who
      ensures
        var id, h1 := active[k], steps[k];
        var w := h1.wrappers[id];
        var told := h1.(wrappers := h1.wrappers[id := w.(trace := w.trace + [Delivered(Other)])]);
        Handled(h1, active, id, Other, react(id)) ==
          if w.blockEvents then h1 else Called(told, active, id, react(id).callbacks)
    {
      HandledIs(steps[k], active, active[k], Other, react(active[k]));
    }
  }

  /** One event after the other, all for AI id. */
  function SentAll(h: World, active: seq<nat>, id: nat, reactions: seq<Reaction>): (h': World)
    requires id < |h.wrappers|
    ensures |h'.wrappers| == |h.wrappers|
  {
    if reactions == [] then h
    else Handled(SentAll(h, active, id, reactions[..|reactions| - 1]), active, id, Other, reactions[|reactions| - 1])
  }

  /** What one more event does after the ones before it. */
  lemma SentOneMore(h: World, active: seq<nat>, id: nat, sooner: seq<Reaction>, last: Reaction)
    requires id < |h.wrappers|
    ensures SentAll(h, active, id, []) == h
    ensures
      var h1 := SentAll(h, active, id, sooner);
      var w := h1.wrappers[id];
      SentAll(h, active, id, sooner + [last]) ==
        if w.blockEvents then h1
        else Called(h1.(wrappers := h1.wrappers[id := w.(trace := w.trace + [Delivered(Other)])]),
                    active, id, last.callbacks)
  {
    assert (sooner + [last])[..|sooner|] == sooner;
    HandledIs(SentAll(h, active, id, sooner), active, id, Other, last);
  }

  lemma {:induction false} SentAllConcat(h: World, active: seq<nat>, id: nat, a: seq<Reaction>, b: seq<Reaction>)
    requires id < |h.wrappers|
    ensures SentAll(h, active, id, a + b) == SentAll(SentAll(h, active, id, a), active, id, b)
  {
    if b == [] {
      assert a + b == a;
    } else {
      var sooner, last := b[..|b| - 1], b[|b| - 1];
      assert b == sooner + [last] && a + b == (a + sooner) + [last];
      SentAllConcat(h, active, id, a, sooner);
      SentOneMore(h, active, id, a + sooner, last);
      SentOneMore(SentAll(h, active, id, a), active, id, sooner, last);
    }
  }

  /** If it calls nothing back, an AI that is not blocked gets all of them, and nothing else happens. */
  lemma {:induction false} QuietSentAll(h: World, active: seq<nat>, id: nat, reactions: seq<Reaction>)
    requires id < |h.wrappers| && !h.wrappers[id].blockEvents
    requires forall k :: 0 <= k < |reactions| ==> reactions[k].callbacks == []
    ensures
      var w := h.wrappers[id];
      SentAll(h, active, id, reactions) == With(h, id, w.(trace := w.trace + seq(|reactions|, _ => Delivered(Other))))
  {
    var w := h.wrappers[id];
    if reactions == [] {
      assert w.trace + seq(0, _ => Delivered(Other)) == w.trace;
      assert h.wrappers[id := w] == h.wrappers;
    } else {
      var sooner, last := reactions[..|reactions| - 1], reactions[|reactions| - 1];
      QuietSentAll(h, active, id, sooner);
      QuietHandled(SentAll(h, active, id, sooner), active, id, Other, last);
      assert w.trace + seq(|sooner|, _ => Delivered(Other)) + [Delivered(Other)]
          == w.trace + seq(|reactions|, _ => Delivered(Other));
    }
  }

  lemma QuietFirstEvents(h: World, active: seq<nat>, id: nat, savedGame: bool, preSimFrame: bool, update: Reaction,
                         unitEvents: seq<Reaction>)
    requires id < |h.wrappers| && !h.wrappers[id].blockEvents && update.callbacks == []
    requires forall k :: 0 <= k < |unitEvents| ==> unitEvents[k].callbacks == []
    ensures
      SentAll(h, active, id, (if preSimFrame then [] else [update]) + (if savedGame then [] else unitEvents))
        .wrappers[id].trace ==
      h.wrappers[id].trace + (if preSimFrame then [] else [Delivered(Other)]) +
      (if savedGame then [] else seq(|unitEvents|, _ => Delivered(Other)))
  {
    var events := (if preSimFrame then [] else [update]) + (if savedGame then [] else unitEvents);
    QuietSentAll(h, active, id, events);
    var notes := (if preSimFrame then [] else [Delivered(Other)]) +
                 (if savedGame then [] else seq(|unitEvents|, _ => Delivered(Other)));
    assert notes == seq(|events|, _ => Delivered(Other));
    assert h.wrappers[id].trace + notes ==
           h.wrappers[id].trace + (if preSimFrame then [] else [Delivered(Other)]) +
           (if savedGame then [] else seq(|unitEvents|, _ => Delivered(Other)));
  }

  /** If nothing is called back, the event reaches exactly the AIs it is for that are not blocked, once each. */
  lemma {:induction false} QuietSent(h: World, active: seq<nat>, ids: seq<nat>, who: set<nat>, react: nat -> Reaction)
    requires NoDuplicates(ids) && forall id :: id in ids ==> id < |h.wrappers|
    requires forall id :: id in ids && id in who ==> react(id).callbacks == []
    ensures
      forall id :: 0 <= id < |h.wrappers| ==>
        var w := h.wrappers[id];
        Sent(h, active, ids, who, react).wrappers[id] ==
          if id in ids && id in who && !w.blockEvents then w.(trace := w.trace + [Delivered(Other)]) else w
  {
    if ids != [] {
      var last, fewer := ids[|ids| - 1], ids[..|ids| - 1];
      assert ids == fewer + [last];
      assert last !in fewer;
      assert forall id :: id in fewer ==> id in ids;
      QuietSent(h, active, fewer, who, react);
      assert last in ids;
      if last in who {
        QuietHandled(Sent(h, active, fewer, who, react), active, last, Other, react(last));
      }
    }
  }

  /** The two together, of an event for the active AIs. */
  lemma CalmSent(h: World, active: seq<nat>, who: set<nat>, react: nat -> Reaction)
    requires NoDuplicates(active) && forall id :: id in active ==> id < |h.wrappers|
    ensures AnswersCalm(active, who, react) ==> SameFlags(h, Sent(h, active, active, who, react))
    ensures
      (forall id :: id in active && id in who ==> react(id).callbacks == []) ==>
        forall id :: 0 <= id < |h.wrappers| ==>
          var w := h.wrappers[id];
          Sent(h, active, active, who, react).wrappers[id] ==
            if id in active && id in who && !w.blockEvents then w.(trace := w.trace + [Delivered(Other)]) else w
  {
    if AnswersCalm(active, who, react) {
      CalmSentKeepsFlags(h, active, active, who, react);
    }
    if forall id :: id in active && id in who ==> react(id).callbacks == [] {
      QuietSent(h, active, active, who, react);
    }
  }

  // ---- DIEING messages ----

  /** The AIs that messages will have destroyed; those for Lua AIs do nothing. */
  function Waiting(messages: seq<nat>, data: seq<AIData>): seq<nat> {
    if messages == [] then []
    else
      var id := messages[|messages| - 1];
      Waiting(messages[..|messages| - 1], data) + if id < |data| && !data[id].isLuaAI then [id] else []
  }

  /**
   Every message finds its AI active, as DestroySkirmishAI needs it: of one that is not, the source follows team
   id -1. And the active AIs that wait for their message are those with a kill flag.
   */
  ghost predicate OneEach(h: World, active: seq<nat>) {
    Matched(Waiting(h.dieing, h.data), h.killFlags, active)
  }

  ghost predicate Matched(waiting: seq<nat>, killFlags: seq<int>, active: seq<nat>) {
    && NoDuplicates(waiting)
    && (forall id :: id in waiting ==> id in active)
    && (forall id :: id in active && id < |killFlags| ==> (id in waiting <==> killFlags[id] != -1))
  }

  lemma WaitingOneMore(messages: seq<nat>, id: nat, data: seq<AIData>)
    ensures Waiting(messages + [id], data) ==
            Waiting(messages, data) + if id < |data| && !data[id].isLuaAI then [id] else []
  {
    assert (messages + [id])[..|messages|] == messages;
  }

  lemma MatchedFlag(waiting: seq<nat>, killFlags: seq<int>, active: seq<nat>, id: nat, reason: int)
    requires Matched(waiting, killFlags, active) && id < |killFlags| && reason != -1
    ensures Matched(waiting + [id], killFlags[id := reason], active) <==> id in active && killFlags[id] == -1
    ensures id !in active ==> Matched(waiting, killFlags[id := reason], active)
  {
    var waiting' := waiting + [id];
    assert waiting'[|waiting|] == id;
    assert forall x :: x in waiting' <==> x in waiting || x == id;
    if id in waiting {
      var k :| 0 <= k < |waiting| && waiting[k] == id;
      assert waiting'[k] == waiting'[|waiting|];
    }
  }

  /** SetLocalKillFlag keeps that exactly for active AIs without a kill flag, besides Lua AIs. */
  lemma FlagOnceIff(h: World, active: seq<nat>, id: nat, reason: int)
    requires Coherent(h, active) && OneEach(h, active) && id < |h.wrappers| && reason != -1
    ensures OneEach(Flagged(h, id, reason), active) <==>
            h.data[id].isLuaAI || (id in active && h.killFlags[id] == -1)
  {
    WaitingOneMore(h.dieing, id, h.data);
    MatchedFlag(Waiting(h.dieing, h.data), h.killFlags, active, id, reason);
    assert Waiting(h.dieing, h.data) + [] == Waiting(h.dieing, h.data);
    assert h.data[id].isLuaAI ==> id !in active;
  }

  /** AI code that never asks to die. */
  predicate Calm(callbacks: seq<Callback>)
    decreases callbacks
  {
    callbacks == [] || (Calm(callbacks[..|callbacks| - 1]) && CalmOnce(callbacks[|callbacks| - 1]))
  }

  predicate CalmOnce(callback: Callback)
    decreases callback
  {
    match callback
    case Die => false
    case Cause(_, reaction) => Calm(reaction.callbacks)
  }

  predicate AllCalm(reactions: seq<Reaction>) {
    forall i :: 0 <= i < |reactions| ==> Calm(reactions[i].callbacks)
  }

  predicate AnswersCalm(ids: seq<nat>, who: set<nat>, react: nat -> Reaction) {
    forall id :: id in ids && id in who ==> Calm(react(id).callbacks)
  }

  predicate SameFlags(h: Hosts, h': Hosts) {
    h'.killFlags == h.killFlags && h'.dieing == h.dieing && h'.data == h.data
  }

  lemma {:induction false} CalmKeepsFlags(h: World, active: seq<nat>, me: nat, callbacks: seq<Callback>)
    requires me < |h.wrappers| && Calm(callbacks)
    ensures SameFlags(h, Called(h, active, me, callbacks))
    decreases callbacks
  {
    if callbacks != [] {
      var sooner, last := callbacks[..|callbacks| - 1], callbacks[|callbacks| - 1];
      CalmKeepsFlags(h, active, me, sooner);
      CalmOnceKeepsFlags(Called(h, active, me, sooner), active, last);
    }
  }

  lemma CalmOnceKeepsFlags(h: World, active: seq<nat>, callback: Callback)
    requires CalmOnce(callback)
    ensures callback.id in active && callback.id < |h.wrappers| ==>
              SameFlags(h, Handled(h, active, callback.id, Other, callback.reaction))
    decreases callback
  {
    if callback.id in active && callback.id < |h.wrappers| {
      CalmHandledKeepsFlags(h, active, callback.id, Other, callback.reaction);
    }
  }

  lemma CalmHandledKeepsFlags(h: World, active: seq<nat>, id: nat, topic: Topic, reaction: Reaction)
    requires id < |h.wrappers| && Calm(reaction.callbacks)
    ensures SameFlags(h, Handled(h, active, id, topic, reaction))
    decreases reaction
  {
    var told := With(h, id, Noting(h.wrappers[id], Delivered(topic)));
    CalmKeepsFlags(told, active, id, reaction.callbacks);
  }

  lemma {:induction false} CalmSentKeepsFlags(
    h: World, active: seq<nat>, ids: seq<nat>, who: set<nat>, react: nat -> Reaction)
    requires AnswersCalm(ids, who, react)
    ensures SameFlags(h, Sent(h, active, ids, who, react))
  {
    if ids != [] {
      var id, fewer := ids[|ids| - 1], ids[..|ids| - 1];
      CalmSentKeepsFlags(h, active, fewer, who, react);
      if id in who && id < |h.wrappers| {
        CalmHandledKeepsFlags(Sent(h, active, fewer, who, react), active, id, Other, react(id));
      }
    }
  }

  lemma CalmKilledKeepsFlags(h: World, active: seq<nat>, id: nat, onRelease: Reaction, release: Reaction)
    requires id < |h.wrappers| && Calm(onRelease.callbacks) && Calm(release.callbacks)
    ensures SameFlags(h, Killed(h, active, id, onRelease, release))
  {
    CalmHandledKeepsFlags(h, active, id, Release, onRelease);
    var h1 := Released(h, active, id, onRelease);
    var noted := With(h1, id, Noting(h1.wrappers[id], LibraryRelease));
    CalmKeepsFlags(noted, active, id, release.callbacks);
  }

  /** The AI has been flagged once, or not at all. */
  predicate FlaggedOnceAtMost(h: Hosts, h': Hosts, id: nat)
    requires id < |h.killFlags|
  {
    || SameFlags(h, h')
    || (h'.killFlags == h.killFlags[id := FAILED_TO_INIT] && h'.dieing == h.dieing + [id] && h'.data == h.data)
  }

  lemma CalmStartFlagsOnce(h: World, active: seq<nat>, id: nat, found: bool, reaction: Reaction)
    requires id < |h.wrappers| && Calm(reaction.callbacks)
    ensures FlaggedOnceAtMost(h, LibraryStarted(h, active, id, found, reaction), id)
  {
    CalmKeepsFlags(With(h, id, h.wrappers[id].(library := true)), active, id, reaction.callbacks);
  }

  lemma CalmInitFlagsOnce(h: World, active: seq<nat>, id: nat, reaction: Reaction)
    requires id < |h.wrappers| && Calm(reaction.callbacks)
    ensures FlaggedOnceAtMost(h, InitSent(h, active, id, reaction), id)
  {
    CalmHandledKeepsFlags(h, active, id, Init, reaction);
  }

  /** One AI more is active, without kill flag, or with a kill flag and waiting. */
  lemma MatchedOneMore(waiting: seq<nat>, killFlags: seq<int>, active: seq<nat>, id: nat, reason: int)
    requires Matched(waiting, killFlags, active) && id !in active && id < |killFlags|
    ensures killFlags[id] == -1 ==> Matched(waiting, killFlags, active + [id])
    ensures reason != -1 ==> Matched(waiting + [id], killFlags[id := reason], active + [id])
  {
    assert id !in waiting;
    assert forall x :: x in active + [id] <==> x in active || x == id;
    assert forall x :: x in waiting + [id] <==> x in waiting || x == id;
  }

  /** An AI that becomes active without a kill flag, and is flagged once at most meanwhile, waits for one message. */
  lemma CreatedOnce(h: World, h': World, active: seq<nat>, id: nat)
    requires OneEach(h, active) && id !in active && id < |h.wrappers| == |h'.wrappers|
    requires h.killFlags[id] == -1 && !h.data[id].isLuaAI && FlaggedOnceAtMost(h, h', id)
    ensures OneEach(h', active + [id])
  {
    WaitingOneMore(h.dieing, id, h.data);
    MatchedOneMore(Waiting(h.dieing, h.data), h.killFlags, active, id, FAILED_TO_INIT);
  }

  lemma SameFlagsSameMessages(h: World, h': World, active: seq<nat>)
    requires OneEach(h, active) && SameFlags(h, h')
    ensures OneEach(h', active)
  {
  }

  lemma {:induction false} WaitingConcat(a: seq<nat>, b: seq<nat>, data: seq<AIData>)
    ensures Waiting(a + b, data) == Waiting(a, data) + Waiting(b, data)
  {
    if b == [] {
      assert a + b == a;
    } else {
      var sooner, last := b[..|b| - 1], b[|b| - 1];
      assert a + b == (a + sooner) + [last] && b == sooner + [last];
      WaitingConcat(a, sooner, data);
      WaitingOneMore(a + sooner, last, data);
      WaitingOneMore(sooner, last, data);
    }
  }

  lemma FirstWaiting(messages: seq<nat>, data: seq<AIData>)
    requires messages != []
    ensures Waiting(messages, data) == Waiting([messages[0]], data) + Waiting(messages[1..], data)
  {
    assert messages == [messages[0]] + messages[1..];
    WaitingConcat([messages[0]], messages[1..], data);
  }

  lemma OneWaiting(id: nat, data: seq<AIData>)
    ensures Waiting([id], data) == if id < |data| && !data[id].isLuaAI then [id] else []
  {
    assert [id] == [] + [id];
    WaitingOneMore([], id, data);
  }

  lemma FirstOnlyOnce(first: nat, rest: seq<nat>)
    requires NoDuplicates([first] + rest)
    ensures first !in rest && NoDuplicates(rest)
  {
    var all := [first] + rest;
    assert forall i :: 0 <= i < |rest| ==> all[i + 1] == rest[i];
    forall i | 0 <= i < |rest|
      ensures rest[i] != first
    {
      assert all[0] != all[i + 1];
    }
  }

  /** The message that is handled is taken off, and its AI is not active any more. */
  lemma HandledOnce(h: World, h': World, active: seq<nat>, active': seq<nat>)
    requires OneEach(h, active) && h.dieing != [] && |h'.wrappers| == |h.wrappers|
    requires h'.dieing == h.dieing[1..] && h'.killFlags == h.killFlags && h'.data == h.data
    requires var id := h.dieing[0];
             if id < |h.data| && !h.data[id].isLuaAI then forall x :: x in active' <==> x in active && x != id
             else active' == active
    ensures OneEach(h', active')
  {
    FirstWaiting(h.dieing, h.data);
    OneWaiting(h.dieing[0], h.data);
    var id, waiting, waiting' := h.dieing[0], Waiting(h.dieing, h.data), Waiting(h'.dieing, h.data);
    if id < |h.data| && !h.data[id].isLuaAI {
      assert waiting == [id] + waiting';
      FirstOnlyOnce(id, waiting');
    } else {
      assert waiting == waiting';
    }
  }

  /** What a new AI has been through before its first events, if it calls nothing back. */
  function QuietTrace(found: bool, libraryCode: int, initCode: int, killFlag: int): Trace {
    if !found then [EventsBlocked, EventsBlocked]
    else if libraryCode != 0 then [LibraryInit(false), EventsBlocked, EventsBlocked]
    else if killFlag != -1 then [LibraryInit(true), EventsBlocked]
    else if initCode != 0 then [LibraryInit(true), Delivered(Init), InitAnswered(false), EventsBlocked]
    else [LibraryInit(true), Delivered(Init), InitAnswered(true)]
  }

  lemma QuietCreation(h: World, active: seq<nat>, id: nat, found: bool, libraryInit: Reaction, init: Reaction)
    requires id < |h.wrappers| && h.wrappers[id] == Fresh(id, h.data[id]) && !h.data[id].isLuaAI
    requires libraryInit.callbacks == [] && init.callbacks == []
    ensures
      var started := LibraryStarted(h, active, id, found, libraryInit);
      var h' := if started.killFlags[id] == -1 then InitSent(started, active, id, init) else started;
      && h'.wrappers[id].trace == QuietTrace(found, libraryInit.code, init.code, h.killFlags[id])
      && (h'.killFlags[id] == -1 <==> found && libraryInit.code == init.code == 0 && h.killFlags[id] == -1)
      && (h'.killFlags[id] == -1 ==> !h'.wrappers[id].blockEvents)
  {
    QuietStart(h, active, id, found, libraryInit);
    QuietInitIf(LibraryStarted(h, active, id, found, libraryInit), active, id, init);
  }

  lemma QuietInitIf(h: World, active: seq<nat>, id: nat, init: Reaction)
    requires id < |h.wrappers| && !h.data[id].isLuaAI && init.callbacks == []
    requires h.killFlags[id] == -1 ==> !h.wrappers[id].blockEvents
    ensures
      var h' := if h.killFlags[id] == -1 then InitSent(h, active, id, init) else h;
      && h'.wrappers[id].trace ==
         h.wrappers[id].trace +
         (if h.killFlags[id] != -1 then []
          else if init.code == 0 then [Delivered(Init), InitAnswered(true)]
          else [Delivered(Init), InitAnswered(false), EventsBlocked])
      && (h'.killFlags[id] == -1 <==> h.killFlags[id] == -1 && init.code == 0)
      && (h'.killFlags[id] == -1 ==> !h'.wrappers[id].blockEvents)
  {
    if h.killFlags[id] == -1 {
      QuietInit(h, active, id, init);
    }
  }

  class EngineOutHandler {
    var hostSkirmishAIs: seq<Wrapper>
    var teamSkirmishAIs: seq<seq<nat>>
    var activeSkirmishAIs: seq<nat>
    /** Of the AI handler. */
    var aiInstanceData: seq<AIData>
    var aiKillFlags: seq<int>
    /** The AIs of the DIEING messages sent. */
    var dieing: seq<nat>

    ghost predicate Sized()
      reads this
    {
      |hostSkirmishAIs| == |aiKillFlags| == |aiInstanceData|
    }

    ghost function State(): (h: World)
      reads this
      requires Sized()
    {
      Hosts(hostSkirmishAIs, aiKillFlags, aiInstanceData, dieing)
    }

    ghost predicate Valid()
      reads this
    {
      && Sized()
      && Coherent(State(), activeSkirmishAIs)
      && Registry(State(), activeSkirmishAIs, teamSkirmishAIs)
    }

    constructor (maxAIs: nat, maxTeams: nat)
      ensures Valid() && activeSkirmishAIs == []
      ensures |hostSkirmishAIs| == maxAIs && |teamSkirmishAIs| == maxTeams
    {
      var never := Wrapper(-1, -1, false, false, false, false, false, []);
      hostSkirmishAIs := seq(maxAIs, _ => never);
      aiKillFlags := seq(maxAIs, _ => -1);
      aiInstanceData := seq(maxAIs, _ => AIData(0, false));
      teamSkirmishAIs := seq(maxTeams, _ => []);
      dieing := [];
      activeSkirmishAIs := [];
    }

    method SetLocalKillFlag(id: nat, reason: int)
      requires Sized() && id < |hostSkirmishAIs|
      modifies this`hostSkirmishAIs, this`aiKillFlags, this`dieing
      ensures Sized() && State() == Flagged(old(State()), id, reason)
    {
      aiKillFlags := aiKillFlags[id := reason];
      dieing := dieing + [id];
      if !aiInstanceData[id].isLuaAI {
        hostSkirmishAIs := hostSkirmishAIs[id := Blocking(hostSkirmishAIs[id])];
      }
    }

    /** The code of AI id runs, and makes its callbacks. */
    method RunAI(id: nat, callbacks: seq<Callback>)
      requires Sized() && Coherent(State(), activeSkirmishAIs) && id < |hostSkirmishAIs|
      modifies this`hostSkirmishAIs, this`aiKillFlags, this`dieing
      ensures Sized() && State() == Called(old(State()), activeSkirmishAIs, id, callbacks)
      decreases callbacks
    {
      assert callbacks[..0] == [];
      for k := 0 to |callbacks|
        invariant Sized() && |hostSkirmishAIs| == old(|hostSkirmishAIs|)
        invariant State() == Called(old(State()), activeSkirmishAIs, id, callbacks[..k])
      {
        CalledKeeps(old(State()), activeSkirmishAIs, id, callbacks[..k]);
        assert callbacks[..k + 1][..k] == callbacks[..k];
        RunCallback(id, callbacks[k]);
      }
      assert callbacks[..|callbacks|] == callbacks;
    }

    method RunCallback(id: nat, callback: Callback)
      requires Sized() && Coherent(State(), activeSkirmishAIs) && id < |hostSkirmishAIs|
      modifies this`hostSkirmishAIs, this`aiKillFlags, this`dieing
      ensures Sized() && State() == CalledOnce(old(State()), activeSkirmishAIs, id, callback)
      decreases callback
    {
      match callback {
        case Die =>
          SetLocalKillFlag(id, CRASHED);
        case Cause(to, reaction) =>
          if to in activeSkirmishAIs {
            var _ := HandleEvent(to, Other, reaction);
          }
      }
    }

    /** The library handles an event; the pointer to it is followed here. */
    method LibraryHandleEvent(id: nat, topic: Topic, reaction: Reaction) returns (code: int)
      requires Sized() && Coherent(State(), activeSkirmishAIs) && id < |hostSkirmishAIs|
      requires hostSkirmishAIs[id].library
      requires Deliverable(hostSkirmishAIs[id], id in activeSkirmishAIs, topic)
      modifies this`hostSkirmishAIs, this`aiKillFlags, this`dieing
      ensures Sized() && code == reaction.code
      ensures var told := With(old(State()), id, Noting(old(hostSkirmishAIs[id]), Delivered(topic)));
              State() == Called(told, activeSkirmishAIs, id, reaction.callbacks)
      decreases reaction, 0
    {
      ToldKeeps(State(), activeSkirmishAIs, id, topic);
      hostSkirmishAIs := hostSkirmishAIs[id := Noting(hostSkirmishAIs[id], Delivered(topic))];
      RunAI(id, reaction.callbacks);
      code := reaction.code;
    }

    method HandleEvent(id: nat, topic: Topic, reaction: Reaction) returns (code: int)
      requires Sized() && Coherent(State(), activeSkirmishAIs) && id < |hostSkirmishAIs|
      requires !hostSkirmishAIs[id].blockEvents || topic == Release ==>
                 Deliverable(hostSkirmishAIs[id], id in activeSkirmishAIs, topic)
      modifies this`hostSkirmishAIs, this`aiKillFlags, this`dieing
      ensures Sized() && State() == Handled(old(State()), activeSkirmishAIs, id, topic, reaction)
      ensures old(hostSkirmishAIs[id].blockEvents) && topic != Release ==> State() == old(State())
      ensures
        !old(hostSkirmishAIs[id].blockEvents) || topic == Release ==>
          var w, h := old(hostSkirmishAIs[id]), old(State());
          var told := h.(wrappers := h.wrappers[id := w.(trace := w.trace + [Delivered(topic)])]);
          State() == Called(told, activeSkirmishAIs, id, reaction.callbacks)
      ensures code == if !old(hostSkirmishAIs[id].blockEvents) || topic == Release then reaction.code else 0
      decreases reaction, 1
    {
      if !hostSkirmishAIs[id].blockEvents || topic == Release {
        ToldKeeps(State(), activeSkirmishAIs, id, topic);
        code := LibraryHandleEvent(id, topic, reaction);
        return;
      }
      code := 0;
    }

    method InitLibrary(id: nat, found: bool, reaction: Reaction) returns (ok: bool)
      requires Sized() && id < |hostSkirmishAIs|
      requires |activeSkirmishAIs| > 0 && activeSkirmishAIs[|activeSkirmishAIs| - 1] == id
      requires id !in activeSkirmishAIs[..|activeSkirmishAIs| - 1]
      requires Coherent(State(), activeSkirmishAIs[..|activeSkirmishAIs| - 1])
      requires hostSkirmishAIs[id] == Fresh(id, aiInstanceData[id]) && !aiInstanceData[id].isLuaAI
      modifies this`hostSkirmishAIs, this`aiKillFlags, this`dieing
      ensures Sized() && State() == LibraryStarted(old(State()), activeSkirmishAIs, id, found, reaction)
      ensures ok <==> aiKillFlags[id] == -1
    {
      var libraryInit := false;
      if found {
        AddedIsCoherent(
          State(), activeSkirmishAIs[..|activeSkirmishAIs| - 1], id, hostSkirmishAIs[id].(library := true));
        assert activeSkirmishAIs == activeSkirmishAIs[..|activeSkirmishAIs| - 1] + [id];
        hostSkirmishAIs := hostSkirmishAIs[id := hostSkirmishAIs[id].(library := true)];
        RunAI(id, reaction.callbacks);
        libraryInit := reaction.code == 0;
        hostSkirmishAIs := hostSkirmishAIs[id :=
          Noting(hostSkirmishAIs[id], LibraryInit(libraryInit)).(libraryInit := libraryInit)];
      }
      if !libraryInit {
        SetLocalKillFlag(id, FAILED_TO_INIT);
      }
      if aiKillFlags[id] != -1 {
        hostSkirmishAIs := hostSkirmishAIs[id := Blocking(hostSkirmishAIs[id])];
        return false;
      }
      ok := true;
    }

    method SendInitEvent(id: nat, reaction: Reaction)
      requires Sized() && Coherent(State(), activeSkirmishAIs) && id in activeSkirmishAIs
      requires Deliverable(hostSkirmishAIs[id], true, Init)
      modifies this`hostSkirmishAIs, this`aiKillFlags, this`dieing
      ensures Sized() && State() == InitSent(old(State()), activeSkirmishAIs, id, reaction)
    {
      var error := HandleEvent(id, Init, reaction);
      hostSkirmishAIs := hostSkirmishAIs[id := Noting(hostSkirmishAIs[id], InitAnswered(error == 0))];
      if error == 0 {
        hostSkirmishAIs := hostSkirmishAIs[id := hostSkirmishAIs[id].(initialized := true)];
        return;
      }
      SetLocalKillFlag(id, FAILED_TO_INIT);
    }

    /**
     After creation the AI is registered. Its first event was INIT, unless its library's init function had
     an event reach it; and unless it is to be killed, it has handled INIT.
     */
    method CreateSkirmishAI(
      id: nat, savedGame: bool, preSimFrame: bool, found: bool,
      libraryInit: Reaction, init: Reaction, update: Reaction, unitEvents: seq<Reaction>)
      requires Valid() && id < |hostSkirmishAIs| && id !in activeSkirmishAIs
      requires aiInstanceData[id].team < |teamSkirmishAIs|
      modifies this`hostSkirmishAIs, this`teamSkirmishAIs, this`activeSkirmishAIs, this`aiKillFlags, this`dieing
      ensures Valid()
      ensures aiInstanceData[id].isLuaAI ==>
                State() == old(State()) && activeSkirmishAIs == old(activeSkirmishAIs)
      ensures !aiInstanceData[id].isLuaAI ==>
                activeSkirmishAIs == old(activeSkirmishAIs) + [id]
      ensures !aiInstanceData[id].isLuaAI ==>
                (Early(State(), id) <==>
                 (found && Reaches(old(BlockedIn(State())) - {id}, activeSkirmishAIs, id, libraryInit.callbacks, id)))
      ensures !aiInstanceData[id].isLuaAI && aiKillFlags[id] == -1 ==>
                PhaseOf(hostSkirmishAIs[id].trace).stage == Running
      ensures Calm(libraryInit.callbacks) && Calm(init.callbacks) && Calm(update.callbacks) && AllCalm(unitEvents) &&
              old(OneEach(State(), activeSkirmishAIs) && aiKillFlags[id] == -1) ==>
                OneEach(State(), activeSkirmishAIs)
      // what happens to an AI that calls nothing back, blow by blow
      ensures
        && !aiInstanceData[id].isLuaAI && libraryInit.callbacks == [] && init.callbacks == [] && update.callbacks == []
        && (forall k :: 0 <= k < |unitEvents| ==> unitEvents[k].callbacks == []) ==>
          hostSkirmishAIs[id].trace ==
            if !found then [EventsBlocked, EventsBlocked]
            else if libraryInit.code != 0 then [LibraryInit(false), EventsBlocked, EventsBlocked]
            else if old(aiKillFlags)[id] != -1 then [LibraryInit(true), EventsBlocked]
            else if init.code != 0 then [LibraryInit(true), Delivered(Init), InitAnswered(false), EventsBlocked]
            else
              [LibraryInit(true), Delivered(Init), InitAnswered(true)] +
              (if preSimFrame then [] else [Delivered(Other)]) +
              (if savedGame then [] else seq(|unitEvents|, _ => Delivered(Other)))
    {
      if aiInstanceData[id].isLuaAI {
        return;
      }
      ghost var h := State();
      PreInit(id);
      InitWrapper(id, found, libraryInit, init);
      ghost var h1 := State();
      if aiKillFlags[id] == -1 {
        SendFirstEvents(id, savedGame, preSimFrame, update, unitEvents);
        if libraryInit.callbacks == [] && init.callbacks == [] && update.callbacks == [] &&
           forall k :: 0 <= k < |unitEvents| ==> unitEvents[k].callbacks == [] {
          QuietFirstEvents(h1, activeSkirmishAIs, id, savedGame, preSimFrame, update, unitEvents);
        }
      }
      if Calm(libraryInit.callbacks) && Calm(init.callbacks) && Calm(update.callbacks) && AllCalm(unitEvents) &&
         OneEach(h, old(activeSkirmishAIs)) && h.killFlags[id] == -1 {
        CreatedOnce(h, h1, old(activeSkirmishAIs), id);
        SameFlagsSameMessages(h1, State(), activeSkirmishAIs);
      }
    }

    /** Init of the wrapper. */
    method InitWrapper(id: nat, found: bool, libraryInit: Reaction, init: Reaction)
      requires Sized() && Registry(State(), activeSkirmishAIs, teamSkirmishAIs) && id < |hostSkirmishAIs|
      requires |activeSkirmishAIs| > 0 && activeSkirmishAIs[|activeSkirmishAIs| - 1] == id
      requires Coherent(State(), activeSkirmishAIs[..|activeSkirmishAIs| - 1])
      requires hostSkirmishAIs[id] == Fresh(id, aiInstanceData[id]) && !aiInstanceData[id].isLuaAI
      modifies this`hostSkirmishAIs, this`aiKillFlags, this`dieing
      ensures Valid() && |hostSkirmishAIs| == old(|hostSkirmishAIs|)
      ensures Early(State(), id) <==>
              (found && Reaches(old(BlockedIn(State())), activeSkirmishAIs, id, libraryInit.callbacks, id))
      ensures aiKillFlags[id] == -1 ==> PhaseOf(hostSkirmishAIs[id].trace).stage == Running
      ensures Calm(libraryInit.callbacks) && Calm(init.callbacks) && old(aiKillFlags)[id] == -1 ==>
                FlaggedOnceAtMost(old(State()), State(), id)
      ensures
        libraryInit.callbacks == [] && init.callbacks == [] ==>
          && hostSkirmishAIs[id].trace == QuietTrace(found, libraryInit.code, init.code, old(aiKillFlags)[id])
          && (aiKillFlags[id] == -1 <==> found && libraryInit.code == init.code == 0 && old(aiKillFlags)[id] == -1)
          && (aiKillFlags[id] == -1 ==> !hostSkirmishAIs[id].blockEvents)
    {
      ghost var h1, others := State(), activeSkirmishAIs[..|activeSkirmishAIs| - 1];
      assert activeSkirmishAIs == others + [id];
      var ok := InitLibrary(id, found, libraryInit);
      LibraryStartedKeeps(h1, others, id, found, libraryInit);
      if Calm(libraryInit.callbacks) {
        CalmStartFlagsOnce(h1, activeSkirmishAIs, id, found, libraryInit);
      }
      ghost var h2 := State();
      SameIdsSameRegistry(h1, h2, activeSkirmishAIs, teamSkirmishAIs);
      if libraryInit.callbacks == [] && init.callbacks == [] {
        QuietCreation(h1, activeSkirmishAIs, id, found, libraryInit, init);
      }
      if ok {
        SendInitEvent(id, init);
        InitSentKeeps(h2, activeSkirmishAIs, id, init);
        if Calm(init.callbacks) {
          CalmInitFlagsOnce(h2, activeSkirmishAIs, id, init);
        }
        RefusedIsFlagged(h2, activeSkirmishAIs, id, init);
        SameIdsSameRegistry(h2, State(), activeSkirmishAIs, teamSkirmishAIs);
      }
    }

    /** The Update event and what the AI needs to know of units that exist already. */
    method SendFirstEvents(id: nat, savedGame: bool, preSimFrame: bool, update: Reaction, unitEvents: seq<Reaction>)
      requires Valid() && id in activeSkirmishAIs && PhaseOf(hostSkirmishAIs[id].trace).stage == Running
      modifies this`hostSkirmishAIs, this`aiKillFlags, this`dieing
      ensures Valid() && |hostSkirmishAIs| == old(|hostSkirmishAIs|)
      ensures State() == SentAll(old(State()), activeSkirmishAIs, id,
                                 (if preSimFrame then [] else [update]) + (if savedGame then [] else unitEvents))
      ensures Early(State(), id) == old(Early(State(), id))
      ensures PhaseOf(hostSkirmishAIs[id].trace).stage == Running
      ensures Calm(update.callbacks) && AllCalm(unitEvents) ==> SameFlags(old(State()), State())
    {
      ghost var h := State();
      ghost var first, rest := if preSimFrame then [] else [update], if savedGame then [] else unitEvents;
      SentAllConcat(h, activeSkirmishAIs, id, first, rest);
      if !preSimFrame {
        SendTo(id, update);
        SentOneMore(h, activeSkirmishAIs, id, [], update);
        HandledIs(h, activeSkirmishAIs, id, Other, update);
        assert [] + [update] == first;
      }
      if !savedGame {
        SendUnitEvents(id, unitEvents);
      }
    }

    method SendUnitEvents(id: nat, unitEvents: seq<Reaction>)
      requires Valid() && id in activeSkirmishAIs && PhaseOf(hostSkirmishAIs[id].trace).stage == Running
      modifies this`hostSkirmishAIs, this`aiKillFlags, this`dieing
      ensures Valid() && |hostSkirmishAIs| == old(|hostSkirmishAIs|)
      ensures State() == SentAll(old(State()), activeSkirmishAIs, id, unitEvents)
      ensures Early(State(), id) == old(Early(State(), id))
      ensures PhaseOf(hostSkirmishAIs[id].trace).stage == Running
      ensures AllCalm(unitEvents) ==> SameFlags(old(State()), State())
    {
      assert unitEvents[..0] == [];
      for k := 0 to |unitEvents|
        invariant Valid() && |hostSkirmishAIs| == old(|hostSkirmishAIs|)
        invariant State() == SentAll(old(State()), activeSkirmishAIs, id, unitEvents[..k])
        invariant PhaseOf(hostSkirmishAIs[id].trace).stage == Running
        invariant Early(State(), id) == old(Early(State(), id))
        invariant AllCalm(unitEvents) ==> SameFlags(old(State()), State())
      {
        assert unitEvents[..k + 1][..k] == unitEvents[..k];
        SendTo(id, unitEvents[k]);
      }
      assert unitEvents[..|unitEvents|] == unitEvents;
    }

    method PreInit(id: nat)
      requires Valid() && id < |hostSkirmishAIs| && id !in activeSkirmishAIs
      requires aiInstanceData[id].team < |teamSkirmishAIs| && !aiInstanceData[id].isLuaAI
      modifies this`hostSkirmishAIs, this`teamSkirmishAIs, this`activeSkirmishAIs
      ensures Sized() && State() == With(old(State()), id, Fresh(id, aiInstanceData[id]))
      ensures activeSkirmishAIs == old(activeSkirmishAIs) + [id]
      ensures Coherent(State(), old(activeSkirmishAIs))
      ensures Registry(State(), activeSkirmishAIs, teamSkirmishAIs)
      ensures BlockedIn(State()) == old(BlockedIn(State())) - {id}
    {
      ghost var h := State();
      var w := Fresh(id, aiInstanceData[id]);
      hostSkirmishAIs := hostSkirmishAIs[id := w];
      teamSkirmishAIs := teamSkirmishAIs[w.teamId := teamSkirmishAIs[w.teamId] + [id]];
      activeSkirmishAIs := activeSkirmishAIs + [id];
      WithIsCoherent(h, old(activeSkirmishAIs), id, w);
      AddToRegistry(h, old(activeSkirmishAIs), old(teamSkirmishAIs), id, w);
      BlockedWith(h, id, w);
    }

    /** One event for one AI that has been asked to initialize. */
    method SendTo(id: nat, reaction: Reaction)
      requires Valid() && id in activeSkirmishAIs && PhaseOf(hostSkirmishAIs[id].trace).stage != Loading
      modifies this`hostSkirmishAIs, this`aiKillFlags, this`dieing
      ensures Valid()
      ensures State() == Handled(old(State()), activeSkirmishAIs, id, Other, reaction)
      ensures Early(State(), id) == old(Early(State(), id))
      ensures PhaseOf(hostSkirmishAIs[id].trace).stage == old(PhaseOf(hostSkirmishAIs[id].trace).stage)
      ensures Calm(reaction.callbacks) ==> SameFlags(old(State()), State())
    {
      ghost var h := State();
      if Calm(reaction.callbacks) {
        CalmHandledKeepsFlags(h, activeSkirmishAIs, id, Other, reaction);
      }
      var _ := HandleEvent(id, Other, reaction);
      HandledKeeps(h, activeSkirmishAIs, id, reaction);
      EvolvedIsSameIds(h, State(), activeSkirmishAIs, id);
      SameIdsSameRegistry(h, State(), activeSkirmishAIs, teamSkirmishAIs);
      assert Evolved(h.wrappers[id], State().wrappers[id], true);
    }

    /**
     An event function: the active AIs it concerns get the event, one after the other. The steps are the states
     before the first AI's turn and after each AI's.
     */
    method SendEvent(who: set<nat>, react: nat -> Reaction) returns (ghost steps: seq<World>)
      requires Valid()
      modifies this`hostSkirmishAIs, this`aiKillFlags, this`dieing
      ensures Valid()
      ensures |steps| == |activeSkirmishAIs| + 1 && steps[0] == old(State()) && steps[|steps| - 1] == State()
      ensures
        forall k {:trigger activeSkirmishAIs[k]} :: 0 <= k < |activeSkirmishAIs| ==>
          var id, h := activeSkirmishAIs[k], steps[k];
          && id < |h.wrappers|
          && (id !in who || h.wrappers[id].blockEvents ==> steps[k + 1] == h)
          && (id in who && !h.wrappers[id].blockEvents ==>
                var w := h.wrappers[id];
                steps[k + 1] == Called(h.(wrappers := h.wrappers[id := w.(trace := w.trace + [Delivered(Other)])]),
                                       activeSkirmishAIs, id, react(id).callbacks))
      ensures
        (forall id :: id in activeSkirmishAIs && id in who ==> react(id).callbacks == []) ==>
          |hostSkirmishAIs| == old(|hostSkirmishAIs|) &&
          forall id :: 0 <= id < |hostSkirmishAIs| ==>
            var w := old(hostSkirmishAIs)[id];
            hostSkirmishAIs[id] ==
              if id in activeSkirmishAIs && id in who && !w.blockEvents then w.(trace := w.trace + [Delivered(Other)])
              else w
      ensures AnswersCalm(activeSkirmishAIs, who, react) ==> SameFlags(old(State()), State())
    {
      ghost var h := State();
      SendEach(who, react);
      steps := SentSteps(h, activeSkirmishAIs, who, react);
      CalmSent(h, activeSkirmishAIs, who, react);
    }

    method SendEach(who: set<nat>, react: nat -> Reaction)
      requires Valid()
      modifies this`hostSkirmishAIs, this`aiKillFlags, this`dieing
      ensures Valid() && State() == Sent(old(State()), activeSkirmishAIs, activeSkirmishAIs, who, react)
    {
      ghost var h := State();
      assert activeSkirmishAIs[..0] == [];
      for k := 0 to |activeSkirmishAIs|
        invariant Sized() && |hostSkirmishAIs| == |h.wrappers|
        invariant State() == Sent(h, activeSkirmishAIs, activeSkirmishAIs[..k], who, react)
      {
        SentKeeps(h, activeSkirmishAIs, activeSkirmishAIs[..k], who, react);
        SentStep(h, activeSkirmishAIs, activeSkirmishAIs, k, who, react);
        var id := activeSkirmishAIs[k];
        assert id in activeSkirmishAIs;
        if id in who {
          var _ := HandleEvent(id, Other, react(id));
        }
      }
      assert activeSkirmishAIs[..|activeSkirmishAIs|] == activeSkirmishAIs;
      SentKeeps(h, activeSkirmishAIs, activeSkirmishAIs, who, react);
      SameIdsSameRegistry(h, State(), activeSkirmishAIs, teamSkirmishAIs);
    }

    method ReleaseLibrary(id: nat, reaction: Reaction)
      requires Sized() && Coherent(State(), activeSkirmishAIs) && id < |hostSkirmishAIs|
      requires hostSkirmishAIs[id].library && PhaseOf(hostSkirmishAIs[id].trace).held
      modifies this`hostSkirmishAIs, this`aiKillFlags, this`dieing
      ensures Sized()
      ensures var noted := With(old(State()), id, Noting(old(hostSkirmishAIs[id]), LibraryRelease));
              State() == Called(noted, activeSkirmishAIs, id, reaction.callbacks)
      requires id !in activeSkirmishAIs
    {
      assert hostSkirmishAIs[id] in hostSkirmishAIs;
      PhaseStep(hostSkirmishAIs[id].trace, LibraryRelease);
      WithIsCoherent(State(), activeSkirmishAIs, id, Noting(hostSkirmishAIs[id], LibraryRelease));
      hostSkirmishAIs := hostSkirmishAIs[id := Noting(hostSkirmishAIs[id], LibraryRelease)];
      RunAI(id, reaction.callbacks);
    }

    /** Kill of the wrapper. */
    method KillWrapper(id: nat, onRelease: Reaction, release: Reaction)
      requires Sized() && Coherent(State(), activeSkirmishAIs) && id < |hostSkirmishAIs| && id !in activeSkirmishAIs
      requires Alive(hostSkirmishAIs[id], aiKillFlags[id], aiInstanceData[id])
      modifies this`hostSkirmishAIs, this`aiKillFlags, this`dieing
      ensures Sized() && State() == Killed(old(State()), activeSkirmishAIs, id, onRelease, release)
    {
      ReleasedKeeps(State(), activeSkirmishAIs, id, onRelease);
      if hostSkirmishAIs[id].initialized && !hostSkirmishAIs[id].released {
        var _ := HandleEvent(id, Release, onRelease);
        hostSkirmishAIs := hostSkirmishAIs[id := hostSkirmishAIs[id].(released := true)];
      }
      if hostSkirmishAIs[id].libraryInit {
        ReleaseLibrary(id, release);
      }
      hostSkirmishAIs := hostSkirmishAIs[id := Inactive(hostSkirmishAIs[id])];
    }

    method Find(ids: seq<nat>, id: nat) returns (k: nat)
      requires id in ids
      ensures k < |ids| && ids[k] == id
    {
      k := 0;
      while ids[k] != id
        invariant k < |ids| && id !in ids[..k]
        decreases |ids| - k
      {
        assert ids[..k + 1] == ids[..k] + [ids[k]];
        assert ids == ids[..k + 1] + ids[k + 1..];
        k := k + 1;
      }
    }

    /** The AI leaves both registries before its code runs for the last time, so no event follows RELEASE. */
    method DestroySkirmishAI(id: nat, onRelease: Reaction, release: Reaction)
      requires Valid() && id in activeSkirmishAIs
      modifies this`hostSkirmishAIs, this`teamSkirmishAIs, this`activeSkirmishAIs, this`aiKillFlags, this`dieing
      ensures Valid() && |teamSkirmishAIs| == old(|teamSkirmishAIs|)
      ensures |activeSkirmishAIs| == old(|activeSkirmishAIs|) - 1
      ensures forall x :: x in activeSkirmishAIs <==> x in old(activeSkirmishAIs) && x != id
      ensures Over(old(hostSkirmishAIs[id]), hostSkirmishAIs[id])
      ensures OthersStay(old(hostSkirmishAIs), hostSkirmishAIs, activeSkirmishAIs, id)
      ensures Calm(onRelease.callbacks) && Calm(release.callbacks) ==> SameFlags(old(State()), State())
      // what happens to an AI that calls nothing back, and to the others meanwhile
      ensures
        onRelease.callbacks == [] && release.callbacks == [] ==>
          var w := old(hostSkirmishAIs)[id];
          hostSkirmishAIs == old(hostSkirmishAIs)[id := w.(
            skirmishAIId := -1, teamId := -1, library := false, released := w.released || w.initialized,
            trace := w.trace + (if w.initialized then [Delivered(Release)] else []) +
                     (if w.libraryInit then [LibraryRelease] else []))]
    {
      ghost var h := State();
      var teamId := hostSkirmishAIs[id].teamId;
      assert id in teamSkirmishAIs[teamId];
      var k := Find(teamSkirmishAIs[teamId], id);
      var j := Find(activeSkirmishAIs, id);
      RemoveAtRemoves(activeSkirmishAIs, j);
      teamSkirmishAIs := teamSkirmishAIs[teamId := RemoveAt(teamSkirmishAIs[teamId], k)];
      activeSkirmishAIs := RemoveAt(activeSkirmishAIs, j);
      FewerIsCoherent(h, old(activeSkirmishAIs), activeSkirmishAIs);
      KillWrapper(id, onRelease, release);
      if Calm(onRelease.callbacks) && Calm(release.callbacks) {
        CalmKilledKeepsFlags(h, activeSkirmishAIs, id, onRelease, release);
      }
      if onRelease.callbacks == [] && release.callbacks == [] {
        QuietKilled(h, activeSkirmishAIs, id, onRelease, release);
      }
      KilledKeeps(h, activeSkirmishAIs, id, onRelease, release);
      KilledSameIds(h, activeSkirmishAIs, id, onRelease, release);
      ghost var h2 := LibraryReleased(Released(h, activeSkirmishAIs, id, onRelease), activeSkirmishAIs, id, release);
      SameIdsSameRegistry(h, h2, old(activeSkirmishAIs), old(teamSkirmishAIs));
      RemoveFromRegistry(h2, old(activeSkirmishAIs), old(teamSkirmishAIs), id, j, k);
    }

    /**
     The first DIEING message has come back, and its AI is destroyed, unless it is a Lua AI. It is active, since
     there is one message each; and unless the AI asks to die while it is released, that stays so.
     */
    method HandleDieing(onRelease: Reaction, release: Reaction)
      requires Valid() && OneEach(State(), activeSkirmishAIs) && dieing != [] && dieing[0] < |hostSkirmishAIs|
      modifies this`hostSkirmishAIs, this`teamSkirmishAIs, this`activeSkirmishAIs, this`aiKillFlags, this`dieing
      ensures Valid()
      ensures aiInstanceData[old(dieing)[0]].isLuaAI ==>
                activeSkirmishAIs == old(activeSkirmishAIs) && hostSkirmishAIs == old(hostSkirmishAIs)
      ensures !aiInstanceData[old(dieing)[0]].isLuaAI ==>
                old(dieing)[0] in old(activeSkirmishAIs) &&
                (forall x :: x in activeSkirmishAIs <==> x in old(activeSkirmishAIs) && x != old(dieing)[0]) &&
                Over(old(hostSkirmishAIs)[old(dieing)[0]], hostSkirmishAIs[old(dieing)[0]])
      ensures Calm(onRelease.callbacks) && Calm(release.callbacks) ==> OneEach(State(), activeSkirmishAIs)
    {
      ghost var h, active := State(), activeSkirmishAIs;
      var id := dieing[0];
      FirstWaiting(dieing, aiInstanceData);
      OneWaiting(id, aiInstanceData);
      assert !aiInstanceData[id].isLuaAI ==> Waiting(dieing, aiInstanceData)[0] == id;
      dieing := dieing[1..];
      if !aiInstanceData[id].isLuaAI {
        DestroySkirmishAI(id, onRelease, release);
      }
      if Calm(onRelease.callbacks) && Calm(release.callbacks) {
        HandledOnce(h, State(), active, activeSkirmishAIs);
      }
    }

    /** Shutdown ends every AI and leaves all registries empty. */
    method Kill(onRelease: nat -> Reaction, release: nat -> Reaction)
      requires Valid()
      modifies this`hostSkirmishAIs, this`teamSkirmishAIs, this`activeSkirmishAIs, this`aiKillFlags, this`dieing
      ensures Valid() && activeSkirmishAIs == [] && |hostSkirmishAIs| == old(|hostSkirmishAIs|)
      ensures forall t :: 0 <= t < |teamSkirmishAIs| ==> teamSkirmishAIs[t] == []
      ensures forall id :: id in old(activeSkirmishAIs) ==> Over(old(hostSkirmishAIs)[id], hostSkirmishAIs[id])
      ensures forall id :: 0 <= id < |hostSkirmishAIs| && id !in old(activeSkirmishAIs) ==>
                hostSkirmishAIs[id] == old(hostSkirmishAIs)[id]
    {
      ghost var before := hostSkirmishAIs;
      while activeSkirmishAIs != []
        invariant Valid() && |hostSkirmishAIs| == |before| && |teamSkirmishAIs| == old(|teamSkirmishAIs|)
        invariant forall id :: id in activeSkirmishAIs ==> id in old(activeSkirmishAIs)
        invariant forall id :: id in old(activeSkirmishAIs) ==>
                    if id in activeSkirmishAIs then SameStage(before[id], hostSkirmishAIs[id])
                    else Over(before[id], hostSkirmishAIs[id])
        invariant forall id :: 0 <= id < |before| && id !in old(activeSkirmishAIs) ==> hostSkirmishAIs[id] == before[id]
        decreases |activeSkirmishAIs|
      {
        var id := activeSkirmishAIs[|activeSkirmishAIs| - 1];
        DestroySkirmishAI(id, onRelease(id), release(id));
      }
      forall t | 0 <= t < |teamSkirmishAIs|
        ensures teamSkirmishAIs[t] == []
      {
        if teamSkirmishAIs[t] != [] {
          ActiveIsDisjointUnion(State(), activeSkirmishAIs, teamSkirmishAIs, teamSkirmishAIs[t][0]);
        }
      }
    }

    /** From outside, an AI may be told to die; SetLocalKillFlag does the rest. */
    method KillLater(id: nat, reason: nat)
      requires Valid() && id < |hostSkirmishAIs|
      modifies this`hostSkirmishAIs, this`aiKillFlags, this`dieing
      ensures Valid() && State() == Flagged(old(State()), id, reason)
      ensures old(OneEach(State(), activeSkirmishAIs)) ==>
                (OneEach(State(), activeSkirmishAIs) <==>
                 (aiInstanceData[id].isLuaAI || (id in activeSkirmishAIs && old(aiKillFlags)[id] == -1)))
    {
      if OneEach(State(), activeSkirmishAIs) {
        FlagOnceIff(State(), activeSkirmishAIs, id, reason);
      }
      FlaggedKeeps(State(), activeSkirmishAIs, id, reason);
      ghost var h := State();
      SetLocalKillFlag(id, reason);
      EvolvedIsSameIds(h, State(), activeSkirmishAIs, id);
      SameIdsSameRegistry(h, State(), activeSkirmishAIs, teamSkirmishAIs);
    }

    /** The AI handler gives an id that is not active to another AI. */
    method Reassign(id: nat, data: AIData)
      requires Valid() && id < |hostSkirmishAIs| && id !in activeSkirmishAIs
      modifies this`aiInstanceData, this`aiKillFlags
      ensures Valid() && aiInstanceData == old(aiInstanceData)[id := data] && aiKillFlags == old(aiKillFlags)[id := -1]
    {
      aiInstanceData := aiInstanceData[id := data];
      aiKillFlags := aiKillFlags[id := -1];
    }
  }
}
