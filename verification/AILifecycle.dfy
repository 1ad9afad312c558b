/**
 Life of the local Skirmish AIs: what each AI's code is called with between its
 creation and its destruction, and the registries that say which AIs there are.
 The code of an AI may call back into the engine while it handles a call. It may
 ask to be killed, and it may cause events, which reach AIs before the call returns.
 */
module AILifecycle {
  import opened Sequences

  datatype Topic = Init | Release | Other

  /** What the code of an AI does with a call: its callbacks, in order, and the value returned; zero is success. */
  datatype Reaction = Reaction(callbacks: seq<Callback>, code: int)

  /** Die: the AI reports an error it cannot survive. Cause: an event for AI id, and what that AI does with it. */
  datatype Callback = Die | Cause(id: nat, reaction: Reaction)

  /** What happened to an AI instance since PreInit. */
  datatype Note =
    | LibraryInit(ok: bool)
    | LibraryRelease
    | Delivered(topic: Topic)
    | InitAnswered(ok: bool)
    | EventsBlocked

  type Trace = seq<Note>

  // ---- the protocol ----

  datatype Stage = Loading | Asked | Running | Refused | Gone

  /**
   stage: how far the INIT and RELEASE events have got. early: events came before INIT. held: the library
   has been initialized for the instance. ok: nothing happened out of order.
   */
  datatype Phase = Phase(stage: Stage, early: bool, blocked: bool, held: bool, ok: bool)

  function Next(p: Phase, note: Note): Phase {
    match note
    case LibraryInit(ok) => p.(held := ok, ok := p.ok && p.stage == Loading && !p.held)
    case LibraryRelease => p.(held := false, ok := p.ok && p.held)
    case Delivered(Init) => p.(stage := Asked, ok := p.ok && p.stage == Loading && p.held && !p.blocked)
    case Delivered(Release) => p.(stage := Gone, ok := p.ok && p.stage == Running && p.held)
    case Delivered(Other) =>
      p.(early := p.early || p.stage == Loading, ok := p.ok && !p.blocked && p.stage != Refused && p.stage != Gone)
    case InitAnswered(ok) =>
      p.(stage := if ok then Running else Refused, ok := p.ok && p.stage == Asked)
    case EventsBlocked => p.(blocked := true)
  }

  function PhaseOf(trace: Trace): Phase {
    if trace == [] then Phase(Loading, false, false, false, true)
    else Next(PhaseOf(trace[..|trace| - 1]), trace[|trace| - 1])
  }

  lemma PhaseStep(trace: Trace, note: Note)
    ensures PhaseOf(trace + [note]) == Next(PhaseOf(trace), note)
  {
    assert (trace + [note])[..|trace|] == trace;
  }

  /** What one step in order leaves as it is, and what it needs to have happened. */
  lemma PhaseKeeps(p: Phase, note: Note)
    requires Next(p, note).ok
    ensures p.ok && (p.blocked ==> Next(p, note).blocked) && (p.early ==> Next(p, note).early)
    ensures p.stage == Gone ==> Next(p, note).stage == Gone
    ensures p.stage == Refused ==> Next(p, note).stage == Refused
    ensures p.stage != Loading ==> Next(p, note).stage != Loading
  {
  }

  lemma PhaseNeeds(p: Phase, note: Note)
    requires Next(p, note).ok
    ensures p.ok
    ensures Next(p, note).stage != Loading ==> p.stage != Loading || note == Delivered(Init)
    ensures Next(p, note).stage in {Running, Gone} ==> p.stage in {Running, Gone} || note == InitAnswered(true)
    ensures Next(p, note).held ==> p.held || note == LibraryInit(true)
  {
  }

  /** What came before shows in the phase. */
  lemma {:induction false} PhaseRemembers(trace: Trace, i: nat)
    requires PhaseOf(trace).ok && i < |trace|
    ensures PhaseOf(trace[..i]).ok && Next(PhaseOf(trace[..i]), trace[i]).ok
    ensures trace[i] == EventsBlocked ==> PhaseOf(trace).blocked
    ensures trace[i] == Delivered(Release) ==> PhaseOf(trace).stage == Gone
    ensures trace[i] == InitAnswered(false) ==> PhaseOf(trace).stage == Refused
    ensures trace[i] == Delivered(Init) ==> PhaseOf(trace).stage != Loading
    ensures trace[i] == Delivered(Other) && PhaseOf(trace[..i]).stage == Loading ==> PhaseOf(trace).early
  {
    var shorter := trace[..|trace| - 1];
    PhaseKeeps(PhaseOf(shorter), trace[|trace| - 1]);
    if i < |trace| - 1 {
      PhaseRemembers(shorter, i);
      assert shorter[..i] == trace[..i];
    }
  }

  /** What the phase tells has happened. */
  lemma {:induction false} PhaseHasCause(trace: Trace)
    requires PhaseOf(trace).ok
    ensures PhaseOf(trace).stage != Loading ==> Delivered(Init) in trace
    ensures PhaseOf(trace).stage in {Running, Gone} ==> InitAnswered(true) in trace
    ensures PhaseOf(trace).held ==> LibraryInit(true) in trace
  {
    if trace != [] {
      var shorter, last := trace[..|trace| - 1], trace[|trace| - 1];
      assert trace == shorter + [last];
      PhaseNeeds(PhaseOf(shorter), last);
      PhaseHasCause(shorter);
    }
  }

  /** The protocol in terms of what happens before what. */
  lemma ProtocolInOrder(trace: Trace, i: nat, j: nat)
    requires PhaseOf(trace).ok && i < j < |trace| && trace[j].Delivered?
    ensures trace[i] != Delivered(Release)
    ensures trace[i] != InitAnswered(false)
    ensures trace[i] == EventsBlocked ==> trace[j] == Delivered(Release)
    ensures trace[i] == Delivered(Init) ==> trace[j] != Delivered(Init)
  {
    PhaseRemembers(trace, j);
    PhaseRemembers(trace[..j], i);
  }

  lemma ProtocolCauses(trace: Trace, j: nat)
    requires PhaseOf(trace).ok && j < |trace|
    ensures trace[j] == Delivered(Release) ==> InitAnswered(true) in trace[..j]
    ensures trace[j] == Delivered(Init) || trace[j] == LibraryRelease ==> LibraryInit(true) in trace[..j]
    ensures trace[j] == Delivered(Other) && !PhaseOf(trace).early ==> Delivered(Init) in trace[..j]
  {
    PhaseRemembers(trace, j);
    PhaseHasCause(trace[..j]);
  }

  // ---- the state ----

  /** SkirmishAIData, as far as it matters here. */
  datatype AIData = AIData(team: nat, isLuaAI: bool)

  /** CSkirmishAIWrapper; library tells whether the pointer is set. */
  datatype Wrapper = Wrapper(
    skirmishAIId: int, teamId: int, library: bool,
    initialized: bool, released: bool, libraryInit: bool, blockEvents: bool, trace: Trace)

  function Noting(w: Wrapper, note: Note): Wrapper {
    w.(trace := w.trace + [note])
  }

  function Blocking(w: Wrapper): Wrapper {
    Noting(w, EventsBlocked).(blockEvents := true)
  }

  /**
   The wrappers, and from the AI handler the kill flags and AI data, and the AIs it has sent DIEING messages
   for; each message that comes back has its AI destroyed.
   */
  datatype Hosts = Hosts(wrappers: seq<Wrapper>, killFlags: seq<int>, data: seq<AIData>, dieing: seq<nat>)

  ghost predicate SameSizes(h: Hosts) {
    |h.wrappers| == |h.killFlags| == |h.data|
  }

  type World = h: Hosts | SameSizes(h) ghost witness Hosts([], [], [], [])

  function With(h: World, id: nat, w: Wrapper): (h': World)
    requires id < |h.wrappers|
    ensures |h'.wrappers| == |h.wrappers|
  {
    h.(wrappers := h.wrappers[id := w])
  }

  /** SetLocalKillFlag. */
  function Flagged(h: World, id: nat, reason: int): (h': World)
    requires id < |h.wrappers|
    ensures |h'.wrappers| == |h.wrappers|
  {
    var flagged := h.(killFlags := h.killFlags[id := reason], dieing := h.dieing + [id]);
    if h.data[id].isLuaAI then flagged else With(flagged, id, Blocking(h.wrappers[id]))
  }

  const CRASHED := 4
  const FAILED_TO_INIT := 5

  /** HandleEvent. */
  function Handled(h: World, active: seq<nat>, id: nat, topic: Topic, reaction: Reaction): (h': World)
    requires id < |h.wrappers|
    ensures |h'.wrappers| == |h.wrappers|
    decreases reaction
  {
    var w := h.wrappers[id];
    if w.blockEvents && topic != Release then h
    else Called(With(h, id, Noting(w, Delivered(topic))), active, id, reaction.callbacks)
  }

  /** The callbacks of AI me, in order. */
  function Called(h: World, active: seq<nat>, me: nat, callbacks: seq<Callback>): (h': World)
    requires me < |h.wrappers|
    ensures |h'.wrappers| == |h.wrappers|
    decreases callbacks
  {
    if callbacks == [] then h
    else CalledOnce(Called(h, active, me, callbacks[..|callbacks| - 1]), active, me, callbacks[|callbacks| - 1])
  }

  /** An event goes to active AIs only. */
  function CalledOnce(h: World, active: seq<nat>, me: nat, callback: Callback): (h': World)
    requires me < |h.wrappers|
    ensures |h'.wrappers| == |h.wrappers|
    decreases callback
  {
    match callback
    case Die => Flagged(h, me, CRASHED)
    case Cause(id, reaction) =>
      if id in active && id < |h.wrappers| then Handled(h, active, id, Other, reaction) else h
  }

  // ---- what every wrapper keeps ----

  /** The wrapper's own flags agree with what its AI has been through. */
  ghost predicate Sane(w: Wrapper) {
    var p := PhaseOf(w.trace);
    && p.ok
    && w.blockEvents == p.blocked
    && (p.stage == Refused ==> p.blocked)
  }

  /** An active AI has a library to call, or is blocked. */
  ghost predicate Alive(w: Wrapper, killFlag: int, data: AIData) {
    var p := PhaseOf(w.trace);
    && Sane(w)
    && !data.isLuaAI
    && p.stage != Gone
    && (w.blockEvents ==> killFlag != -1)
    && (!w.library ==> w.blockEvents && p.stage == Loading && !w.libraryInit)
    && (w.initialized <==> p.stage == Running)
    && (w.libraryInit <==> p.held)
    && (p.stage != Loading ==> p.held)
    && !w.released
  }

  ghost predicate Coherent(h: World, active: seq<nat>) {
    && (forall w :: w in h.wrappers ==> Sane(w))
    && (forall id :: id in active ==> id < |h.wrappers| && Alive(h.wrappers[id], h.killFlags[id], h.data[id]))
  }

  /** What code run inside an AI may change about a wrapper; heard tells whether it may deliver events to it. */
  ghost predicate Evolved(w: Wrapper, w': Wrapper, heard: bool) {
    var p, p' := PhaseOf(w.trace), PhaseOf(w'.trace);
    && w' == w.(blockEvents := w'.blockEvents, trace := w'.trace)
    && (w.blockEvents ==> w'.blockEvents)
    && p'.stage == p.stage && p'.held == p.held
    && (p'.early != p.early ==> heard && p.stage == Loading && !w.blockEvents)
  }

  ghost predicate AllEvolved(h: World, h': World, active: seq<nat>, me: nat)
    requires |h'.wrappers| == |h.wrappers|
  {
    && h'.data == h.data
    && (forall id :: 0 <= id < |h.wrappers| ==>
          Evolved(h.wrappers[id], h'.wrappers[id], id in active))
    && (forall id :: 0 <= id < |h.wrappers| && id !in active && id != me ==>
          h'.wrappers[id] == h.wrappers[id] && h'.killFlags[id] == h.killFlags[id])
  }

  lemma AllEvolvedTransitive(h0: World, h1: World, h2: World, active: seq<nat>, me: nat)
    requires |h0.wrappers| == |h1.wrappers| == |h2.wrappers|
    requires AllEvolved(h0, h1, active, me) && AllEvolved(h1, h2, active, me)
    ensures AllEvolved(h0, h2, active, me)
  {
    forall id | 0 <= id < |h0.wrappers|
      ensures Evolved(h0.wrappers[id], h2.wrappers[id], id in active)
    {
      assert Evolved(h0.wrappers[id], h1.wrappers[id], id in active);
      assert Evolved(h1.wrappers[id], h2.wrappers[id], id in active);
    }
  }

  lemma WithIsCoherent(h: World, active: seq<nat>, id: nat, w: Wrapper)
    requires Coherent(h, active) && id < |h.wrappers| && Sane(w)
    requires id in active ==> Alive(w, h.killFlags[id], h.data[id])
    ensures Coherent(With(h, id, w), active)
  {
  }

  lemma FlaggedKeeps(h: World, active: seq<nat>, id: nat, reason: int)
    requires Coherent(h, active) && id < |h.wrappers| && reason != -1
    ensures Coherent(Flagged(h, id, reason), active)
    ensures AllEvolved(h, Flagged(h, id, reason), active, id)
  {
    var w := h.wrappers[id];
    assert w in h.wrappers;
    PhaseStep(w.trace, EventsBlocked);
    var flagged: World := h.(killFlags := h.killFlags[id := reason], dieing := h.dieing + [id]);
    assert Coherent(flagged, active);
    if !h.data[id].isLuaAI {
      WithIsCoherent(flagged, active, id, Blocking(w));
    }
  }

  /** When an event may go out. */
  ghost predicate Deliverable(w: Wrapper, isActive: bool, topic: Topic) {
    var p := PhaseOf(w.trace);
    match topic
    case Init => isActive && p.stage == Loading && p.held && !w.blockEvents
    case Release => !isActive && p.stage == Running && p.held && w.library
    case Other => isActive && !w.blockEvents
  }

  lemma ToldKeeps(h: World, active: seq<nat>, id: nat, topic: Topic)
    requires Coherent(h, active) && id < |h.wrappers| && Deliverable(h.wrappers[id], id in active, topic)
    ensures h.wrappers[id].library
    ensures Coherent(With(h, id, Noting(h.wrappers[id], Delivered(topic))), active)
  {
    assert Sane(h.wrappers[id]);
    PhaseStep(h.wrappers[id].trace, Delivered(topic));
    WithIsCoherent(h, active, id, Noting(h.wrappers[id], Delivered(topic)));
  }

  lemma WithEvolves(h: World, active: seq<nat>, id: nat, w: Wrapper)
    requires id < |h.wrappers| && Evolved(h.wrappers[id], w, id in active)
    ensures AllEvolved(h, With(h, id, w), active, id)
  {
  }

  lemma DeliveryEvolves(w: Wrapper)
    requires Sane(w) && !w.blockEvents && PhaseOf(w.trace).stage != Refused && PhaseOf(w.trace).stage != Gone
    ensures Evolved(w, Noting(w, Delivered(Other)), true)
  {
    PhaseStep(w.trace, Delivered(Other));
  }

  lemma TellOther(h: World, active: seq<nat>, id: nat)
    requires Coherent(h, active) && id in active && !h.wrappers[id].blockEvents
    ensures Coherent(With(h, id, Noting(h.wrappers[id], Delivered(Other))), active)
    ensures AllEvolved(h, With(h, id, Noting(h.wrappers[id], Delivered(Other))), active, id)
  {
    var w := h.wrappers[id];
    ToldKeeps(h, active, id, Other);
    DeliveryEvolves(w);
    WithEvolves(h, active, id, Noting(w, Delivered(Other)));
  }

  lemma HandledKeeps(h: World, active: seq<nat>, id: nat, reaction: Reaction)
    requires Coherent(h, active) && id in active
    ensures Coherent(Handled(h, active, id, Other, reaction), active)
    ensures AllEvolved(h, Handled(h, active, id, Other, reaction), active, id)
    decreases reaction
  {
    var w := h.wrappers[id];
    if !w.blockEvents {
      TellOther(h, active, id);
      var told := With(h, id, Noting(w, Delivered(Other)));
      CalledKeeps(told, active, id, reaction.callbacks);
      AllEvolvedTransitive(h, told, Called(told, active, id, reaction.callbacks), active, id);
    }
  }

  lemma CalledOnceKeeps(h: World, active: seq<nat>, me: nat, callback: Callback)
    requires Coherent(h, active) && me < |h.wrappers|
    ensures Coherent(CalledOnce(h, active, me, callback), active)
    ensures AllEvolved(h, CalledOnce(h, active, me, callback), active, me)
    decreases callback
  {
    if callback == Die {
      FlaggedKeeps(h, active, me, CRASHED);
    } else if callback.id in active {
      HandledKeeps(h, active, callback.id, callback.reaction);
    }
  }

  /** Whatever an AI does while it is called, all stays in order. */
  lemma {:induction false} CalledKeeps(h: World, active: seq<nat>, me: nat, callbacks: seq<Callback>)
    requires Coherent(h, active) && me < |h.wrappers|
    ensures Coherent(Called(h, active, me, callbacks), active)
    ensures AllEvolved(h, Called(h, active, me, callbacks), active, me)
    decreases callbacks
  {
    if callbacks != [] {
      var sooner, last := callbacks[..|callbacks| - 1], callbacks[|callbacks| - 1];
      CalledKeeps(h, active, me, sooner);
      var h1 := Called(h, active, me, sooner);
      CalledOnceKeeps(h1, active, me, last);
      AllEvolvedTransitive(h, h1, CalledOnce(h1, active, me, last), active, me);
    }
  }

  // ---- whom callbacks tell ----

  /** The AIs that are blocked after the callbacks of me. */
  function BlockedAfter(blocked: set<nat>, active: seq<nat>, me: nat, callbacks: seq<Callback>): set<nat>
    decreases callbacks
  {
    if callbacks == [] then blocked
    else
      BlockedAfterOnce(BlockedAfter(blocked, active, me, callbacks[..|callbacks| - 1]), active, me,
                       callbacks[|callbacks| - 1])
  }

  function BlockedAfterOnce(blocked: set<nat>, active: seq<nat>, me: nat, callback: Callback): set<nat>
    decreases callback
  {
    match callback
    case Die => blocked + {me}
    case Cause(id, reaction) =>
      if id in active && id !in blocked then BlockedAfter(blocked, active, id, reaction.callbacks) else blocked
  }

  /** The AIs that get an event caused by the callbacks of me, or in their course, once for each event they get. */
  function Listeners(blocked: set<nat>, active: seq<nat>, me: nat, callbacks: seq<Callback>): seq<nat>
    decreases callbacks
  {
    if callbacks == [] then []
    else
      var sooner := callbacks[..|callbacks| - 1];
      Listeners(blocked, active, me, sooner) +
      ListenersOnce(BlockedAfter(blocked, active, me, sooner), active, callbacks[|callbacks| - 1])
  }

  function ListenersOnce(blocked: set<nat>, active: seq<nat>, callback: Callback): seq<nat>
    decreases callback
  {
    match callback
    case Die => []
    case Cause(id, reaction) =>
      if id in active && id !in blocked then [id] + Listeners(blocked, active, id, reaction.callbacks) else []
  }

  lemma ListenersStep(blocked: set<nat>, active: seq<nat>, me: nat, callbacks: seq<Callback>)
    requires callbacks != []
    ensures
      var sooner, last := callbacks[..|callbacks| - 1], callbacks[|callbacks| - 1];
      Listeners(blocked, active, me, callbacks) ==
        Listeners(blocked, active, me, sooner) + ListenersOnce(BlockedAfter(blocked, active, me, sooner), active, last)
  {
  }

  /** Whether AI x gets such an event. */
  predicate Reaches(blocked: set<nat>, active: seq<nat>, me: nat, callbacks: seq<Callback>, x: nat) {
    x in Listeners(blocked, active, me, callbacks)
  }

  ghost function BlockedIn(h: World): set<nat> {
    set id: nat | id < |h.wrappers| && h.wrappers[id].blockEvents
  }

  ghost predicate Early(h: World, x: nat)
    requires x < |h.wrappers|
  {
    PhaseOf(h.wrappers[x].trace).early
  }

  ghost predicate StillLoading(h: World, active: seq<nat>, x: nat) {
    Coherent(h, active) && x in active && PhaseOf(h.wrappers[x].trace).stage == Loading
  }

  lemma BlockedWith(h: World, id: nat, w: Wrapper)
    requires id < |h.wrappers|
    ensures BlockedIn(With(h, id, w)) == if w.blockEvents then BlockedIn(h) + {id} else BlockedIn(h) - {id}
  {
  }

  /** An init function that causes one event for its own AI, which then gets that event before INIT. */
  lemma EarlyEvent(active: seq<nat>, me: nat, blocked: set<nat>, answer: Reaction)
    requires me in active && me !in blocked
    ensures Reaches(blocked, active, me, [Cause(me, answer)], me)
    ensures !Reaches(blocked, active, me, [Die, Cause(me, answer)], me)
  {
    assert [Cause(me, answer)][..0] == [];
    assert Listeners(blocked, active, me, []) == [];
    assert Listeners(blocked, active, me, [Cause(me, answer)]) == ListenersOnce(blocked, active, Cause(me, answer));
    assert [Die, Cause(me, answer)][..1] == [Die];
    assert [Die][..0] == [];
    assert Listeners(blocked, active, me, [Die]) == [];
    assert BlockedAfter(blocked, active, me, [Die]) == blocked + {me};
    ListenersStep(blocked, active, me, [Die, Cause(me, answer)]);
  }

  /** What one more callback does after the ones before it. */
  lemma CallbackIs(h: World, active: seq<nat>, me: nat, sooner: seq<Callback>, callback: Callback)
    requires me < |h.wrappers|
    ensures Called(h, active, me, []) == h
    ensures
      var h1, h2 := Called(h, active, me, sooner), Called(h, active, me, sooner + [callback]);
      match callback
      case Die =>
        && h2.killFlags == h1.killFlags[me := 4] && h2.dieing == h1.dieing + [me] && h2.data == h1.data
        && h2.wrappers ==
           (if h1.data[me].isLuaAI then h1.wrappers
            else h1.wrappers[me := h1.wrappers[me].(
                   trace := h1.wrappers[me].trace + [EventsBlocked], blockEvents := true)])
      case Cause(id, reaction) =>
        if id in active && id < |h.wrappers| && !h1.wrappers[id].blockEvents then
          var heard := h1.wrappers[id].(trace := h1.wrappers[id].trace + [Delivered(Other)]);
          h2 == Called(h1.(wrappers := h1.wrappers[id := heard]), active, id, reaction.callbacks)
        else h2 == h1
  {
    assert (sooner + [callback])[..|sooner|] == sooner;
    var h1 := Called(h, active, me, sooner);
    assert Called(h, active, me, sooner + [callback]) == CalledOnce(h1, active, me, callback);
    if callback.Cause? && callback.id in active && callback.id < |h.wrappers| {
      HandledIs(h1, active, callback.id, Other, callback.reaction);
    }
  }

  lemma HandledIs(h: World, active: seq<nat>, id: nat, topic: Topic, reaction: Reaction)
    requires id < |h.wrappers|
    ensures
      var w := h.wrappers[id];
      var told := h.(wrappers := h.wrappers[id := w.(trace := w.trace + [Delivered(topic)])]);
      Handled(h, active, id, topic, reaction) ==
        if w.blockEvents && topic != Release then h else Called(told, active, id, reaction.callbacks)
  {
  }

  lemma QuietHandled(h: World, active: seq<nat>, id: nat, topic: Topic, reaction: Reaction)
    requires id < |h.wrappers| && reaction.callbacks == []
    ensures
      var w := h.wrappers[id];
      Handled(h, active, id, topic, reaction) ==
        if w.blockEvents && topic != Release then h
        else h.(wrappers := h.wrappers[id := w.(trace := w.trace + [Delivered(topic)])])
  {
    HandledIs(h, active, id, topic, reaction);
    CallsNothing(With(h, id, Noting(h.wrappers[id], Delivered(topic))), active, id);
  }

  lemma CallsNothing(h: World, active: seq<nat>, me: nat)
    requires me < |h.wrappers|
    ensures Called(h, active, me, []) == h
  {
  }

  /** How many events besides INIT and RELEASE AI x has been sent. */
  ghost function EventsOf(h: World, x: nat): nat
    requires x < |h.wrappers|
  {
    multiset(h.wrappers[x].trace)[Delivered(Other)]
  }

  /** h' is what becomes of h when the AIs in told are sent one event for each time they are listed. */
  ghost predicate SentOnly(h: World, h': World, told: seq<nat>) {
    && |h'.wrappers| == |h.wrappers|
    && forall x :: 0 <= x < |h.wrappers| ==> EventsOf(h', x) == EventsOf(h, x) + multiset(told)[x]
  }

  /** Of a run of callbacks, however nested, every AI hears exactly as often as the callbacks tell it. */
  lemma {:induction false} CalledTells(h: World, active: seq<nat>, me: nat, callbacks: seq<Callback>)
    requires Coherent(h, active) && me in active
    ensures BlockedIn(Called(h, active, me, callbacks)) == BlockedAfter(BlockedIn(h), active, me, callbacks)
    ensures SentOnly(h, Called(h, active, me, callbacks), Listeners(BlockedIn(h), active, me, callbacks))
    decreases callbacks
  {
    if callbacks != [] {
      var sooner, last := callbacks[..|callbacks| - 1], callbacks[|callbacks| - 1];
      CalledTells(h, active, me, sooner);
      CalledKeeps(h, active, me, sooner);
      var h1 := Called(h, active, me, sooner);
      ListenersStep(BlockedIn(h), active, me, callbacks);
      match last {
        case Die => FlagTellsNobody(h1, active, me);
        case Cause(_, _) => CauseTells(h1, active, me, last);
      }
    }
  }

  lemma FlagTellsNobody(h: World, active: seq<nat>, me: nat)
    requires Coherent(h, active) && me in active
    ensures BlockedIn(Flagged(h, me, CRASHED)) == BlockedIn(h) + {me}
    ensures SentOnly(h, Flagged(h, me, CRASHED), [])
  {
    var w := h.wrappers[me];
    var flagged: World := h.(killFlags := h.killFlags[me := CRASHED], dieing := h.dieing + [me]);
    assert Flagged(h, me, CRASHED) == With(flagged, me, Blocking(w));
    BlockedWith(flagged, me, Blocking(w));
  }

  lemma NotedIsHeard(h: World, active: seq<nat>, id: nat)
    requires id < |h.wrappers|
    ensures var heard := With(h, id, Noting(h.wrappers[id], Delivered(Other)));
            BlockedIn(heard) == BlockedIn(h) && SentOnly(h, heard, [id])
  {
    BlockedWith(h, id, Noting(h.wrappers[id], Delivered(Other)));
  }

  lemma SentOnlyTransitive(h0: World, h1: World, h2: World, a: seq<nat>, b: seq<nat>)
    requires SentOnly(h0, h1, a) && SentOnly(h1, h2, b)
    ensures SentOnly(h0, h2, a + b)
  {
  }

  lemma CauseTells(h: World, active: seq<nat>, me: nat, callback: Callback)
    requires Coherent(h, active) && callback.Cause? && me < |h.wrappers|
    ensures var h' := CalledOnce(h, active, me, callback);
            BlockedIn(h') == BlockedAfterOnce(BlockedIn(h), active, me, callback) &&
            SentOnly(h, h', ListenersOnce(BlockedIn(h), active, callback))
    decreases callback
  {
    var Cause(id, reaction) := callback;
    if id in active && !h.wrappers[id].blockEvents {
      TellOther(h, active, id);
      NotedIsHeard(h, active, id);
      var heard := With(h, id, Noting(h.wrappers[id], Delivered(Other)));
      CalledTells(heard, active, id, reaction.callbacks);
      SentOnlyTransitive(h, heard, Called(heard, active, id, reaction.callbacks), [id],
                         Listeners(BlockedIn(h), active, id, reaction.callbacks));
    }
  }

  // ---- events before INIT ----

  lemma LoadingStep(p: Phase, note: Note)
    requires Next(p, note).stage == Loading
    ensures p.stage == Loading && (Next(p, note).early <==> p.early || note == Delivered(Other))
  {
  }

  /** While an AI is loading, all events it has been sent were early. */
  lemma {:induction false} EarlyIsHeard(trace: Trace)
    requires PhaseOf(trace).stage == Loading
    ensures PhaseOf(trace).early <==> Delivered(Other) in trace
  {
    if trace != [] {
      var sooner, last := trace[..|trace| - 1], trace[|trace| - 1];
      LoadingStep(PhaseOf(sooner), last);
      assert Delivered(Other) in trace <==> Delivered(Other) in sooner || last == Delivered(Other);
      EarlyIsHeard(sooner);
    }
  }

  /** An AI still loading hears of exactly the events that reach it. */
  lemma EarlyIffReached(h: World, active: seq<nat>, me: nat, callbacks: seq<Callback>, x: nat)
    requires StillLoading(h, active, x) && me in active
    ensures Early(Called(h, active, me, callbacks), x) <==>
            (Early(h, x) || Reaches(BlockedIn(h), active, me, callbacks, x))
  {
    var h', told := Called(h, active, me, callbacks), Listeners(BlockedIn(h), active, me, callbacks);
    CalledTells(h, active, me, callbacks);
    CalledKeeps(h, active, me, callbacks);
    assert Evolved(h.wrappers[x], h'.wrappers[x], true);
    EarlyIsHeard(h.wrappers[x].trace);
    EarlyIsHeard(h'.wrappers[x].trace);
    var heard: multiset<nat> := multiset(told);
    assert x in told <==> heard[x] > 0;
    assert Delivered(Other) in h.wrappers[x].trace <==> EventsOf(h, x) > 0;
    assert Delivered(Other) in h'.wrappers[x].trace <==> EventsOf(h', x) > 0;
  }

  // ---- creation ----

  function Fresh(id: nat, data: AIData): Wrapper {
    Wrapper(id, data.team, false, false, false, false, false, [])
  }

  /** InitLibrary, when the library was found or not, and its init function reacts as told. */
  function LibraryStarted(h: World, active: seq<nat>, id: nat, found: bool, reaction: Reaction): (h': World)
    requires id < |h.wrappers|
    ensures |h'.wrappers| == |h.wrappers|
  {
    var started :=
      if found then
        LibraryAnswered(Called(With(h, id, h.wrappers[id].(library := true)), active, id, reaction.callbacks),
                        id, reaction.code == 0)
      else Flagged(h, id, FAILED_TO_INIT);
    BlockIfFlagged(started, id)
  }

  function LibraryAnswered(h: World, id: nat, ok: bool): (h': World)
    requires id < |h.wrappers|
    ensures |h'.wrappers| == |h.wrappers|
  {
    var noted := With(h, id, Noting(h.wrappers[id], LibraryInit(ok)).(libraryInit := ok));
    if ok then noted else Flagged(noted, id, FAILED_TO_INIT)
  }

  ghost predicate SameIds(h: World, h': World) {
    && |h'.wrappers| == |h.wrappers|
    && h'.data == h.data
    && forall id :: 0 <= id < |h.wrappers| ==>
         h'.wrappers[id].skirmishAIId == h.wrappers[id].skirmishAIId && h'.wrappers[id].teamId == h.wrappers[id].teamId
  }

  lemma EvolvedIsSameIds(h: World, h': World, active: seq<nat>, me: nat)
    requires |h'.wrappers| == |h.wrappers| && AllEvolved(h, h', active, me)
    ensures SameIds(h, h')
  {
  }

  /** What AI me itself keeps, whatever it does. */
  lemma CalledKeepsOwn(h: World, active: seq<nat>, me: nat, callbacks: seq<Callback>)
    requires Coherent(h, active) && me < |h.wrappers|
    ensures var h' := Called(h, active, me, callbacks);
            Coherent(h', active) && SameIds(h, h') && Sane(h'.wrappers[me]) &&
            Evolved(h.wrappers[me], h'.wrappers[me], me in active)
  {
    CalledKeeps(h, active, me, callbacks);
    var h' := Called(h, active, me, callbacks);
    EvolvedIsSameIds(h, h', active, me);
    assert h'.wrappers[me] in h'.wrappers;
  }

  lemma AddedIsCoherent(h: World, active: seq<nat>, id: nat, w: Wrapper)
    requires Coherent(h, active) && id < |h.wrappers|
    requires Alive(w, h.killFlags[id], h.data[id])
    ensures Coherent(With(h, id, w), active + [id])
  {
  }

  lemma LibraryAnsweredKeeps(h: World, active: seq<nat>, id: nat, ok: bool)
    requires Coherent(h, active) && id in active
    requires var w := h.wrappers[id]; w.library && PhaseOf(w.trace).stage == Loading && !w.libraryInit
    ensures var h', p' := LibraryAnswered(h, id, ok), PhaseOf(LibraryAnswered(h, id, ok).wrappers[id].trace);
            && Coherent(h', active) && SameIds(h, h')
            && h'.wrappers[id].library && p'.stage == Loading && p'.held == ok
            && p'.early == PhaseOf(h.wrappers[id].trace).early
            && (!ok ==> h'.killFlags[id] != -1)
  {
    var w := h.wrappers[id];
    PhaseStep(w.trace, LibraryInit(ok));
    var noted := Noting(w, LibraryInit(ok)).(libraryInit := ok);
    WithIsCoherent(h, active, id, noted);
    if !ok {
      FlaggedKeeps(With(h, id, noted), active, id, FAILED_TO_INIT);
    }
  }

  lemma BlockFlagged(h: World, active: seq<nat>, id: nat)
    requires Coherent(h, active) && id in active && h.killFlags[id] != -1
    ensures var h' := With(h, id, Blocking(h.wrappers[id]));
            Coherent(h', active) && AllEvolved(h, h', active, id)
    ensures Early(With(h, id, Blocking(h.wrappers[id])), id) == Early(h, id)
  {
    var w := h.wrappers[id];
    PhaseStep(w.trace, EventsBlocked);
    WithIsCoherent(h, active, id, Blocking(w));
    WithEvolves(h, active, id, Blocking(w));
  }

  lemma SameIdsTransitive(h0: World, h1: World, h2: World)
    requires SameIds(h0, h1) && SameIds(h1, h2)
    ensures SameIds(h0, h2)
  {
  }

  /** The AI's init function runs: the AI is in order meanwhile, and hears of the events that reach it. */
  lemma LibraryRunKeeps(h: World, active: seq<nat>, id: nat, callbacks: seq<Callback>)
    requires Coherent(h, active) && id !in active && id < |h.wrappers|
    requires h.wrappers[id] == Fresh(id, h.data[id]) && !h.data[id].isLuaAI
    ensures var active' := active + [id];
            var h2 := Called(With(h, id, h.wrappers[id].(library := true)), active', id, callbacks);
            && Coherent(h2, active') && SameIds(h, h2)
            && h2.wrappers[id].library && !h2.wrappers[id].libraryInit
            && PhaseOf(h2.wrappers[id].trace).stage == Loading
            && (Early(h2, id) <==> Reaches(BlockedIn(h), active', id, callbacks, id))
  {
    var active' := active + [id];
    var w := Fresh(id, h.data[id]).(library := true);
    AddedIsCoherent(h, active, id, w);
    var h1 := With(h, id, w);
    BlockedWith(h, id, w);
    assert BlockedIn(h1) == BlockedIn(h);
    CalledKeepsOwn(h1, active', id, callbacks);
    EarlyIffReached(h1, active', id, callbacks, id);
    assert SameIds(h, h1);
    SameIdsTransitive(h, h1, Called(h1, active', id, callbacks));
  }

  lemma LibraryLoadedKeeps(h: World, active: seq<nat>, id: nat, reaction: Reaction)
    requires Coherent(h, active) && id !in active && id < |h.wrappers|
    requires h.wrappers[id] == Fresh(id, h.data[id]) && !h.data[id].isLuaAI
    ensures var active' := active + [id];
            var h1 := With(h, id, h.wrappers[id].(library := true));
            var h3 := LibraryAnswered(Called(h1, active', id, reaction.callbacks), id, reaction.code == 0);
            && Coherent(h3, active') && SameIds(h, h3)
            && (h3.killFlags[id] == -1 ==> Deliverable(h3.wrappers[id], true, Init))
            && (Early(h3, id) <==> Reaches(BlockedIn(h), active', id, reaction.callbacks, id))
  {
    var active' := active + [id];
    var h1 := With(h, id, h.wrappers[id].(library := true));
    var h2 := Called(h1, active', id, reaction.callbacks);
    LibraryRunKeeps(h, active, id, reaction.callbacks);
    LibraryAnsweredKeeps(h2, active', id, reaction.code == 0);
    var h3 := LibraryAnswered(h2, id, reaction.code == 0);
    SameIdsTransitive(h, h2, h3);
    assert Alive(h3.wrappers[id], h3.killFlags[id], h3.data[id]) by {
      assert id in active';
    }
  }

  lemma BlockedFreshIsAlive(id: nat, data: AIData, killFlag: int)
    requires killFlag != -1 && !data.isLuaAI
    ensures Alive(Blocking(Fresh(id, data)), killFlag, data)
    ensures !PhaseOf(Blocking(Fresh(id, data)).trace).early
  {
    PhaseStep([], EventsBlocked);
  }

  lemma LibraryMissingKeeps(h: World, active: seq<nat>, id: nat)
    requires Coherent(h, active) && id !in active && id < |h.wrappers|
    requires h.wrappers[id] == Fresh(id, h.data[id]) && !h.data[id].isLuaAI
    ensures var h1 := Flagged(h, id, FAILED_TO_INIT);
            Coherent(h1, active + [id]) && SameIds(h, h1) && !Early(h1, id) && h1.killFlags[id] == FAILED_TO_INIT
  {
    var w, h1 := Blocking(Fresh(id, h.data[id])), Flagged(h, id, FAILED_TO_INIT);
    BlockedFreshIsAlive(id, h.data[id], FAILED_TO_INIT);
    FlaggedKeeps(h, active, id, FAILED_TO_INIT);
    EvolvedIsSameIds(h, h1, active, id);
    AddedIsCoherent(h1, active, id, w);
    assert With(h1, id, w) == h1;
  }

  /** InitLibrary ends with blocking an AI that is to be killed. */
  function BlockIfFlagged(h: World, id: nat): (h': World)
    requires id < |h.wrappers|
    ensures |h'.wrappers| == |h.wrappers|
  {
    if h.killFlags[id] != -1 then With(h, id, Blocking(h.wrappers[id])) else h
  }

  lemma BlockIfFlaggedKeeps(h: World, active: seq<nat>, id: nat)
    requires Coherent(h, active) && id in active
    ensures var h' := BlockIfFlagged(h, id);
            Coherent(h', active) && SameIds(h, h') && Early(h', id) == Early(h, id) && h'.killFlags == h.killFlags &&
            (h.killFlags[id] == -1 ==> h' == h)
  {
    if h.killFlags[id] != -1 {
      BlockFlagged(h, active, id);
      EvolvedIsSameIds(h, BlockIfFlagged(h, id), active, id);
    }
  }

  /**
   Whether or not the library is found and starts, the new AI is in order. It is due its INIT event just
   if no kill flag is set. It was sent events already exactly if its init function had one reach it.
   */
  lemma LibraryStartedKeeps(h: World, active: seq<nat>, id: nat, found: bool, reaction: Reaction)
    requires Coherent(h, active) && id !in active && id < |h.wrappers|
    requires h.wrappers[id] == Fresh(id, h.data[id]) && !h.data[id].isLuaAI
    ensures var h' := LibraryStarted(h, active + [id], id, found, reaction);
            && Coherent(h', active + [id]) && SameIds(h, h')
            && (h'.killFlags[id] == -1 ==> Deliverable(h'.wrappers[id], true, Init))
            && (Early(h', id) <==> (found && Reaches(BlockedIn(h), active + [id], id, reaction.callbacks, id)))
  {
    var h1: World;
    if found {
      var loaded := With(h, id, h.wrappers[id].(library := true));
      h1 := LibraryAnswered(Called(loaded, active + [id], id, reaction.callbacks), id, reaction.code == 0);
      LibraryLoadedKeeps(h, active, id, reaction);
    } else {
      h1 := Flagged(h, id, FAILED_TO_INIT);
      LibraryMissingKeeps(h, active, id);
    }
    BlockIfFlaggedKeeps(h1, active + [id], id);
    SameIdsTransitive(h, h1, BlockIfFlagged(h1, id));
  }

  /** An AI that asks to die during its library's init and then fails it gets two DIEING messages. */
  lemma DyingTwice(h: World, active: seq<nat>, id: nat)
    requires id < |h.wrappers|
    ensures LibraryStarted(h, active, id, true, Reaction([Die], 1)).dieing == h.dieing + [id, id]
  {
    var h1 := With(h, id, h.wrappers[id].(library := true));
    assert [Die][..0] == [];
    assert Called(h1, active, id, [Die]) == Flagged(h1, id, CRASHED);
  }

  /** SendInitEvent. */
  function InitSent(h: World, active: seq<nat>, id: nat, reaction: Reaction): (h': World)
    requires id < |h.wrappers|
    ensures |h'.wrappers| == |h.wrappers|
  {
    InitReturned(Handled(h, active, id, Init, reaction), id, reaction.code == 0)
  }

  function InitReturned(h: World, id: nat, ok: bool): (h': World)
    requires id < |h.wrappers|
    ensures |h'.wrappers| == |h.wrappers|
  {
    var w := Noting(h.wrappers[id], InitAnswered(ok));
    if ok then With(h, id, w.(initialized := true)) else Flagged(With(h, id, w), id, FAILED_TO_INIT)
  }

  lemma InitReturnedKeeps(h: World, active: seq<nat>, id: nat, ok: bool)
    requires Coherent(h, active) && id in active && PhaseOf(h.wrappers[id].trace).stage == Asked
    ensures var h' := InitReturned(h, id, ok);
            Coherent(h', active) && SameIds(h, h') && Early(h', id) == Early(h, id) &&
            PhaseOf(h'.wrappers[id].trace).stage == if ok then Running else Refused
  {
    var w := h.wrappers[id];
    PhaseStep(w.trace, InitAnswered(ok));
    if ok {
      WithIsCoherent(h, active, id, Noting(w, InitAnswered(ok)).(initialized := true));
    } else {
      var refused := Noting(w, InitAnswered(ok));
      PhaseStep(refused.trace, EventsBlocked);
      FlaggedKeeps(h, active, id, FAILED_TO_INIT);
      var flagged := Flagged(h, id, FAILED_TO_INIT);
      WithIsCoherent(flagged, active, id, Blocking(refused));
      assert InitReturned(h, id, ok) == With(flagged, id, Blocking(refused));
    }
  }

  lemma InitSentKeeps(h: World, active: seq<nat>, id: nat, reaction: Reaction)
    requires Coherent(h, active) && id in active && Deliverable(h.wrappers[id], true, Init)
    ensures var h' := InitSent(h, active, id, reaction);
            Coherent(h', active) && SameIds(h, h') && Early(h', id) == Early(h, id) &&
            PhaseOf(h'.wrappers[id].trace).stage == if reaction.code == 0 then Running else Refused
  {
    var w := h.wrappers[id];
    ToldKeeps(h, active, id, Init);
    PhaseStep(w.trace, Delivered(Init));
    var told := With(h, id, Noting(w, Delivered(Init)));
    CalledKeepsOwn(told, active, id, reaction.callbacks);
    var h2 := Called(told, active, id, reaction.callbacks);
    assert Handled(h, active, id, Init, reaction) == h2;
    assert SameIds(h, told);
    SameIdsTransitive(h, told, h2);
    InitReturnedKeeps(h2, active, id, reaction.code == 0);
    SameIdsTransitive(h, h2, InitReturned(h2, id, reaction.code == 0));
  }

  /** What AI id has been through once its library's init function, which calls nothing back, has run. */
  lemma QuietStart(h: World, active: seq<nat>, id: nat, found: bool, reaction: Reaction)
    requires id < |h.wrappers| && h.wrappers[id].trace == [] && !h.data[id].isLuaAI && reaction.callbacks == []
    ensures
      LibraryStarted(h, active, id, found, reaction).wrappers[id].trace ==
        if !found then [EventsBlocked, EventsBlocked]
        else if reaction.code != 0 then [LibraryInit(false), EventsBlocked, EventsBlocked]
        else if h.killFlags[id] != -1 then [LibraryInit(true), EventsBlocked]
        else [LibraryInit(true)]
    ensures
      var h' := LibraryStarted(h, active, id, found, reaction);
      && h'.data == h.data
      && (h'.killFlags[id] == -1 <==> found && reaction.code == 0 && h.killFlags[id] == -1)
      && (h'.killFlags[id] == -1 ==> h'.wrappers[id].blockEvents == h.wrappers[id].blockEvents)
  {
    CallsNothing(With(h, id, h.wrappers[id].(library := true)), active, id);
  }

  /** The same for the INIT event. */
  lemma QuietInit(h: World, active: seq<nat>, id: nat, reaction: Reaction)
    requires id < |h.wrappers| && !h.wrappers[id].blockEvents && !h.data[id].isLuaAI && reaction.callbacks == []
    ensures
      InitSent(h, active, id, reaction).wrappers[id].trace ==
        h.wrappers[id].trace + [Delivered(Init)] +
        if reaction.code == 0 then [InitAnswered(true)] else [InitAnswered(false), EventsBlocked]
    ensures reaction.code != 0 ==> InitSent(h, active, id, reaction).killFlags[id] == FAILED_TO_INIT
    ensures reaction.code == 0 ==>
              InitSent(h, active, id, reaction).killFlags == h.killFlags &&
              !InitSent(h, active, id, reaction).wrappers[id].blockEvents
  {
    QuietHandled(h, active, id, Init, reaction);
  }

  // ---- destruction ----

  /** Release: the RELEASE event, unless INIT was never handled. */
  function Released(h: World, active: seq<nat>, id: nat, reaction: Reaction): (h': World)
    requires id < |h.wrappers|
    ensures |h'.wrappers| == |h.wrappers|
  {
    var w := h.wrappers[id];
    if !w.initialized || w.released then h
    else
      var handled := Handled(h, active, id, Release, reaction);
      With(handled, id, handled.wrappers[id].(released := true))
  }

  /** The library's own release function, if its init function had succeeded. */
  function LibraryReleased(h: World, active: seq<nat>, id: nat, reaction: Reaction): (h': World)
    requires id < |h.wrappers|
    ensures |h'.wrappers| == |h.wrappers|
  {
    var w := h.wrappers[id];
    if !w.libraryInit then h
    else Called(With(h, id, Noting(w, LibraryRelease)), active, id, reaction.callbacks)
  }

  function Inactive(w: Wrapper): Wrapper {
    w.(library := false, skirmishAIId := -1, teamId := -1)
  }

  /** What the end of AI id may do to the others. */
  ghost predicate OthersEvolved(h: World, h': World, active: seq<nat>, id: nat) {
    && SameIds(h, h')
    && forall x :: 0 <= x < |h.wrappers| && x != id ==>
         Evolved(h.wrappers[x], h'.wrappers[x], x in active) && (x !in active ==> h'.wrappers[x] == h.wrappers[x])
  }

  lemma CalledAfterEvolves(h: World, h1: World, active: seq<nat>, id: nat, w: Wrapper, callbacks: seq<Callback>)
    requires Coherent(h1, active) && id < |h.wrappers| && h1 == With(h, id, w)
    requires w.skirmishAIId == h.wrappers[id].skirmishAIId && w.teamId == h.wrappers[id].teamId
    ensures OthersEvolved(h, Called(h1, active, id, callbacks), active, id)
  {
    CalledKeeps(h1, active, id, callbacks);
    var h2 := Called(h1, active, id, callbacks);
    forall x | 0 <= x < |h.wrappers| && x != id
      ensures Evolved(h.wrappers[x], h2.wrappers[x], x in active) && (x !in active ==> h2.wrappers[x] == h.wrappers[x])
    {
      assert h1.wrappers[x] == h.wrappers[x];
    }
  }

  lemma OthersEvolvedTransitive(h0: World, h1: World, h2: World, active: seq<nat>, id: nat)
    requires OthersEvolved(h0, h1, active, id) && OthersEvolved(h1, h2, active, id)
    ensures OthersEvolved(h0, h2, active, id)
  {
    forall x | 0 <= x < |h0.wrappers| && x != id
      ensures Evolved(h0.wrappers[x], h2.wrappers[x], x in active)
    {
      assert Evolved(h0.wrappers[x], h1.wrappers[x], x in active);
      assert Evolved(h1.wrappers[x], h2.wrappers[x], x in active);
    }
  }

  lemma ReleasedKeeps(h: World, active: seq<nat>, id: nat, reaction: Reaction)
    requires Coherent(h, active) && id < |h.wrappers| && id !in active
    requires Alive(h.wrappers[id], h.killFlags[id], h.data[id])
    ensures var h' := Released(h, active, id, reaction);
            var w, w', p' := h.wrappers[id], h'.wrappers[id], PhaseOf(h'.wrappers[id].trace);
            && Coherent(h', active) && OthersEvolved(h, h', active, id)
            && w'.libraryInit == p'.held && (p'.held ==> w'.library)
            && p'.stage == if w.initialized then Gone else PhaseOf(w.trace).stage
  {
    var w := h.wrappers[id];
    if w.initialized {
      ToldKeeps(h, active, id, Release);
      PhaseStep(w.trace, Delivered(Release));
      var told := With(h, id, Noting(w, Delivered(Release)));
      CalledKeepsOwn(told, active, id, reaction.callbacks);
      var h1 := Called(told, active, id, reaction.callbacks);
      CalledAfterEvolves(h, told, active, id, Noting(w, Delivered(Release)), reaction.callbacks);
      WithIsCoherent(h1, active, id, h1.wrappers[id].(released := true));
    }
  }

  lemma LibraryReleasedKeeps(h: World, active: seq<nat>, id: nat, reaction: Reaction)
    requires Coherent(h, active) && id < |h.wrappers| && id !in active
    requires h.wrappers[id].libraryInit == PhaseOf(h.wrappers[id].trace).held
    ensures var h' := LibraryReleased(h, active, id, reaction);
            var p, p' := PhaseOf(h.wrappers[id].trace), PhaseOf(h'.wrappers[id].trace);
            Coherent(h', active) && OthersEvolved(h, h', active, id) && p'.stage == p.stage && !p'.held
  {
    var w := h.wrappers[id];
    if w.libraryInit {
      PhaseStep(w.trace, LibraryRelease);
      assert Sane(w);
      WithIsCoherent(h, active, id, Noting(w, LibraryRelease));
      var noted := With(h, id, Noting(w, LibraryRelease));
      CalledKeepsOwn(noted, active, id, reaction.callbacks);
      CalledAfterEvolves(h, noted, active, id, Noting(w, LibraryRelease), reaction.callbacks);
    }
  }
}
