/**
 Routing of unit events: which of the active Skirmish AIs hear of a unit that is created, finished, damaged,
 destroyed or given away, and which version of the event each of them gets.
 */
module AIEvents {
  import opened Sequences
  import opened AILifecycle
  import opened AIRegistry

  /** allyTeam: the ally team of a team; ally(a, b): whether ally team a has allied itself with b. */
  datatype Diplomacy = Diplomacy(allyTeam: int -> nat, ally: (nat, nat) -> bool)

  /** detected: the ally teams that have the unit in sight or on radar, or see everything. */
  datatype Unit = Unit(id: int, team: nat, allyteam: nat, detected: nat -> bool)

  datatype Event =
    | UnitCreated(unit: int, builder: int)
    | EnemyCreated(unit: int)
    | UnitFinished(unit: int)
    | EnemyFinished(unit: int)
    | UnitDestroyed(unit: int, attacker: int)
    | EnemyDestroyed(unit: int, attacker: int)
    | UnitDamaged(unit: int, attacker: int)
    | EnemyDamaged(unit: int, attacker: int)
    | UnitGiven(unit: int, oldTeam: nat, newTeam: nat)
    | UnitCaptured(unit: int, oldTeam: nat, newTeam: nat)

  datatype Delivery = Delivery(ai: nat, event: Event)

  /** No AI is told twice. */
  predicate EachOnce(news: seq<Delivery>) {
    forall i, j :: 0 <= i < j < |news| ==> news[i].ai != news[j].ai
  }

  /** The AIs of a list that satisfy who are told, in list order. */
  function Told(ids: seq<nat>, who: nat -> bool, what: nat -> Event): seq<Delivery> {
    if ids == [] then []
    else
      var id := ids[|ids| - 1];
      Told(ids[..|ids| - 1], who, what) + if who(id) then [Delivery(id, what(id))] else []
  }

  lemma {:induction false} ToldExactly(ids: seq<nat>, who: nat -> bool, what: nat -> Event)
    ensures forall d :: d in Told(ids, who, what) <==> d.ai in ids && who(d.ai) && d.event == what(d.ai)
    ensures NoDuplicates(ids) ==> EachOnce(Told(ids, who, what))
  {
    if ids != [] {
      var fewer, id := ids[..|ids| - 1], ids[|ids| - 1];
      ToldExactly(fewer, who, what);
      assert ids == fewer + [id];
      var news := Told(fewer, who, what);
      if NoDuplicates(ids) {
        assert id !in fewer;
        assert forall i :: 0 <= i < |news| ==> news[i] in news;
      }
    }
  }

  lemma ToldStep(ids: seq<nat>, k: nat, who: nat -> bool, what: nat -> Event)
    requires k < |ids|
    ensures Told(ids[..k + 1], who, what) ==
            Told(ids[..k], who, what) + if who(ids[k]) then [Delivery(ids[k], what(ids[k]))] else []
  {
    assert ids[..k + 1][..k] == ids[..k];
  }

  lemma EachOnceConcat(a: seq<Delivery>, b: seq<Delivery>)
    requires EachOnce(a) && EachOnce(b)
    requires forall d, e :: d in a && e in b ==> d.ai != e.ai
    ensures EachOnce(a + b)
  {
    forall i, j | 0 <= i < j < |a + b|
      ensures (a + b)[i].ai != (a + b)[j].ai
    {
      if i < |a| && j >= |a| {
        assert a[i] in a && b[j - |a|] in b;
      }
    }
  }

  lemma ToldTwice(a: seq<Delivery>, b: seq<Delivery>, d: Delivery, e: Delivery)
    requires d in a && e in b && d.ai == e.ai
    ensures !EachOnce(a + b)
  {
    var i :| 0 <= i < |a| && a[i] == d;
    var j :| 0 <= j < |b| && b[j] == e;
    assert (a + b)[i].ai == (a + b)[|a| + j].ai;
  }

  /** What routing depends on. */
  datatype Roster = Roster(
    hosts: World, active: seq<nat>, teams: seq<seq<nat>>, cheating: set<nat>, diplomacy: Diplomacy)

  function Team(r: Roster, ai: nat): int {
    if ai < |r.hosts.wrappers| then r.hosts.wrappers[ai].teamId else -1
  }

  /** Whether the AI's ally team is allied with an ally team. */
  predicate AlliedWith(r: Roster, ai: nat, allyteam: nat) {
    r.diplomacy.ally(r.diplomacy.allyTeam(Team(r, ai)), allyteam)
  }

  /** The AI may know of the unit whoever owns it. */
  predicate Notices(r: Roster, ai: nat, unit: Unit) {
    ai in r.cheating || unit.detected(r.diplomacy.allyTeam(Team(r, ai)))
  }

  ghost predicate Ready(r: Roster) {
    Registry(r.hosts, r.active, r.teams) && forall a :: r.diplomacy.ally(a, a)
  }

  /** The unit counts to the ally team of its team. */
  ghost predicate Owned(r: Roster, unit: Unit) {
    unit.team < |r.teams| && unit.allyteam == r.diplomacy.allyTeam(unit.team)
  }

  lemma TeamListIs(r: Roster, t: nat)
    requires Ready(r) && t < |r.teams|
    ensures NoDuplicates(r.active) && NoDuplicates(r.teams[t])
    ensures forall ai :: ai in r.teams[t] <==> ai in r.active && Team(r, ai) == t
  {
  }

  // ---- creation and completion ----

  function Anyone(): nat -> bool {
    (ai: nat) => true
  }

  /** Not allied with the unit, but aware of it. */
  function EnemyOf(r: Roster, unit: Unit): nat -> bool {
    (ai: nat) => !AlliedWith(r, ai, unit.allyteam) && Notices(r, ai, unit)
  }

  function Same(event: Event): nat -> Event {
    (ai: nat) => event
  }

  function Appeared(r: Roster, unit: Unit, own: Event, enemy: Event): seq<Delivery>
    requires unit.team < |r.teams|
  {
    Told(r.active, EnemyOf(r, unit), Same(enemy)) + Told(r.teams[unit.team], Anyone(), Same(own))
  }

  /** The unit's own team and the enemies that notice it are told, each in its own way and once. */
  lemma AppearedReaches(r: Roster, unit: Unit, own: Event, enemy: Event)
    requires Ready(r) && Owned(r, unit)
    ensures EachOnce(Appeared(r, unit, own, enemy))
    ensures forall d :: d in Appeared(r, unit, own, enemy) <==>
              d.ai in r.active &&
              var team := r.hosts.wrappers[d.ai].teamId;
              var allyTeam := r.diplomacy.allyTeam(team);
              || (d.event == own && team == unit.team)
              || (d.event == enemy && !r.diplomacy.ally(allyTeam, unit.allyteam) &&
                  (d.ai in r.cheating || unit.detected(allyTeam)))
  {
    TeamListIs(r, unit.team);
    ToldExactly(r.active, EnemyOf(r, unit), Same(enemy));
    ToldExactly(r.teams[unit.team], Anyone(), Same(own));
    EachOnceConcat(Told(r.active, EnemyOf(r, unit), Same(enemy)), Told(r.teams[unit.team], Anyone(), Same(own)));
  }

  // ---- destruction and damage ----

  const NOBODY := -1

  /** The attacker as the victim's own team learns of it. */
  function SeenAttacker(r: Roster, unit: Unit, attacker: Option<Unit>, ai: nat): int {
    if attacker.Some? && (attacker.value.detected(unit.allyteam) || ai in r.cheating) then attacker.value.id else NOBODY
  }

  /** The attacker as the victim's enemies learn of it. */
  function AlliedAttacker(r: Roster, attacker: Option<Unit>, ai: nat): int {
    if attacker.Some? && AlliedWith(r, ai, attacker.value.allyteam) then attacker.value.id else NOBODY
  }

  function OwnDestroyed(r: Roster, unit: Unit, attacker: Option<Unit>): nat -> Event {
    (ai: nat) => UnitDestroyed(unit.id, SeenAttacker(r, unit, attacker, ai))
  }

  function TheirsDestroyed(r: Roster, unit: Unit, attacker: Option<Unit>): nat -> Event {
    (ai: nat) => EnemyDestroyed(unit.id, AlliedAttacker(r, attacker, ai))
  }

  function Destroyed(r: Roster, unit: Unit, attacker: Option<Unit>): seq<Delivery>
    requires unit.team < |r.teams|
  {
    Told(r.teams[unit.team], Anyone(), OwnDestroyed(r, unit, attacker)) +
    Told(r.active, EnemyOf(r, unit), TheirsDestroyed(r, unit, attacker))
  }

  lemma DestroyedReaches(r: Roster, unit: Unit, attacker: Option<Unit>)
    requires Ready(r) && Owned(r, unit)
    ensures EachOnce(Destroyed(r, unit, attacker))
    ensures forall d :: d in Destroyed(r, unit, attacker) <==>
              d.ai in r.active &&
              var team := r.hosts.wrappers[d.ai].teamId;
              var allyTeam := r.diplomacy.allyTeam(team);
              var seen := attacker.Some? && (attacker.value.detected(unit.allyteam) || d.ai in r.cheating);
              var allied := attacker.Some? && r.diplomacy.ally(allyTeam, attacker.value.allyteam);
              || (team == unit.team && d.event == UnitDestroyed(unit.id, if seen then attacker.value.id else -1))
              || (!r.diplomacy.ally(allyTeam, unit.allyteam) && (d.ai in r.cheating || unit.detected(allyTeam)) &&
                  d.event == EnemyDestroyed(unit.id, if allied then attacker.value.id else -1))
  {
    TeamListIs(r, unit.team);
    ToldExactly(r.teams[unit.team], Anyone(), OwnDestroyed(r, unit, attacker));
    ToldExactly(r.active, EnemyOf(r, unit), TheirsDestroyed(r, unit, attacker));
    EachOnceConcat(Told(r.teams[unit.team], Anyone(), OwnDestroyed(r, unit, attacker)),
                   Told(r.active, EnemyOf(r, unit), TheirsDestroyed(r, unit, attacker)));
  }

  function OwnDamaged(r: Roster, unit: Unit, attacker: Option<Unit>): nat -> Event {
    (ai: nat) => UnitDamaged(unit.id, SeenAttacker(r, unit, attacker, ai))
  }

  /** AIs of the attacker's team may only know what it hit if they detect it. */
  function SeesDamage(r: Roster, unit: Unit, attacker: Unit): nat -> bool {
    (ai: nat) => unit.detected(attacker.allyteam) || ai in r.cheating
  }

  function Damaged(r: Roster, unit: Unit, attacker: Option<Unit>): seq<Delivery>
    requires unit.team < |r.teams| && (attacker.Some? ==> attacker.value.team < |r.teams|)
  {
    Told(r.teams[unit.team], Anyone(), OwnDamaged(r, unit, attacker)) +
    if attacker == None || r.diplomacy.ally(attacker.value.allyteam, unit.allyteam) then []
    else Told(r.teams[attacker.value.team], SeesDamage(r, unit, attacker.value),
              Same(EnemyDamaged(unit.id, attacker.value.id)))
  }

  lemma DamagedReaches(r: Roster, unit: Unit, attacker: Option<Unit>)
    requires Ready(r) && Owned(r, unit) && (attacker.Some? ==> Owned(r, attacker.value))
    ensures EachOnce(Damaged(r, unit, attacker))
    ensures forall d :: d in Damaged(r, unit, attacker) <==>
              d.ai in r.active &&
              var team := r.hosts.wrappers[d.ai].teamId;
              var allyTeam := r.diplomacy.allyTeam(team);
              var seen := attacker.Some? && (attacker.value.detected(unit.allyteam) || d.ai in r.cheating);
              || (team == unit.team && d.event == UnitDamaged(unit.id, if seen then attacker.value.id else -1))
              || (attacker.Some? && team == attacker.value.team && !r.diplomacy.ally(allyTeam, unit.allyteam) &&
                  (d.ai in r.cheating || unit.detected(allyTeam)) &&
                  d.event == EnemyDamaged(unit.id, attacker.value.id))
  {
    TeamListIs(r, unit.team);
    ToldExactly(r.teams[unit.team], Anyone(), OwnDamaged(r, unit, attacker));
    if attacker.Some? && !r.diplomacy.ally(attacker.value.allyteam, unit.allyteam) {
      var event := Same(EnemyDamaged(unit.id, attacker.value.id));
      TeamListIs(r, attacker.value.team);
      ToldExactly(r.teams[attacker.value.team], SeesDamage(r, unit, attacker.value), event);
      EachOnceConcat(Told(r.teams[unit.team], Anyone(), OwnDamaged(r, unit, attacker)),
                     Told(r.teams[attacker.value.team], SeesDamage(r, unit, attacker.value), event));
    }
  }

  // ---- change of team ----

  /** Whether UnitCaptured, for a unit in the state given, informs an AI. */
  predicate LosesSight(r: Roster, unit: Unit, oldTeam: nat, ai: nat) {
    var alliedOld := AlliedWith(r, ai, r.diplomacy.allyTeam(oldTeam));
    var alliedNew := AlliedWith(r, ai, unit.allyteam);
    && (Team(r, ai) == oldTeam || (alliedOld && !alliedNew))
    && (alliedOld || alliedNew || Notices(r, ai, unit))
  }

  /** Whether UnitGiven does. */
  predicate GainsSight(r: Roster, unit: Unit, oldTeam: nat, newTeam: nat, ai: nat) {
    var alliedOld := AlliedWith(r, ai, r.diplomacy.allyTeam(oldTeam));
    var alliedNew := AlliedWith(r, ai, unit.allyteam);
    && (Team(r, ai) == newTeam || (alliedNew && !alliedOld))
    && (alliedOld || alliedNew || Notices(r, ai, unit))
  }

  function Losing(r: Roster, unit: Unit, oldTeam: nat): nat -> bool {
    (ai: nat) => LosesSight(r, unit, oldTeam, ai)
  }

  function Gaining(r: Roster, unit: Unit, oldTeam: nat, newTeam: nat): nat -> bool {
    (ai: nat) => GainsSight(r, unit, oldTeam, newTeam, ai)
  }

  function Captured(r: Roster, unit: Unit, oldTeam: nat, newTeam: nat): seq<Delivery> {
    Told(r.active, Losing(r, unit, oldTeam), Same(UnitCaptured(unit.id, oldTeam, newTeam)))
  }

  function Given(r: Roster, unit: Unit, oldTeam: nat, newTeam: nat): seq<Delivery> {
    Told(r.active, Gaining(r, unit, oldTeam, newTeam), Same(UnitGiven(unit.id, oldTeam, newTeam)))
  }

  /** The unit in its new team, detected by whoever. */
  function Moved(r: Roster, unit: Unit, newTeam: nat, detected: nat -> bool): Unit {
    Unit(unit.id, newTeam, r.diplomacy.allyTeam(newTeam), detected)
  }

  /** The events of ChangeTeam: UnitCaptured before the unit changes its team, UnitGiven after. */
  function Transferred(r: Roster, unit: Unit, newTeam: nat, detected: nat -> bool): seq<Delivery> {
    Captured(r, unit, unit.team, newTeam) + Given(r, Moved(r, unit, newTeam, detected), unit.team, newTeam)
  }

  /**
   The old team's AIs are told that the unit is lost; the new team's, and those allied with the new
   but not with the old team, that it is gained; nobody else hears of it.
   */
  lemma TransferredReaches(r: Roster, unit: Unit, newTeam: nat, detected: nat -> bool, d: Delivery)
    requires Ready(r) && Owned(r, unit) && newTeam < |r.teams|
    ensures var (old', new') := (r.diplomacy.allyTeam(unit.team), r.diplomacy.allyTeam(newTeam));
            d in Transferred(r, unit, newTeam, detected) <==>
            d.ai in r.active &&
            var team := r.hosts.wrappers[d.ai].teamId;
            var allyTeam := r.diplomacy.allyTeam(team);
            || (d.event == UnitCaptured(unit.id, unit.team, newTeam) && team == unit.team)
            || (d.event == UnitGiven(unit.id, unit.team, newTeam) &&
                (team == newTeam || (r.diplomacy.ally(allyTeam, new') && !r.diplomacy.ally(allyTeam, old'))))
  {
    ToldExactly(r.active, Losing(r, unit, unit.team), Same(UnitCaptured(unit.id, unit.team, newTeam)));
    ToldExactly(r.active, Gaining(r, Moved(r, unit, newTeam, detected), unit.team, newTeam),
                Same(UnitGiven(unit.id, unit.team, newTeam)));
  }

  /** A unit given to the team it is in: each AI of that team gets both events. */
  lemma GivenToItself(r: Roster, unit: Unit, detected: nat -> bool)
    requires Ready(r) && Owned(r, unit) && r.teams[unit.team] != []
    ensures !EachOnce(Transferred(r, unit, unit.team, detected))
  {
    TeamListIs(r, unit.team);
    var ai := r.teams[unit.team][0];
    assert ai in r.teams[unit.team];
    var lost := Captured(r, unit, unit.team, unit.team);
    var gained := Given(r, Moved(r, unit, unit.team, detected), unit.team, unit.team);
    ToldExactly(r.active, Losing(r, unit, unit.team), Same(UnitCaptured(unit.id, unit.team, unit.team)));
    ToldExactly(r.active, Gaining(r, Moved(r, unit, unit.team, detected), unit.team, unit.team),
                Same(UnitGiven(unit.id, unit.team, unit.team)));
    ToldTwice(lost, gained, Delivery(ai, UnitCaptured(unit.id, unit.team, unit.team)),
              Delivery(ai, UnitGiven(unit.id, unit.team, unit.team)));
  }

  /** No AI gets both events, unless the unit is given to the team it is in, which has an AI. */
  lemma TransferExclusiveIff(r: Roster, unit: Unit, newTeam: nat, detected: nat -> bool)
    requires Ready(r) && Owned(r, unit) && newTeam < |r.teams|
    ensures EachOnce(Transferred(r, unit, newTeam, detected)) <==>
            (newTeam != unit.team || r.teams[unit.team] == [])
  {
    if newTeam == unit.team && r.teams[unit.team] != [] {
      GivenToItself(r, unit, detected);
    } else {
      var lost := Captured(r, unit, unit.team, newTeam);
      var gained := Given(r, Moved(r, unit, newTeam, detected), unit.team, newTeam);
      TeamListIs(r, unit.team);
      ToldExactly(r.active, Losing(r, unit, unit.team), Same(UnitCaptured(unit.id, unit.team, newTeam)));
      ToldExactly(r.active, Gaining(r, Moved(r, unit, newTeam, detected), unit.team, newTeam),
                  Same(UnitGiven(unit.id, unit.team, newTeam)));
      assert forall d :: d in lost ==> d.ai in r.teams[unit.team];
      EachOnceConcat(lost, gained);
    }
  }

  /** What the code says of UnitCaptured: the old team is informed, and its allies that are not the new team's too. */
  predicate OughtToHearOfLoss(r: Roster, unit: Unit, newTeam: nat, ai: nat) {
    || Team(r, ai) == unit.team
    || (AlliedWith(r, ai, unit.allyteam) && !AlliedWith(r, ai, r.diplomacy.allyTeam(newTeam)))
  }

  /**
   That holds just when no other team's AI is allied with the old and not with the new team, since
   UnitCaptured is sent while the unit still counts to its old ally team.
   */
  lemma AlliesHearOfLossIff(r: Roster, unit: Unit, newTeam: nat, detected: nat -> bool)
    requires Ready(r) && Owned(r, unit) && newTeam < |r.teams|
    ensures (forall ai :: ai in r.active && OughtToHearOfLoss(r, unit, newTeam, ai) ==>
               Delivery(ai, UnitCaptured(unit.id, unit.team, newTeam)) in Transferred(r, unit, newTeam, detected))
            <==>
            (forall ai :: ai in r.active && Team(r, ai) != unit.team && AlliedWith(r, ai, unit.allyteam) ==>
               AlliedWith(r, ai, r.diplomacy.allyTeam(newTeam)))
  {
    forall ai: nat
      ensures Delivery(ai, UnitCaptured(unit.id, unit.team, newTeam)) in Transferred(r, unit, newTeam, detected) <==>
              ai in r.active && Team(r, ai) == unit.team
    {
      TransferredReaches(r, unit, newTeam, detected, Delivery(ai, UnitCaptured(unit.id, unit.team, newTeam)));
    }
  }

  /** Teams 0, 1 and 2 for themselves, except that team 1 is allied with team 0; AIs 0 and 1 play teams 0 and 1. */
  ghost function AlliedRoster(): Roster {
    var first, second := Fresh(0, AIData(0, false)), Fresh(1, AIData(1, false));
    Roster(
      Hosts([first, second], [-1, -1], [AIData(0, false), AIData(1, false)], []), [0, 1], [[0], [1], []], {},
      Diplomacy(team => if team < 0 then 3 else team, (a: nat, b: nat) => a == b || (a == 1 && b == 0)))
  }

  lemma AlliedRosterIsReady()
    ensures Ready(AlliedRoster())
  {
    var r := AlliedRoster();
    assert r.teams[0] == [0] && r.teams[1] == [1] && r.teams[2] == [];
    assert Registry(r.hosts, r.active, r.teams);
  }

  /** A unit of team 0 goes to team 2: AI 1 is an ally of the old team only, and hears of it in no event. */
  lemma AllyNotTold(detected: nat -> bool)
    ensures var r, unit := AlliedRoster(), Unit(7, 0, 0, detected);
            && Ready(r) && Owned(r, unit) && 1 in r.active && OughtToHearOfLoss(r, unit, 2, 1)
            && forall event :: Delivery(1, event) !in Transferred(r, unit, 2, detected)
  {
    var r, unit := AlliedRoster(), Unit(7, 0, 0, detected);
    AlliedRosterIsReady();
    forall event
      ensures Delivery(1, event) !in Transferred(r, unit, 2, detected)
    {
      TransferredReaches(r, unit, 2, detected, Delivery(1, event));
    }
  }

  // ---- the event functions ----

  class UnitEventRouter {
    const roster: Roster
    var delivered: seq<Delivery>

    constructor (roster: Roster)
      ensures this.roster == roster && delivered == []
    {
      this.roster := roster;
      delivered := [];
    }

    /** DO_FOR_ENEMY_SKIRMISH_AIS. */
    method DoForEnemies(unit: Unit, event: Event)
      modifies this`delivered
      ensures delivered == old(delivered) + Told(roster.active, EnemyOf(roster, unit), Same(event))
    {
      assert roster.active[..0] == [];
      for k := 0 to |roster.active|
        invariant delivered == old(delivered) + Told(roster.active[..k], EnemyOf(roster, unit), Same(event))
      {
        assert roster.active[..k + 1][..k] == roster.active[..k];
        var ai := roster.active[k];
        if AlliedWith(roster, ai, unit.allyteam) {
          continue;
        }
        if !Notices(roster, ai, unit) {
          continue;
        }
        delivered := delivered + [Delivery(ai, event)];
      }
      assert roster.active[..|roster.active|] == roster.active;
    }

    /** DO_FOR_TEAM_SKIRMISH_AIS. */
    method DoForTeam(team: nat, event: Event)
      requires team < |roster.teams|
      modifies this`delivered
      ensures delivered == old(delivered) + Told(roster.teams[team], Anyone(), Same(event))
    {
      var ids := roster.teams[team];
      if ids == [] {
        return;
      }
      assert ids[..0] == [];
      for k := 0 to |ids|
        invariant delivered == old(delivered) + Told(ids[..k], Anyone(), Same(event))
      {
        assert ids[..k + 1][..k] == ids[..k];
        delivered := delivered + [Delivery(ids[k], event)];
      }
      assert ids[..|ids|] == ids;
    }

    method OnUnitCreated(unit: Unit, builder: Option<Unit>)
      requires Ready(roster) && Owned(roster, unit)
      modifies this`delivered
      ensures delivered == old(delivered) +
              Appeared(roster, unit, UnitCreated(unit.id, if builder.Some? then builder.value.id else NOBODY),
                       EnemyCreated(unit.id))
    {
      DoForEnemies(unit, EnemyCreated(unit.id));
      DoForTeam(unit.team, UnitCreated(unit.id, if builder.Some? then builder.value.id else NOBODY));
    }

    method OnUnitFinished(unit: Unit)
      requires Ready(roster) && Owned(roster, unit)
      modifies this`delivered
      ensures delivered == old(delivered) + Appeared(roster, unit, UnitFinished(unit.id), EnemyFinished(unit.id))
    {
      DoForEnemies(unit, EnemyFinished(unit.id));
      DoForTeam(unit.team, UnitFinished(unit.id));
    }

    method OnUnitDestroyed(unit: Unit, attacker: Option<Unit>)
      requires Ready(roster) && Owned(roster, unit)
      modifies this`delivered
      ensures delivered == old(delivered) + Destroyed(roster, unit, attacker)
    {
      TellOwnersDestroyed(unit, attacker);
      TellEnemiesDestroyed(unit, attacker);
    }

    method TellOwnersDestroyed(unit: Unit, attacker: Option<Unit>)
      requires unit.team < |roster.teams|
      modifies this`delivered
      ensures delivered ==
              old(delivered) + Told(roster.teams[unit.team], Anyone(), OwnDestroyed(roster, unit, attacker))
    {
      var ids := roster.teams[unit.team];
      var attackerInLosOrRadar := attacker.Some? && attacker.value.detected(unit.allyteam);
      assert ids[..0] == [];
      for k := 0 to |ids|
        invariant delivered == old(delivered) + Told(ids[..k], Anyone(), OwnDestroyed(roster, unit, attacker))
      {
        assert ids[..k + 1][..k] == ids[..k];
        var visibleAttackerId := NOBODY;
        if attackerInLosOrRadar || ids[k] in roster.cheating {
          visibleAttackerId := if attacker.Some? then attacker.value.id else NOBODY;
        }
        delivered := delivered + [Delivery(ids[k], UnitDestroyed(unit.id, visibleAttackerId))];
      }
      assert ids[..|ids|] == ids;
    }

    method TellEnemiesDestroyed(unit: Unit, attacker: Option<Unit>)
      modifies this`delivered
      ensures delivered ==
              old(delivered) + Told(roster.active, EnemyOf(roster, unit), TheirsDestroyed(roster, unit, attacker))
    {
      assert roster.active[..0] == [];
      for k := 0 to |roster.active|
        invariant delivered == old(delivered) +
                  Told(roster.active[..k], EnemyOf(roster, unit), TheirsDestroyed(roster, unit, attacker))
      {
        assert roster.active[..k + 1][..k] == roster.active[..k];
        var ai := roster.active[k];
        if AlliedWith(roster, ai, unit.allyteam) {
          continue;
        }
        if !Notices(roster, ai, unit) {
          continue;
        }
        var myAttackerId := NOBODY;
        if attacker.Some? && AlliedWith(roster, ai, attacker.value.allyteam) {
          myAttackerId := attacker.value.id;
        }
        delivered := delivered + [Delivery(ai, EnemyDestroyed(unit.id, myAttackerId))];
      }
      assert roster.active[..|roster.active|] == roster.active;
    }

    method OnUnitDamaged(unit: Unit, attacker: Option<Unit>)
      requires Ready(roster) && Owned(roster, unit) && (attacker.Some? ==> Owned(roster, attacker.value))
      modifies this`delivered
      ensures delivered == old(delivered) + Damaged(roster, unit, attacker)
    {
      TellOwnersDamaged(unit, attacker);
      if attacker == None {
        return;
      }
      if roster.diplomacy.ally(attacker.value.allyteam, unit.allyteam) {
        return;
      }
      TellAttackersDamaged(unit, attacker.value);
    }

    method TellOwnersDamaged(unit: Unit, attacker: Option<Unit>)
      requires unit.team < |roster.teams|
      modifies this`delivered
      ensures delivered ==
              old(delivered) + Told(roster.teams[unit.team], Anyone(), OwnDamaged(roster, unit, attacker))
    {
      var ids := roster.teams[unit.team];
      var attackerInLosOrRadar := attacker.Some? && attacker.value.detected(unit.allyteam);
      assert ids[..0] == [];
      for k := 0 to |ids|
        invariant delivered == old(delivered) + Told(ids[..k], Anyone(), OwnDamaged(roster, unit, attacker))
      {
        assert ids[..k + 1][..k] == ids[..k];
        var visibleAttackerId := NOBODY;
        if attackerInLosOrRadar || ids[k] in roster.cheating {
          visibleAttackerId := if attacker.Some? then attacker.value.id else NOBODY;
        }
        delivered := delivered + [Delivery(ids[k], UnitDamaged(unit.id, visibleAttackerId))];
      }
      assert ids[..|ids|] == ids;
    }

    method TellAttackersDamaged(unit: Unit, attacker: Unit)
      requires attacker.team < |roster.teams|
      modifies this`delivered
      ensures delivered == old(delivered) +
              Told(roster.teams[attacker.team], SeesDamage(roster, unit, attacker),
                   Same(EnemyDamaged(unit.id, attacker.id)))
    {
      var ids := roster.teams[attacker.team];
      var damagedInLosOrRadar := unit.detected(attacker.allyteam);
      assert ids[..0] == [];
      for k := 0 to |ids|
        invariant delivered == old(delivered) +
                  Told(ids[..k], SeesDamage(roster, unit, attacker), Same(EnemyDamaged(unit.id, attacker.id)))
      {
        assert ids[..k + 1][..k] == ids[..k];
        if !damagedInLosOrRadar && ids[k] !in roster.cheating {
          continue;
        }
        delivered := delivered + [Delivery(ids[k], EnemyDamaged(unit.id, attacker.id))];
      }
      assert ids[..|ids|] == ids;
    }

    method OnUnitCaptured(unit: Unit, oldTeam: nat, newTeam: nat)
      modifies this`delivered
      ensures delivered == old(delivered) + Captured(roster, unit, oldTeam, newTeam)
    {
      assert roster.active[..0] == [];
      for k := 0 to |roster.active|
        invariant delivered == old(delivered) +
                  Told(roster.active[..k], Losing(roster, unit, oldTeam), Same(UnitCaptured(unit.id, oldTeam, newTeam)))
      {
        ToldStep(roster.active, k, Losing(roster, unit, oldTeam), Same(UnitCaptured(unit.id, oldTeam, newTeam)));
        var ai := roster.active[k];
        var alliedOld := AlliedWith(roster, ai, roster.diplomacy.allyTeam(oldTeam));
        var alliedNew := AlliedWith(roster, ai, unit.allyteam);
        var informAI := Team(roster, ai) == oldTeam || (alliedOld && !alliedNew);
        if informAI {
          informAI := alliedOld || alliedNew || Notices(roster, ai, unit);
        }
        if !informAI {
          continue;
        }
        delivered := delivered + [Delivery(ai, UnitCaptured(unit.id, oldTeam, newTeam))];
      }
      assert roster.active[..|roster.active|] == roster.active;
    }

    method OnUnitGiven(unit: Unit, oldTeam: nat, newTeam: nat)
      modifies this`delivered
      ensures delivered == old(delivered) + Given(roster, unit, oldTeam, newTeam)
    {
      assert roster.active[..0] == [];
      for k := 0 to |roster.active|
        invariant delivered == old(delivered) +
                  Told(roster.active[..k], Gaining(roster, unit, oldTeam, newTeam),
                       Same(UnitGiven(unit.id, oldTeam, newTeam)))
      {
        ToldStep(roster.active, k, Gaining(roster, unit, oldTeam, newTeam), Same(UnitGiven(unit.id, oldTeam, newTeam)));
        var ai := roster.active[k];
        var alliedOld := AlliedWith(roster, ai, roster.diplomacy.allyTeam(oldTeam));
        var alliedNew := AlliedWith(roster, ai, unit.allyteam);
        var informAI := Team(roster, ai) == newTeam || (alliedNew && !alliedOld);
        if informAI {
          informAI := alliedOld || alliedNew || Notices(roster, ai, unit);
        }
        if !informAI {
          continue;
        }
        delivered := delivered + [Delivery(ai, UnitGiven(unit.id, oldTeam, newTeam))];
      }
      assert roster.active[..|roster.active|] == roster.active;
    }

    /** CUnit::ChangeTeam, once it is allowed. */
    method ChangeTeam(unit: Unit, newTeam: nat, detected: nat -> bool) returns (unit': Unit)
      modifies this`delivered
      ensures unit' == Moved(roster, unit, newTeam, detected)
      ensures delivered == old(delivered) + Transferred(roster, unit, newTeam, detected)
    {
      OnUnitCaptured(unit, unit.team, newTeam);
      unit' := unit.(team := newTeam, allyteam := roster.diplomacy.allyTeam(newTeam), detected := detected);
      OnUnitGiven(unit', unit.team, newTeam);
    }
  }
}
