/**
 Spatial unit queries: a search walks the quads that cover its area, ally team
 by ally team, and marks every unit it meets with a fresh stamp so that a unit
 lying in several quads is handed to the query only once.
 */
module UnitQuery {
  import opened Sequences

  datatype Pos = Pos(x: real, y: real, z: real)

  /** losStatus[t] says whether ally team t sees the unit or has it on radar. */
  datatype Unit = Unit(
    allyteam: nat, midPos: Pos, radius: real, losRadius: real,
    neutral: bool, canFly: bool, crashing: bool, losStatus: seq<bool>)

  function SqLength2D(a: Pos, b: Pos): real {
    (a.x - b.x) * (a.x - b.x) + (a.z - b.z) * (a.z - b.z)
  }

  function SqLength(a: Pos, b: Pos): real {
    SqLength2D(a, b) + (a.y - b.y) * (a.y - b.y)
  }

  /** The Filter structs; isValidTarget is what CMobileCAI::IsValidTarget says. */
  datatype Filter =
    | Friendly(searchAllyteam: nat, exclude: Option<nat>)
    | Enemy(searchAllyteam: nat, exclude: Option<nat>)
    | EnemyInLos(searchAllyteam: nat, exclude: Option<nat>)
    | EnemyAircraft(searchAllyteam: nat, exclude: Option<nat>)
    | EnemyInLosValidTarget(searchAllyteam: nat, isValidTarget: nat -> bool)
  {
    predicate Team(ally: (nat, nat) -> bool, allyteam: nat) {
      if Friendly? then ally(searchAllyteam, allyteam) else !ally(searchAllyteam, allyteam)
    }

    predicate Unit(id: nat, u: Unit) {
      match this
      case Friendly(_, exclude) => exclude != Some(id)
      case Enemy(_, exclude) => exclude != Some(id) && !u.neutral
      case EnemyInLos(at, exclude) => InLos(u, at) && exclude != Some(id) && !u.neutral
      case EnemyAircraft(at, exclude) =>
        u.canFly && !u.crashing && InLos(u, at) && exclude != Some(id) && !u.neutral
      case EnemyInLosValidTarget(at, isValidTarget) => InLos(u, at) && !u.neutral && isValidTarget(id)
    }
  }

  predicate InLos(u: Unit, allyteam: nat) {
    allyteam < |u.losStatus| && u.losStatus[allyteam]
  }

  /** How a closest-unit query measures: across the map, or to the unit's sphere; with or without its sight range. */
  datatype Metric = Flat | Cylinder(checkSight: bool) | Sphere(checkSight: bool)

  /** The Query structs. */
  datatype Query =
    | Closest(metric: Metric, pos: Pos, closeDist: real, closeUnit: Option<nat>)
    | AllById(pos: Pos, sqRadius: real, found: seq<nat>)

  /** The stamps, the query, and the units handed to it, as a walk proceeds. */
  datatype Walk = Walk(stamps: seq<int>, q: Query, calls: seq<nat>)

  class World {
    const units: seq<Unit>
    const ally: (nat, nat) -> bool
    const activeAllyTeams: nat
    /** quads[q][t] lists the units of ally team t that lie in quad q. */
    const quads: seq<seq<seq<nat>>>
    /** float3::distance. */
    const distance: (Pos, Pos) -> real
    /** CUnit::tempNum of every unit. */
    const stamps: array<int>
    /** The next stamp GetTempNum hands out. */
    var tempNum: int

    ghost predicate Valid()
      reads this, stamps
    {
      && stamps.Length == |units|
      && (forall u :: 0 <= u < |units| ==> stamps[u] < tempNum)
      && Placed()
    }

    /** distance is the Euclidean distance. */
    ghost predicate Euclidean() {
      forall a, b :: distance(a, b) >= 0.0 && distance(a, b) * distance(a, b) == SqLength(a, b)
    }

    /** Every quad has a list per ally team, and a unit is listed under its own. */
    ghost predicate Placed() {
      && (forall q :: 0 <= q < |quads| ==> |quads[q]| == activeAllyTeams)
      && (forall q, t, i :: 0 <= q < |quads| && 0 <= t < activeAllyTeams && 0 <= i < |quads[q][t]| ==>
            quads[q][t][i] < |units| && units[quads[q][t][i]].allyteam == t)
    }

    ghost predicate ValidQuads(quadIds: seq<nat>) {
      forall k :: 0 <= k < |quadIds| ==> quadIds[k] < |quads|
    }

    function Measure(m: Metric, pos: Pos, u: Unit): real {
      if m.Sphere? then distance(pos, u.midPos) - u.radius else SqLength2D(pos, u.midPos)
    }

    predicate Sees(m: Metric, pos: Pos, u: Unit) {
      match m
      case Flat => true
      case Cylinder(check) => !check || Measure(m, pos, u) <= u.losRadius * u.losRadius
      case Sphere(check) => !check || Measure(m, pos, u) <= u.losRadius
    }

    /** Query::AddUnit. */
    function AddUnit(q: Query, id: nat): Query
      requires id < |units|
    {
      var u := units[id];
      match q
      case Closest(m, pos, closeDist, _) =>
        var dist := Measure(m, pos, u);
        if dist <= closeDist && Sees(m, pos, u) then q.(closeDist := dist, closeUnit := Some(id)) else q
      case AllById(pos, sqRadius, found) =>
        if SqLength2D(pos, u.midPos) <= sqRadius then q.(found := found + [id]) else q
    }

    ghost predicate Ids(calls: seq<nat>) {
      forall i :: 0 <= i < |calls| ==> calls[i] < |units|
    }

    /** The query after being handed the given units one by one. */
    ghost function AddAll(q: Query, calls: seq<nat>): Query
      requires Ids(calls)
    {
      if calls == [] then q
      else AddUnit(AddAll(q, calls[..|calls| - 1]), calls[|calls| - 1])
    }

    lemma AddAllOneMore(q: Query, calls: seq<nat>, u: nat)
      requires Ids(calls) && u < |units|
      ensures Ids(calls + [u]) && AddAll(q, calls + [u]) == AddUnit(AddAll(q, calls), u)
    {
      assert (calls + [u])[..|calls|] == calls;
    }

    // ---- the walk ----

    /** The units met in the given quads for one ally team, in order, with repetitions. */
    ghost function MetInTeam(quadIds: seq<nat>, t: nat): seq<nat>
      requires Placed() && ValidQuads(quadIds) && t < activeAllyTeams
    {
      if quadIds == [] then []
      else MetInTeam(quadIds[..|quadIds| - 1], t) + quads[quadIds[|quadIds| - 1]][t]
    }

    /** The units met for the first teams ally teams. */
    ghost function Met(f: Filter, quadIds: seq<nat>, teams: nat): seq<nat>
      requires Placed() && ValidQuads(quadIds) && teams <= activeAllyTeams
    {
      if teams == 0 then []
      else Met(f, quadIds, teams - 1) + if f.Team(ally, teams - 1) then MetInTeam(quadIds, teams - 1) else []
    }

    /** Of the units met, those that pass the filter, at their first appearance. */
    ghost function Handed(f: Filter, met: seq<nat>): seq<nat>
      requires Ids(met)
    {
      if met == [] then []
      else
        var before, u := met[..|met| - 1], met[|met| - 1];
        Handed(f, before) + if u !in before && f.Unit(u, units[u]) then [u] else []
    }

    lemma {:induction false} HandedOnce(f: Filter, met: seq<nat>)
      requires Ids(met)
      ensures NoDuplicates(Handed(f, met))
      ensures forall u :: u in Handed(f, met) <==> u in met && f.Unit(u, units[u])
    {
      if met != [] {
        var before, u := met[..|met| - 1], met[|met| - 1];
        assert met == before + [u];
        HandedOnce(f, before);
      }
    }

    ghost predicate ListedIn(quadIds: seq<nat>, t: nat, u: nat)
      requires Placed() && ValidQuads(quadIds) && t < activeAllyTeams
    {
      exists k :: 0 <= k < |quadIds| && u in quads[quadIds[k]][t]
    }

    lemma ListedInOneMore(quadIds: seq<nat>, t: nat, u: nat)
      requires Placed() && ValidQuads(quadIds) && t < activeAllyTeams && quadIds != []
      ensures var n := |quadIds| - 1;
              ListedIn(quadIds, t, u) <==> ListedIn(quadIds[..n], t, u) || u in quads[quadIds[n]][t]
    {
      var n := |quadIds| - 1;
      if ListedIn(quadIds[..n], t, u) {
        var k :| 0 <= k < n && u in quads[quadIds[..n][k]][t];
        assert u in quads[quadIds[k]][t];
      }
      if ListedIn(quadIds, t, u) {
        var k :| 0 <= k < |quadIds| && u in quads[quadIds[k]][t];
        if k < n { assert u in quads[quadIds[..n][k]][t]; }
      }
    }

    lemma {:induction false} MetInTeamMembers(quadIds: seq<nat>, t: nat)
      requires Placed() && ValidQuads(quadIds) && t < activeAllyTeams
      ensures forall u :: u in MetInTeam(quadIds, t) <==> ListedIn(quadIds, t, u)
    {
      if quadIds != [] {
        MetInTeamMembers(quadIds[..|quadIds| - 1], t);
        forall u: nat
          ensures u in MetInTeam(quadIds, t) <==> ListedIn(quadIds, t, u)
        {
          ListedInOneMore(quadIds, t, u);
        }
      }
    }

    lemma {:induction false} MetMembers(f: Filter, quadIds: seq<nat>, teams: nat)
      requires Placed() && ValidQuads(quadIds) && teams <= activeAllyTeams
      ensures Ids(Met(f, quadIds, teams))
      ensures forall u: nat :: u in Met(f, quadIds, teams) <==>
                u < |units| && units[u].allyteam < teams && f.Team(ally, units[u].allyteam) && Covered(quadIds, u)
    {
      if teams > 0 {
        MetMembers(f, quadIds, teams - 1);
        MetInTeamMembers(quadIds, teams - 1);
        forall u: nat
          ensures u in MetInTeam(quadIds, teams - 1) <==>
                    u < |units| && units[u].allyteam == teams - 1 && Covered(quadIds, u)
        {
          if k :| 0 <= k < |quadIds| && u in quads[quadIds[k]][teams - 1] {
            assert units[u].allyteam == teams - 1;
          }
        }
        var met := Met(f, quadIds, teams);
        forall i | 0 <= i < |met|
          ensures met[i] < |units|
        {
          assert met[i] in met;
        }
      }
    }

    /** The unit lies in one of the given quads. */
    ghost predicate Covered(quadIds: seq<nat>, u: nat)
      requires u < |units| && Placed() && ValidQuads(quadIds)
    {
      units[u].allyteam < activeAllyTeams && ListedIn(quadIds, units[u].allyteam, u)
    }

    /** One iteration of the innermost loop. */
    ghost function Meet(f: Filter, now: int, w: Walk, u: nat): (w': Walk)
      requires u < |units| == |w.stamps|
      ensures |w'.stamps| == |w.stamps|
    {
      if w.stamps[u] == now then w
      else
        var stamped := w.(stamps := w.stamps[u := now]);
        if !f.Unit(u, units[u]) then stamped
        else stamped.(q := AddUnit(w.q, u), calls := w.calls + [u])
    }

    ghost function MeetAll(f: Filter, now: int, w: Walk, met: seq<nat>): (w': Walk)
      requires Ids(met) && |w.stamps| == |units|
      ensures |w'.stamps| == |units|
    {
      if met == [] then w
      else Meet(f, now, MeetAll(f, now, w, met[..|met| - 1]), met[|met| - 1])
    }

    lemma {:induction false} MeetAllConcat(f: Filter, now: int, w: Walk, a: seq<nat>, b: seq<nat>)
      requires Ids(a) && Ids(b) && |w.stamps| == |units|
      ensures Ids(a + b)
      ensures MeetAll(f, now, w, a + b) == MeetAll(f, now, MeetAll(f, now, w, a), b)
    {
      if b == [] {
        assert a + b == a;
      } else {
        var n := |b| - 1;
        assert (a + b)[..|a + b| - 1] == a + b[..n];
        MeetAllConcat(f, now, w, a, b[..n]);
      }
    }

    /** No stamp is newer than now, and the units met are the ones that carry it. */
    ghost predicate Marks(stamps: seq<int>, now: int, met: seq<nat>) {
      forall u :: 0 <= u < |stamps| ==> stamps[u] <= now && (stamps[u] == now <==> u in met)
    }

    /** A walk that begins with a fresh stamp leaves it on exactly the units it has met. */
    lemma {:induction false} WalkStamps(f: Filter, now: int, w: Walk, met: seq<nat>)
      requires Ids(met) && |w.stamps| == |units|
      requires forall u :: 0 <= u < |units| ==> w.stamps[u] < now
      ensures Marks(MeetAll(f, now, w, met).stamps, now, met)
    {
      if met != [] {
        var before := met[..|met| - 1];
        assert met == before + [met[|met| - 1]];
        WalkStamps(f, now, w, before);
        var w1 := MeetAll(f, now, w, before);
        assert MeetAll(f, now, w, met).stamps ==
          if w1.stamps[met[|met| - 1]] == now then w1.stamps else w1.stamps[met[|met| - 1] := now];
      }
    }

    /** It hands out what passes the filter, at its first appearance. */
    lemma {:induction false} WalkHandsOutOnce(f: Filter, now: int, w: Walk, met: seq<nat>)
      requires Ids(met) && |w.stamps| == |units| && w.calls == []
      requires forall u :: 0 <= u < |units| ==> w.stamps[u] < now
      ensures
        var w' := MeetAll(f, now, w, met);
        w'.calls == Handed(f, met) && Ids(w'.calls) && w'.q == AddAll(w.q, w'.calls)
    {
      if met != [] {
        var before, u := met[..|met| - 1], met[|met| - 1];
        WalkHandsOutOnce(f, now, w, before);
        var w1 := MeetAll(f, now, w, before);
        assert w1.stamps[u] == now <==> u in before by { WalkStamps(f, now, w, before); }
        AddAllOneMore(w.q, w1.calls, u);
      }
    }

    /** QueryUnits: each unit in the quads that passes the filter is handed to the query exactly once. */
    method QueryUnits(f: Filter, q0: Query, quadIds: seq<nat>) returns (q: Query, ghost calls: seq<nat>)
      requires Valid() && ValidQuads(quadIds)
      modifies this`tempNum, stamps
      ensures Valid()
      ensures Ids(calls) && q == AddAll(q0, calls)
      ensures NoDuplicates(calls)
      ensures forall u: nat :: u in calls <==>
                u < |units| && f.Team(ally, units[u].allyteam) && f.Unit(u, units[u]) && Covered(quadIds, u)
    {
      var now := tempNum;
      tempNum := tempNum + 1;
      q, calls := q0, [];
      ghost var start := Walk(stamps[..], q0, []);
      for t := 0 to activeAllyTeams
        invariant tempNum == now + 1 && Ids(Met(f, quadIds, t))
        invariant Walk(stamps[..], q, calls) == MeetAll(f, now, start, Met(f, quadIds, t))
      {
        OneTeamMore(f, now, start, quadIds, t);
        if !f.Team(ally, t) {
          continue;
        }
        q, calls := VisitTeam(f, q, quadIds, t, now, calls);
      }
      WholeWalk(f, now, start, quadIds);
      assert forall u :: 0 <= u < |units| ==> stamps[u] == stamps[..][u];
    }

    /** What the walk has met after one ally team more. */
    lemma OneTeamMore(f: Filter, now: int, start: Walk, quadIds: seq<nat>, t: nat)
      requires Placed() && ValidQuads(quadIds) && t < activeAllyTeams && |start.stamps| == |units|
      requires Ids(Met(f, quadIds, t))
      ensures Ids(Met(f, quadIds, t + 1)) && Ids(MetInTeam(quadIds, t))
      ensures MeetAll(f, now, start, Met(f, quadIds, t + 1)) ==
              if f.Team(ally, t) then MeetAll(f, now, MeetAll(f, now, start, Met(f, quadIds, t)), MetInTeam(quadIds, t))
              else MeetAll(f, now, start, Met(f, quadIds, t))
    {
      MetMembers(f, quadIds, t + 1);
      MetInTeamIds(quadIds, t);
      if f.Team(ally, t) {
        MeetAllConcat(f, now, start, Met(f, quadIds, t), MetInTeam(quadIds, t));
      } else {
        assert Met(f, quadIds, t + 1) == Met(f, quadIds, t);
      }
    }

    /** What a walk over all ally teams amounts to, if it begins with a fresh stamp. */
    lemma WholeWalk(f: Filter, now: int, start: Walk, quadIds: seq<nat>)
      requires Placed() && ValidQuads(quadIds) && |start.stamps| == |units| && start.calls == []
      requires forall u :: 0 <= u < |units| ==> start.stamps[u] < now
      ensures Ids(Met(f, quadIds, activeAllyTeams))
      ensures
        var end := MeetAll(f, now, start, Met(f, quadIds, activeAllyTeams));
        && Ids(end.calls) && end.q == AddAll(start.q, end.calls) && NoDuplicates(end.calls)
        && (forall u: nat :: u in end.calls <==>
              u < |units| && f.Team(ally, units[u].allyteam) && f.Unit(u, units[u]) && Covered(quadIds, u))
        && (forall u :: 0 <= u < |units| ==> end.stamps[u] <= now)
    {
      var met := Met(f, quadIds, activeAllyTeams);
      MetMembers(f, quadIds, activeAllyTeams);
      WalkStamps(f, now, start, met);
      WalkHandsOutOnce(f, now, start, met);
      HandedOnce(f, met);
    }

    lemma MetInTeamIds(quadIds: seq<nat>, t: nat)
      requires Placed() && ValidQuads(quadIds) && t < activeAllyTeams
      ensures Ids(MetInTeam(quadIds, t))
    {
      MetInTeamMembers(quadIds, t);
      var met := MetInTeam(quadIds, t);
      forall i | 0 <= i < |met|
        ensures met[i] < |units|
      {
        assert met[i] in met;
      }
    }

    /** The loop over the quads, for one ally team. */
    method VisitTeam(f: Filter, q: Query, quadIds: seq<nat>, t: nat, now: int, ghost calls: seq<nat>)
      returns (q': Query, ghost calls': seq<nat>)
      requires Placed() && ValidQuads(quadIds) && t < activeAllyTeams && stamps.Length == |units|
      modifies stamps
      ensures Ids(MetInTeam(quadIds, t))
      ensures Walk(stamps[..], q', calls') ==
              MeetAll(f, now, Walk(old(stamps[..]), q, calls), MetInTeam(quadIds, t))
    {
      q', calls' := q, calls;
      ghost var start := Walk(stamps[..], q, calls);
      for k := 0 to |quadIds|
        invariant Ids(MetInTeam(quadIds[..k], t))
        invariant Walk(stamps[..], q', calls') == MeetAll(f, now, start, MetInTeam(quadIds[..k], t))
      {
        assert quadIds[..k + 1][..k] == quadIds[..k];
        MetInTeamIds(quadIds[..k + 1], t);
        MeetAllConcat(f, now, start, MetInTeam(quadIds[..k], t), quads[quadIds[k]][t]);
        q', calls' := VisitList(f, q', quads[quadIds[k]][t], now, calls');
      }
      assert quadIds[..|quadIds|] == quadIds;
    }

    /** The loop over the units of one ally team in one quad. */
    method VisitList(f: Filter, q: Query, allyTeamUnits: seq<nat>, now: int, ghost calls: seq<nat>)
      returns (q': Query, ghost calls': seq<nat>)
      requires Ids(allyTeamUnits) && stamps.Length == |units|
      modifies stamps
      ensures Walk(stamps[..], q', calls') ==
              MeetAll(f, now, Walk(old(stamps[..]), q, calls), allyTeamUnits)
    {
      q', calls' := q, calls;
      ghost var start := Walk(stamps[..], q, calls);
      for i := 0 to |allyTeamUnits|
        invariant Walk(stamps[..], q', calls') == MeetAll(f, now, start, allyTeamUnits[..i])
      {
        var u := allyTeamUnits[i];
        assert allyTeamUnits[..i + 1][..i] == allyTeamUnits[..i];
        if stamps[u] == now {
          continue;
        }
        stamps[u] := now;
        if !f.Unit(u, units[u]) {
          continue;
        }
        q', calls' := AddUnit(q', u), calls' + [u];
      }
      assert allyTeamUnits[..|allyTeamUnits|] == allyTeamUnits;
    }

    // ---- what the queries return ----

    /** A unit that a closest-unit query accepts within the given distance. */
    predicate Accepts(m: Metric, pos: Pos, limit: real, u: Unit) {
      Measure(m, pos, u) <= limit && Sees(m, pos, u)
    }

    /** A closest-unit query ends with an accepted unit at the least distance, or with none if there is none. */
    lemma {:induction false} ClosestIsMinimum(m: Metric, pos: Pos, limit: real, calls: seq<nat>)
      requires Ids(calls)
      ensures
        var q := AddAll(Closest(m, pos, limit, None), calls);
        && q.Closest? && q.metric == m && q.pos == pos && q.closeDist <= limit
        && (q.closeUnit.None? ==> q.closeDist == limit)
        && (q.closeUnit.None? ==> forall u :: u in calls ==> !Accepts(m, pos, limit, units[u]))
        && (q.closeUnit.Some? ==>
              var c := q.closeUnit.value;
              c in calls && Accepts(m, pos, limit, units[c]) && q.closeDist == Measure(m, pos, units[c]) &&
              forall u :: u in calls && Accepts(m, pos, limit, units[u]) ==>
                Measure(m, pos, units[c]) <= Measure(m, pos, units[u]))
    {
      if calls != [] {
        var before, u := calls[..|calls| - 1], calls[|calls| - 1];
        assert calls == before + [u];
        ClosestIsMinimum(m, pos, limit, before);
      }
    }

    /** A find-all query keeps exactly the units within the radius, each once. */
    lemma {:induction false} FoundInRadius(pos: Pos, sqRadius: real, calls: seq<nat>)
      requires Ids(calls) && NoDuplicates(calls)
      ensures
        var q := AddAll(AllById(pos, sqRadius, []), calls);
        && q.AllById? && q.pos == pos && q.sqRadius == sqRadius
        && NoDuplicates(q.found)
        && forall u :: u in q.found <==> u in calls && SqLength2D(pos, units[u].midPos) <= sqRadius
    {
      if calls != [] {
        var before, u := calls[..|calls| - 1], calls[|calls| - 1];
        assert calls == before + [u];
        FoundInRadius(pos, sqRadius, before);
      }
    }

    /** What quadField.GetQuads promises: the quads hold every unit whose middle is within the radius. */
    ghost predicate CoversArea(quadIds: seq<nat>, pos: Pos, radius: real)
      requires Placed() && ValidQuads(quadIds)
    {
      forall u: nat :: u < |units| && SqLength2D(pos, units[u].midPos) <= radius * radius ==> Covered(quadIds, u)
    }

    /** The unit is one the search is for. */
    ghost predicate Sought(f: Filter, u: nat) {
      u < |units| && f.Team(ally, units[u].allyteam) && f.Unit(u, units[u])
    }

    /** Whom each search is for: allies or enemies of its ally team, and which of them. */
    lemma SoughtIs(f: Filter, id: nat)
      requires id < |units|
      ensures
        var u, allied := units[id], ally(f.searchAllyteam, units[id].allyteam);
        var contact := f.searchAllyteam < |u.losStatus| && u.losStatus[f.searchAllyteam];
        Sought(f, id) <==>
          match f
          case Friendly(_, exclude) => allied && exclude != Some(id)
          case Enemy(_, exclude) => !allied && exclude != Some(id) && !u.neutral
          case EnemyInLos(_, exclude) => !allied && exclude != Some(id) && !u.neutral && contact
          case EnemyAircraft(_, exclude) =>
            !allied && exclude != Some(id) && !u.neutral && contact && u.canFly && !u.crashing
          case EnemyInLosValidTarget(_, isValidTarget) => !allied && !u.neutral && contact && isValidTarget(id)
    {
    }

    /**
     What is near enough: across the map by the squares of the two distances, or by the distance from the unit's
     sphere; and with checkSight, within the unit's sight too.
     */
    lemma AcceptsIs(pos: Pos, radius: real, checkSight: bool, u: Unit)
      ensures
        var dx, dy, dz := pos.x - u.midPos.x, pos.y - u.midPos.y, pos.z - u.midPos.z;
        && Measure(Flat, pos, u) == Measure(Cylinder(checkSight), pos, u) == dx * dx + dz * dz
        && (Accepts(Flat, pos, radius * radius, u) <==> dx * dx + dz * dz <= radius * radius)
        && (Accepts(Cylinder(checkSight), pos, radius * radius, u) <==>
              dx * dx + dz * dz <= radius * radius &&
              (checkSight ==> dx * dx + dz * dz <= u.losRadius * u.losRadius))
        && Measure(Sphere(checkSight), pos, u) == distance(pos, u.midPos) - u.radius
        && (Accepts(Sphere(checkSight), pos, radius, u) <==>
              distance(pos, u.midPos) <= radius + u.radius &&
              (checkSight ==> distance(pos, u.midPos) <= u.losRadius + u.radius))
        && (Euclidean() ==> distance(pos, u.midPos) * distance(pos, u.midPos) == dx * dx + dy * dy + dz * dz)
    {
      if Euclidean() {
        assert distance(pos, u.midPos) * distance(pos, u.midPos) == SqLength(pos, u.midPos);
      }
    }

    /** The result of a closest-unit search over all units of the world. */
    ghost predicate ClosestOf(f: Filter, m: Metric, pos: Pos, limit: real, result: Option<nat>) {
      match result
      case None => forall u: nat :: Sought(f, u) ==> !Accepts(m, pos, limit, units[u])
      case Some(c) =>
        && Sought(f, c) && Accepts(m, pos, limit, units[c])
        && forall u: nat :: Sought(f, u) && Accepts(m, pos, limit, units[u]) ==>
             Measure(m, pos, units[c]) <= Measure(m, pos, units[u])
    }

    /** GetEnemyUnits and GetEnemyUnitsNoLosTest: exactly the sought units in the radius, as by testing them all. */
    method FindAll(f: Filter, pos: Pos, radius: real, quadIds: seq<nat>) returns (found: seq<nat>)
      requires Valid() && ValidQuads(quadIds) && CoversArea(quadIds, pos, radius)
      modifies this`tempNum, stamps
      ensures Valid()
      ensures NoDuplicates(found)
      ensures forall u: nat :: u in found <==> Sought(f, u) && Accepts(Flat, pos, radius * radius, units[u])
    {
      var q;
      ghost var calls;
      q, calls := QueryUnits(f, AllById(pos, radius * radius, []), quadIds);
      FoundInRadius(pos, radius * radius, calls);
      found := q.found;
    }

    /** The GetClosest searches across the map: the true minimum, or None exactly if nothing qualifies. */
    method FindClosest(f: Filter, m: Metric, pos: Pos, radius: real, quadIds: seq<nat>) returns (result: Option<nat>)
      requires Valid() && !m.Sphere? && ValidQuads(quadIds) && CoversArea(quadIds, pos, radius)
      modifies this`tempNum, stamps
      ensures Valid()
      ensures ClosestOf(f, m, pos, radius * radius, result)
      ensures result.Some? ==> Sought(f, result.value) && Accepts(m, pos, radius * radius, units[result.value])
      ensures forall u: nat :: Sought(f, u) && Accepts(m, pos, radius * radius, units[u]) ==>
                result.Some? && Measure(m, pos, units[result.value]) <= Measure(m, pos, units[u])
    {
      var q;
      ghost var calls;
      q, calls := QueryUnits(f, Closest(m, pos, radius * radius, None), quadIds);
      ClosestIsMinimum(m, pos, radius * radius, calls);
      result := q.closeUnit;
    }

    /**
     GetClosestEnemyUnitNoLosTest by spheres: enlarging the area by the largest
     unit radius is enough to miss no unit whose sphere is touched.
     */
    method FindClosestSphere(
      f: Filter, checkSight: bool, pos: Pos, radius: real, maxUnitRadius: real, quadIds: seq<nat>)
      returns (result: Option<nat>)
      requires Valid() && Euclidean() && ValidQuads(quadIds)
      requires forall u :: 0 <= u < |units| ==> units[u].radius <= maxUnitRadius
      requires CoversArea(quadIds, pos, radius + maxUnitRadius)
      modifies this`tempNum, stamps
      ensures Valid()
      ensures ClosestOf(f, Sphere(checkSight), pos, radius, result)
      ensures result.Some? ==> Sought(f, result.value) && Accepts(Sphere(checkSight), pos, radius, units[result.value])
      ensures forall u: nat :: Sought(f, u) && Accepts(Sphere(checkSight), pos, radius, units[u]) ==>
                result.Some? &&
                Measure(Sphere(checkSight), pos, units[result.value]) <= Measure(Sphere(checkSight), pos, units[u])
    {
      var q;
      ghost var calls;
      q, calls := QueryUnits(f, Closest(Sphere(checkSight), pos, radius, None), quadIds);
      ClosestIsMinimum(Sphere(checkSight), pos, radius, calls);
      forall u: nat | Sought(f, u) && Accepts(Sphere(checkSight), pos, radius, units[u])
        ensures u in calls
      {
        TouchedIsCovered(checkSight, pos, radius, maxUnitRadius, quadIds, u);
      }
      result := q.closeUnit;
    }

    lemma TouchedIsCovered(
      checkSight: bool, pos: Pos, radius: real, maxUnitRadius: real, quadIds: seq<nat>, u: nat)
      requires Placed() && Euclidean() && ValidQuads(quadIds)
      requires u < |units| && units[u].radius <= maxUnitRadius
      requires CoversArea(quadIds, pos, radius + maxUnitRadius)
      requires Accepts(Sphere(checkSight), pos, radius, units[u])
      ensures Covered(quadIds, u)
    {
      TouchedIsInArea(pos, units[u].midPos, radius + maxUnitRadius);
    }

    lemma TouchedIsInArea(a: Pos, b: Pos, reach: real)
      requires Euclidean() && distance(a, b) <= reach
      ensures SqLength2D(a, b) <= reach * reach
    {
      SquareNonNegative(a.y - b.y);
      SquareMonotone(distance(a, b), reach);
    }
  }

  lemma SquareNonNegative(x: real)
    ensures x * x >= 0.0
  {
  }

  lemma SquareMonotone(x: real, y: real)
    requires 0.0 <= x <= y
    ensures x * x <= y * y
  {
  }
}
