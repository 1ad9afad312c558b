/**
 Explosion damage: what an explosion does to the objects around it, at once or
 by way of a ring of 128 per-frame lists of waiting damage, and how explosions
 set off by dying units nest inside each other.

 What the model cannot see is chosen arbitrarily: which objects a spatial query
 finds, how far away they are, which hits are deadly, what explodes then, and
 which explosions Lua code sets off when it is told of damage.
 */
module ExplosionDamage {
  import opened Sequences

  const RING_SIZE: nat := 128

  /** DIRECT_EXPLOSION_DAMAGE_SPEED_SCALE: waves this close hit in the same frame. */
  const SPEED_SCALE: nat := 4

  const NO_UNIT: int := -1

  /** No explosion: nested ones have numbers of their own. */
  const NO_CALL: int := -1

  datatype Target = UnitTarget(id: int) | FeatureTarget(id: int)

  type Distance = d: real | d >= 0.0

  /** distance: how far off each object's surface is; an explosion comes to an object once. */
  datatype Explosion = Explosion(
    owner: int, damage: real, radius: real, speed: real, edgeEffect: real, ignoreOwner: bool, weaponID: int,
    distance: Target -> Distance)
  {
    /** What the source relies on: a moving wave, and an edge effect within [0, 1]. */
    predicate Valid() { speed > 0.0 && 0.0 <= edgeEffect <= 1.0 }
  }

  datatype WaitingDamage = WaitingDamage(attackerID: int, targetID: int, damage: real, weaponID: int)

  // ---- falloff ----

  /** The share of an explosion's damage that reaches an object at the given distance. */
  function DistanceMod(radius: real, edgeEffect: real, dist: real): real
    requires 0.0 <= dist <= radius && 0.0 <= edgeEffect <= 1.0
  {
    if edgeEffect == 1.0 || dist < 1.0 then 1.0
    else
      RimWithinRadius(edgeEffect, dist);
      (radius + 0.001 - dist) / (radius + 0.001 - dist * edgeEffect)
  }

  lemma RimWithinRadius(edgeEffect: real, dist: real)
    requires 0.0 <= dist && 0.0 <= edgeEffect <= 1.0
    ensures 0.0 <= dist * edgeEffect <= dist
  {
  }

  lemma QuotientOrder(a: real, b: real, c: real, d: real)
    requires b > 0.0 && d > 0.0 && a * d <= c * b
    ensures a / b <= c / d
  {
    assert a / b * b == a && c / d * d == c;
    assert a / b * (b * d) == a * d && c / d * (b * d) == c * b;
    assert b * d > 0.0;
    NonNegativeFactor(c / d - a / b, b * d);
  }

  lemma NonNegativeFactor(x: real, y: real)
    requires y > 0.0 && x * y >= 0.0
    ensures x >= 0.0
  {
  }

  lemma ProductNonNegative(x: real, y: real)
    requires x >= 0.0 && y >= 0.0
    ensures x * y >= 0.0
  {
  }

  /** Damage is never negative or amplified, and never grows with distance. */
  lemma FalloffIsMonotone(radius: real, edgeEffect: real, near: real, far: real)
    requires 0.0 <= near <= far <= radius && 0.0 <= edgeEffect <= 1.0
    ensures 0.0 < DistanceMod(radius, edgeEffect, far) <= DistanceMod(radius, edgeEffect, near) <= 1.0
  {
    FalloffInRange(radius, edgeEffect, near);
    FalloffInRange(radius, edgeEffect, far);
    if edgeEffect != 1.0 && near >= 1.0 {
      RatioOrder(radius + 0.001, edgeEffect, near, far);
    }
  }

  lemma RatioOrder(r: real, edgeEffect: real, near: real, far: real)
    requires 0.0 <= near <= far < r && 0.0 <= edgeEffect <= 1.0
    ensures near * edgeEffect < r && far * edgeEffect < r
    ensures (r - far) / (r - far * edgeEffect) <= (r - near) / (r - near * edgeEffect)
  {
    RimWithinRadius(edgeEffect, near);
    RimWithinRadius(edgeEffect, far);
    FartherIsSmaller(r, edgeEffect, near, far);
    QuotientOrder(r - far, r - far * edgeEffect, r - near, r - near * edgeEffect);
  }

  /** What the share is, without a quotient: full up to distance 1, and falling to almost none at the rim. */
  lemma ShareIs(radius: real, edgeEffect: real, dist: real)
    requires 0.0 <= dist <= radius && 0.0 <= edgeEffect <= 1.0
    ensures dist < 1.0 || edgeEffect == 1.0 ==> DistanceMod(radius, edgeEffect, dist) == 1.0
    ensures dist >= 1.0 && edgeEffect < 1.0 ==>
              DistanceMod(radius, edgeEffect, dist) * (radius + 0.001 - dist * edgeEffect) == radius + 0.001 - dist
  {
    RimWithinRadius(edgeEffect, dist);
    if dist >= 1.0 && edgeEffect < 1.0 {
      DivideBack(radius + 0.001 - dist, radius + 0.001 - dist * edgeEffect);
    }
  }

  lemma DivideBack(x: real, y: real)
    requires y > 0.0
    ensures x / y * y == x
  {
  }

  /** From distance 1 on the share falls strictly, unless the edge effect is full. */
  lemma ShareFalls(radius: real, edgeEffect: real, near: real, far: real)
    requires 1.0 <= near < far <= radius && 0.0 <= edgeEffect < 1.0
    ensures DistanceMod(radius, edgeEffect, far) < DistanceMod(radius, edgeEffect, near)
  {
    FalloffIsMonotone(radius, edgeEffect, near, far);
    ShareIs(radius, edgeEffect, near);
    ShareIs(radius, edgeEffect, far);
    var r, m := radius + 0.001, DistanceMod(radius, edgeEffect, near);
    if DistanceMod(radius, edgeEffect, far) == m {
      SameShareSameDistance(r, edgeEffect, near, far, m);
    }
  }

  lemma SameShareSameDistance(r: real, edgeEffect: real, near: real, far: real, m: real)
    requires 0.0 <= edgeEffect < 1.0 && 1.0 <= near <= far < r && 0.0 < m <= 1.0
    requires m * (r - near * edgeEffect) == r - near && m * (r - far * edgeEffect) == r - far
    ensures near == far
  {
    assert m * (r - near * edgeEffect) - m * (r - far * edgeEffect) == (m * edgeEffect) * (far - near);
    assert (far - near) * (1.0 - m * edgeEffect) == 0.0;
    assert m * edgeEffect < 1.0 by { RimWithinRadius(edgeEffect, m); }
    if near < far {
      ProductPositive(far - near, 1.0 - m * edgeEffect);
    }
  }

  lemma ProductPositive(x: real, y: real)
    requires x > 0.0 && y > 0.0
    ensures x * y > 0.0
  {
  }

  lemma FartherIsSmaller(r: real, edgeEffect: real, near: real, far: real)
    requires 0.0 <= near <= far <= r && 0.0 <= edgeEffect <= 1.0
    ensures (r - far) * (r - near * edgeEffect) <= (r - near) * (r - far * edgeEffect)
  {
    ProductNonNegative(far - near, 1.0 - edgeEffect);
    ProductNonNegative(r, (far - near) * (1.0 - edgeEffect));
    Expand(r, far, near, edgeEffect);
    Expand(r, near, far, edgeEffect);
    Expand(far, 1.0, near, edgeEffect);
    assert r * ((far - near) * (1.0 - edgeEffect)) ==
      r * (far - near) - r * ((far - near) * edgeEffect);
    assert r * ((far - near) * edgeEffect) == r * (far * edgeEffect) - r * (near * edgeEffect);
  }

  lemma Expand(r: real, a: real, b: real, e: real)
    ensures (r - a) * (r - b * e) == r * r - a * r - r * (b * e) + a * (b * e)
  {
  }

  lemma FalloffInRange(radius: real, edgeEffect: real, dist: real)
    requires 0.0 <= dist <= radius && 0.0 <= edgeEffect <= 1.0
    ensures 0.0 < DistanceMod(radius, edgeEffect, dist) <= 1.0
  {
    RimWithinRadius(edgeEffect, dist);
    var a, b := radius + 0.001 - dist, radius + 0.001 - dist * edgeEffect;
    QuotientOrder(a, b, 1.0, 1.0);
    assert a / b > 0.0;
  }

  // ---- when waiting damage is due ----

  /** The index computation of the ring is a bit mask, which works because 128 is a power of two. */
  lemma MaskIsRemainder(frame: bv32)
    ensures frame & 127 == frame % 128
  {
  }

  /**
   The frame in which the ring delivers damage due at the given frame, when
   the lists of frame next and later have yet to be drained.
   */
  function DeliveryFrame(next: nat, due: nat): (frame: nat)
    requires next <= due
  {
    next + (due - next) % RING_SIZE
  }

  /** Two frames share a slot just if a multiple of 128 lies between them. */
  lemma SharedSlot(a: nat, b: nat)
    requires a <= b
    ensures a % RING_SIZE == b % RING_SIZE <==> (b - a) % RING_SIZE == 0
  {
    var qa, qb := a / RING_SIZE, b / RING_SIZE;
    assert a == RING_SIZE * qa + a % RING_SIZE && b == RING_SIZE * qb + b % RING_SIZE;
    var q := (b - a) / RING_SIZE;
    assert b - a == RING_SIZE * q + (b - a) % RING_SIZE;
  }

  lemma SlotsApart(a: nat, b: nat)
    requires a < b < a + RING_SIZE
    ensures a % RING_SIZE != b % RING_SIZE
  {
    SharedSlot(a, b);
  }

  /** The frame is found by the slot index alone: the first undrained frame using that slot. */
  lemma DeliveryFrameIsFirstUse(next: nat, due: nat, frame: nat)
    requires next <= due
    ensures frame == DeliveryFrame(next, due) <==>
              next <= frame < next + RING_SIZE && frame % RING_SIZE == due % RING_SIZE
  {
    var first := DeliveryFrame(next, due);
    assert (due - first) % RING_SIZE == 0;
    SharedSlot(first, due);
    if frame < first && next <= frame {
      SlotsApart(frame, first);
    } else if first < frame < next + RING_SIZE {
      SlotsApart(first, frame);
    }
  }

  /** Damage arrives when it is due exactly if that is less than 128 frames ahead of the next drain. */
  lemma OnTimeIff(next: nat, due: nat)
    requires next <= due
    ensures DeliveryFrame(next, due) <= due
    ensures DeliveryFrame(next, due) == due <==> due - next < RING_SIZE
  {
  }

  /** Delay of a deferred hit: at least one frame, because nearer waves hit at once. */
  function Delay(dist: real, speed: real): (delay: nat)
    requires speed > 0.0 && dist >= speed * SPEED_SCALE as real
    ensures delay >= 1
  {
    QuotientAtLeast(dist, speed);
    (dist / speed).Floor - (SPEED_SCALE - 1)
  }

  lemma QuotientAtLeast(dist: real, speed: real)
    requires speed > 0.0 && dist >= speed * SPEED_SCALE as real
    ensures (dist / speed).Floor >= SPEED_SCALE
  {
    assert dist / speed * speed == dist;
    assert (dist / speed - 4.0) * speed >= 0.0;
    NonNegativeFactor(dist / speed - 4.0, speed);
  }

  // ---- what happened ----

  /** Damage an explosion put on the ring: next is the first undrained frame at that time, due when the wave arrives. */
  datatype Deferral = Deferral(call: nat, next: nat, due: nat, frame: nat, wd: WaitingDamage)
  {
    ghost predicate Valid() { next <= due && frame == DeliveryFrame(next, due) }
  }

  /** Damage taken off the ring; present tells whether its target still exists. */
  datatype Delivery = Delivery(frame: nat, wd: WaitingDamage, present: bool)

  /** An explosion, the ring in some frame, or Lua code that deals damage itself. */
  datatype Cause = ByExplosion(call: nat) | ByRing(frame: nat) | ByLua

  /** A call of CUnit::DoDamage or CFeature::DoDamage. */
  datatype Hit = Hit(cause: Cause, target: Target, damage: real)

  datatype Outcome =
    | Spared                  // the owner, or out of range
    | Direct(damage: real)
    | Deferred(d: Deferral)

  /** What an explosion does to one object. */
  datatype Treatment = Treatment(target: Target, outcome: Outcome)

  /** For each explosion so far, the objects it has come to, in order. */
  type CallLog = seq<seq<Treatment>>

  function Credit(calls: CallLog, call: int, treated: seq<Treatment>): CallLog {
    if 0 <= call < |calls| && treated != [] then calls[call := calls[call] + treated] else calls
  }

  function TreatedBy(calls: CallLog, call: nat): seq<Treatment> {
    if call < |calls| then calls[call] else []
  }

  /** The damage the ring has to deliver in the given frame, in the order it was deferred. */
  ghost function DeferredTo(deferred: seq<Deferral>, frame: nat): seq<WaitingDamage> {
    if deferred == [] then []
    else
      var last := deferred[|deferred| - 1];
      DeferredTo(deferred[..|deferred| - 1], frame) + if last.frame == frame then [last.wd] else []
  }

  /** The damage delivered in the given frame, in order. */
  ghost function DeliveredIn(deliveries: seq<Delivery>, frame: nat): seq<WaitingDamage> {
    if deliveries == [] then []
    else
      var last := deliveries[|deliveries| - 1];
      DeliveredIn(deliveries[..|deliveries| - 1], frame) + if last.frame == frame then [last.wd] else []
  }

  /** What the deliveries of a frame hit. */
  ghost function RingHits(deliveries: seq<Delivery>, frame: nat): seq<(Target, real)> {
    if deliveries == [] then []
    else
      var last := deliveries[|deliveries| - 1];
      RingHits(deliveries[..|deliveries| - 1], frame) +
      if last.frame == frame && last.present then [(UnitTarget(last.wd.targetID), last.wd.damage)] else []
  }

  /** What waiting damage hits, of the units that exist. */
  ghost function ToPresent(wds: seq<WaitingDamage>, units: set<int>): seq<(Target, real)> {
    if wds == [] then []
    else
      var last := wds[|wds| - 1];
      ToPresent(wds[..|wds| - 1], units) +
      if last.targetID in units then [(UnitTarget(last.targetID), last.damage)] else []
  }

  /** All damage done for one cause, in order. */
  ghost function HitsBy(hits: seq<Hit>, cause: Cause): seq<(Target, real)> {
    if hits == [] then []
    else
      var last := hits[|hits| - 1];
      HitsBy(hits[..|hits| - 1], cause) + if last.cause == cause then [(last.target, last.damage)] else []
  }

  /** All damage one explosion put on the ring, in order. */
  ghost function DeferralsBy(deferred: seq<Deferral>, call: nat): seq<Deferral> {
    if deferred == [] then []
    else
      var last := deferred[|deferred| - 1];
      DeferralsBy(deferred[..|deferred| - 1], call) + if last.call == call then [last] else []
  }

  /** What treatments amount to in damage done at once, and in damage put on the ring. */
  ghost function DirectHits(treated: seq<Treatment>): seq<(Target, real)> {
    if treated == [] then []
    else
      var last := treated[|treated| - 1];
      DirectHits(treated[..|treated| - 1]) + if last.outcome.Direct? then [(last.target, last.outcome.damage)] else []
  }

  ghost function DeferredHits(treated: seq<Treatment>): seq<Deferral> {
    if treated == [] then []
    else
      var last := treated[|treated| - 1];
      DeferredHits(treated[..|treated| - 1]) + if last.outcome.Deferred? then [last.outcome.d] else []
  }

  lemma TreatOne(treated: seq<Treatment>, t: Treatment)
    ensures DirectHits(treated + [t]) ==
            DirectHits(treated) + if t.outcome.Direct? then [(t.target, t.outcome.damage)] else []
    ensures DeferredHits(treated + [t]) == DeferredHits(treated) + if t.outcome.Deferred? then [t.outcome.d] else []
  {
    assert (treated + [t])[..|treated|] == treated;
  }

  lemma DeliverOne(deliveries: seq<Delivery>, d: Delivery)
    ensures forall g :: DeliveredIn(deliveries + [d], g) ==
              if g == d.frame then DeliveredIn(deliveries, g) + [d.wd] else DeliveredIn(deliveries, g)
    ensures forall g :: RingHits(deliveries + [d], g) ==
              if g == d.frame && d.present then RingHits(deliveries, g) + [(UnitTarget(d.wd.targetID), d.wd.damage)]
              else RingHits(deliveries, g)
  {
    assert (deliveries + [d])[..|deliveries|] == deliveries;
  }

  lemma DeferOne(deferred: seq<Deferral>, d: Deferral)
    ensures forall g :: DeferredTo(deferred + [d], g) ==
              if g == d.frame then DeferredTo(deferred, g) + [d.wd] else DeferredTo(deferred, g)
    ensures forall c :: DeferralsBy(deferred + [d], c) ==
              if c == d.call then DeferralsBy(deferred, c) + [d] else DeferralsBy(deferred, c)
  {
    assert (deferred + [d])[..|deferred|] == deferred;
  }

  lemma HitOne(hits: seq<Hit>, h: Hit)
    ensures forall cause :: HitsBy(hits + [h], cause) ==
              if cause == h.cause then HitsBy(hits, cause) + [(h.target, h.damage)] else HitsBy(hits, cause)
  {
    assert (hits + [h])[..|hits|] == hits;
  }

  lemma PresentOne(wds: seq<WaitingDamage>, n: nat, units: set<int>)
    requires n < |wds|
    ensures ToPresent(wds[..n + 1], units) ==
            ToPresent(wds[..n], units) +
            if wds[n].targetID in units then [(UnitTarget(wds[n].targetID), wds[n].damage)] else []
  {
    assert wds[..n + 1][..n] == wds[..n];
  }

  lemma {:induction false} NothingDelivered(deliveries: seq<Delivery>, frame: nat)
    requires DeliveredIn(deliveries, frame) == []
    ensures RingHits(deliveries, frame) == []
  {
    if deliveries != [] {
      NothingDelivered(deliveries[..|deliveries| - 1], frame);
    }
  }

  // ---- the books ----

  /**
   The ring with everything ever put on it and taken off it, all damage ever done, and what each explosion
   did; next is the first frame not drained yet.
   */
  datatype Ledger = Ledger(
    ring: seq<seq<WaitingDamage>>, next: nat, deferred: seq<Deferral>, deliveries: seq<Delivery>,
    hits: seq<Hit>, calls: CallLog, luaHits: nat)

  /** Each slot holds exactly what is still to be delivered in the one undrained frame that uses it. */
  ghost predicate RingHoldsPending(l: Ledger) {
    && |l.ring| == RING_SIZE
    && (forall g: nat :: l.next <= g < l.next + RING_SIZE ==> l.ring[g % RING_SIZE] == DeferredTo(l.deferred, g))
    && (forall g: nat :: l.next + RING_SIZE <= g ==> DeferredTo(l.deferred, g) == [])
  }

  /** Past frames delivered exactly what was deferred to them; future frames nothing yet. */
  ghost predicate DeliveredSoFar(l: Ledger) {
    && (forall g: nat :: g < l.next ==> DeliveredIn(l.deliveries, g) == DeferredTo(l.deferred, g))
    && DeliveredIn(l.deliveries, l.next) <= DeferredTo(l.deferred, l.next)
    && (forall g: nat :: l.next < g ==> DeliveredIn(l.deliveries, g) == [])
  }

  /**
   The damage done and the damage put on the ring by each explosion is that of the objects it came to;
   the damage done by the ring in each frame is that of its deliveries.
   */
  ghost predicate Tallied(l: Ledger) {
    && (forall c: nat :: HitsBy(l.hits, ByExplosion(c)) == DirectHits(TreatedBy(l.calls, c)))
    && (forall c: nat :: DeferralsBy(l.deferred, c) == DeferredHits(TreatedBy(l.calls, c)))
    && (forall g: nat :: HitsBy(l.hits, ByRing(g)) == RingHits(l.deliveries, g))
    && |HitsBy(l.hits, ByLua)| == l.luaHits
  }

  ghost predicate DeferralsValid(l: Ledger) {
    forall i :: 0 <= i < |l.deferred| ==> l.deferred[i].Valid()
  }

  ghost predicate Consistent(l: Ledger) {
    RingHoldsPending(l) && DeliveredSoFar(l) && DeferralsValid(l) && Tallied(l)
  }

  ghost function EmptyBooks(): (l: Ledger)
    ensures Consistent(l)
  {
    Ledger(seq(RING_SIZE, _ => []), 0, [], [], [], [], 0)
  }

  /** The books balance in every reachable state. */
  type Books = l: Ledger | Consistent(l) ghost witness EmptyBooks()

  /** Every deferral since position from is due less than 128 frames ahead. */
  ghost predicate OnTimeSince(deferred: seq<Deferral>, from: nat) {
    forall i :: from <= i < |deferred| ==> deferred[i].due - deferred[i].next < RING_SIZE
  }

  /** What else is noted does not concern the ring. */
  lemma SameRingKeeps(l: Books, r: Ledger)
    requires r == l.(hits := r.hits, calls := r.calls, luaHits := r.luaHits)
    ensures RingHoldsPending(r) && DeliveredSoFar(r) && DeferralsValid(r)
  {
  }

  /** A new explosion has done nothing yet. */
  ghost function AfterBegin(l: Books): (r: Books)
    ensures r == l.(calls := l.calls + [[]])
  {
    var r := l.(calls := l.calls + [[]]);
    assert forall c: nat :: TreatedBy(r.calls, c) == TreatedBy(l.calls, c);
    SameRingKeeps(l, r);
    r
  }

  lemma CreditOne(calls: CallLog, call: nat, t: Treatment)
    requires call < |calls|
    ensures forall c: nat :: DirectHits(TreatedBy(Credit(calls, call, [t]), c)) ==
              DirectHits(TreatedBy(calls, c)) +
              if c == call && t.outcome.Direct? then [(t.target, t.outcome.damage)] else []
    ensures forall c: nat :: DeferredHits(TreatedBy(Credit(calls, call, [t]), c)) ==
              DeferredHits(TreatedBy(calls, c)) + if c == call && t.outcome.Deferred? then [t.outcome.d] else []
  {
    assert (calls[call] + [t])[..|calls[call]|] == calls[call];
  }

  /** An object is spared. */
  ghost function AfterSparing(l: Books, call: nat, target: Target): (r: Books)
    requires call < |l.calls|
    ensures r == l.(calls := Credit(l.calls, call, [Treatment(target, Spared)]))
  {
    var r := l.(calls := Credit(l.calls, call, [Treatment(target, Spared)]));
    CreditOne(l.calls, call, Treatment(target, Spared));
    SameRingKeeps(l, r);
    r
  }

  /** An object is damaged in the frame of the explosion. */
  ghost function AfterHit(l: Books, call: nat, target: Target, damage: real): (r: Books)
    requires call < |l.calls|
    ensures r == l.(calls := Credit(l.calls, call, [Treatment(target, Direct(damage))]),
                    hits := l.hits + [Hit(ByExplosion(call), target, damage)])
  {
    var r := l.(calls := Credit(l.calls, call, [Treatment(target, Direct(damage))]),
                hits := l.hits + [Hit(ByExplosion(call), target, damage)]);
    HitKeepsTallies(l, call, target, damage);
    SameRingKeeps(l, r);
    r
  }

  lemma HitKeepsTallies(l: Ledger, call: nat, target: Target, damage: real)
    requires call < |l.calls| && Tallied(l)
    ensures Tallied(l.(calls := Credit(l.calls, call, [Treatment(target, Direct(damage))]),
                       hits := l.hits + [Hit(ByExplosion(call), target, damage)]))
  {
    var calls := Credit(l.calls, call, [Treatment(target, Direct(damage))]);
    var hits := l.hits + [Hit(ByExplosion(call), target, damage)];
    HitOne(l.hits, Hit(ByExplosion(call), target, damage));
    forall c: nat
      ensures HitsBy(hits, ByExplosion(c)) == DirectHits(TreatedBy(calls, c))
      ensures DeferralsBy(l.deferred, c) == DeferredHits(TreatedBy(calls, c))
    {
      HitTally(l, call, Treatment(target, Direct(damage)), c);
    }
    forall g: nat
      ensures HitsBy(hits, ByRing(g)) == RingHits(l.deliveries, g)
    {
      assert HitsBy(hits, ByRing(g)) == HitsBy(l.hits, ByRing(g));
    }
    assert HitsBy(hits, ByLua) == HitsBy(l.hits, ByLua);
  }

  lemma HitTally(l: Ledger, call: nat, t: Treatment, c: nat)
    requires call < |l.calls| && t.outcome.Direct? && Tallied(l)
    ensures DirectHits(TreatedBy(Credit(l.calls, call, [t]), c)) ==
            HitsBy(l.hits, ByExplosion(c)) + if c == call then [(t.target, t.outcome.damage)] else []
    ensures DeferredHits(TreatedBy(Credit(l.calls, call, [t]), c)) == DeferralsBy(l.deferred, c)
  {
    CreditOne(l.calls, call, t);
    assert HitsBy(l.hits, ByExplosion(c)) == DirectHits(TreatedBy(l.calls, c));
    assert DeferralsBy(l.deferred, c) == DeferredHits(TreatedBy(l.calls, c));
  }

  /** An object is damaged by Lua code. */
  ghost function AfterLuaHit(l: Books, target: Target, damage: real): (r: Books)
    ensures r == l.(hits := l.hits + [Hit(ByLua, target, damage)], luaHits := l.luaHits + 1)
  {
    var r := l.(hits := l.hits + [Hit(ByLua, target, damage)], luaHits := l.luaHits + 1);
    HitOne(l.hits, Hit(ByLua, target, damage));
    SameRingKeeps(l, r);
    r
  }

  ghost predicate CanDefer(l: Ledger, d: Deferral) {
    d.Valid() && d.next == l.next && d.call < |l.calls|
  }

  /** Deferring damage appends to the one slot that stands for its delivery frame. */
  ghost function AfterDefer(l: Books, target: Target, d: Deferral): (r: Books)
    requires CanDefer(l, d)
    ensures r.next == l.next && r.deliveries == l.deliveries && r.deferred == l.deferred + [d]
    ensures r.ring == l.ring[d.due % RING_SIZE := l.ring[d.due % RING_SIZE] + [d.wd]]
    ensures r.hits == l.hits && r.calls == Credit(l.calls, d.call, [Treatment(target, Deferred(d))])
  {
    var slot := d.due % RING_SIZE;
    DeferKeepsRing(l, d);
    DeferKeepsTallies(l, target, d);
    l.(ring := l.ring[slot := l.ring[slot] + [d.wd]], deferred := l.deferred + [d],
       calls := Credit(l.calls, d.call, [Treatment(target, Deferred(d))]))
  }

  lemma DeferKeepsRing(l: Books, d: Deferral)
    requires d.Valid() && d.next == l.next
    ensures var slot := d.due % RING_SIZE;
            var l' := l.(ring := l.ring[slot := l.ring[slot] + [d.wd]], deferred := l.deferred + [d]);
            RingHoldsPending(l') && DeliveredSoFar(l') && DeferralsValid(l')
    ensures forall g :: g != d.frame ==> DeferredTo(l.deferred + [d], g) == DeferredTo(l.deferred, g)
  {
    DeferOne(l.deferred, d);
    DeliveryFrameIsFirstUse(l.next, d.due, d.frame);
    var slot := d.due % RING_SIZE;
    var l' := l.(ring := l.ring[slot := l.ring[slot] + [d.wd]], deferred := l.deferred + [d]);
    assert RingHoldsPending(l') by {
      forall g: nat | l.next <= g < l.next + RING_SIZE
        ensures l'.ring[g % RING_SIZE] == DeferredTo(l'.deferred, g)
      {
        DeliveryFrameIsFirstUse(l.next, d.due, g);
        assert g % RING_SIZE == slot <==> g == d.frame;
        assert l.ring[g % RING_SIZE] == DeferredTo(l.deferred, g);
      }
    }
    assert DeliveredSoFar(l');
  }

  lemma DeferKeepsTallies(l: Books, target: Target, d: Deferral)
    requires CanDefer(l, d)
    ensures Tallied(l.(deferred := l.deferred + [d],
                       calls := Credit(l.calls, d.call, [Treatment(target, Deferred(d))])))
  {
    DeferOne(l.deferred, d);
    CreditOne(l.calls, d.call, Treatment(target, Deferred(d)));
  }

  /** The hit that delivering waiting damage makes, if its target is present. */
  function RingHit(frame: nat, wd: WaitingDamage, present: bool): seq<Hit> {
    if present then [Hit(ByRing(frame), UnitTarget(wd.targetID), wd.damage)] else []
  }

  /** Delivering entry n of the current list, which hits its target if that is present. */
  ghost function AfterDelivery(l: Books, n: nat, present: bool): (r: Books)
    requires n < |l.ring[l.next % RING_SIZE]|
    requires DeliveredIn(l.deliveries, l.next) == l.ring[l.next % RING_SIZE][..n]
    ensures var wd := l.ring[l.next % RING_SIZE][n];
            r == l.(deliveries := l.deliveries + [Delivery(l.next, wd, present)],
                    hits := l.hits + RingHit(l.next, wd, present))
  {
    var wd := l.ring[l.next % RING_SIZE][n];
    DeliveryKeepsRing(l, l.ring[l.next % RING_SIZE], n, present);
    DeliveryKeepsTallies(l, wd, present);
    l.(deliveries := l.deliveries + [Delivery(l.next, wd, present)], hits := l.hits + RingHit(l.next, wd, present))
  }

  lemma DeliveryKeepsRing(l: Books, list: seq<WaitingDamage>, n: nat, present: bool)
    requires list == DeferredTo(l.deferred, l.next) && n < |list| && DeliveredIn(l.deliveries, l.next) == list[..n]
    ensures var deliveries := l.deliveries + [Delivery(l.next, list[n], present)];
            DeliveredSoFar(l.(deliveries := deliveries)) && DeliveredIn(deliveries, l.next) == list[..n + 1]
  {
    DeliverOne(l.deliveries, Delivery(l.next, list[n], present));
    var deliveries := l.deliveries + [Delivery(l.next, list[n], present)];
    assert DeliveredIn(deliveries, l.next) == list[..n + 1];
    forall g: nat | g != l.next
      ensures DeliveredIn(deliveries, g) == DeliveredIn(l.deliveries, g)
    {
    }
  }

  lemma DeliveryKeepsTallies(l: Books, wd: WaitingDamage, present: bool)
    ensures Tallied(l.(deliveries := l.deliveries + [Delivery(l.next, wd, present)],
                       hits := l.hits + RingHit(l.next, wd, present)))
  {
    DeliverOne(l.deliveries, Delivery(l.next, wd, present));
    if present {
      HitOne(l.hits, RingHit(l.next, wd, present)[0]);
    } else {
      assert l.hits + [] == l.hits;
    }
  }

  /** That is one delivery more in its frame, and nothing more in others. */
  lemma DeliverySteps(l: Books, n: nat, units: set<int>)
    requires n < |l.ring[l.next % RING_SIZE]|
    requires DeliveredIn(l.deliveries, l.next) == l.ring[l.next % RING_SIZE][..n]
    ensures DeliveryStep(l, AfterDelivery(l, n, l.ring[l.next % RING_SIZE][n].targetID in units), n, units)
  {
    var wd := l.ring[l.next % RING_SIZE][n];
    DeliveryKeepsRing(l, l.ring[l.next % RING_SIZE], n, wd.targetID in units);
    DeliverOne(l.deliveries, Delivery(l.next, wd, wd.targetID in units));
    assert l.ring[l.next % RING_SIZE] == DeferredTo(l.deferred, l.next);
  }

  /** Clearing the current list once it has been delivered to its end. */
  ghost function AfterDrain(l: Books): (r: Books)
    requires DeliveredIn(l.deliveries, l.next) == l.ring[l.next % RING_SIZE]
    ensures r == l.(ring := l.ring[l.next % RING_SIZE := []], next := l.next + 1)
  {
    DrainKeepsRing(l);
    l.(ring := l.ring[l.next % RING_SIZE := []], next := l.next + 1)
  }

  lemma DrainKeepsRing(l: Books)
    requires DeliveredIn(l.deliveries, l.next) == l.ring[l.next % RING_SIZE]
    ensures Consistent(l.(ring := l.ring[l.next % RING_SIZE := []], next := l.next + 1))
  {
    var l' := l.(ring := l.ring[l.next % RING_SIZE := []], next := l.next + 1);
    assert l.ring[l.next % RING_SIZE] == DeferredTo(l.deferred, l.next);
    assert RingHoldsPending(l') by {
      forall g: nat | l'.next <= g < l'.next + RING_SIZE
        ensures l'.ring[g % RING_SIZE] == DeferredTo(l.deferred, g)
      {
        if g < l.next + RING_SIZE {
          SlotsApart(l.next, g);
        } else {
          SharedSlot(l.next, g);
        }
      }
    }
    assert DeliveredSoFar(l');
    assert DeferralsValid(l') && Tallied(l');
  }

  // ---- exactly-once delivery ----

  /** The damage due in the given frame, in the order it was deferred. */
  ghost function DueIn(deferred: seq<Deferral>, frame: nat): seq<WaitingDamage> {
    if deferred == [] then []
    else
      var last := deferred[|deferred| - 1];
      DueIn(deferred[..|deferred| - 1], frame) + if last.due == frame then [last.wd] else []
  }

  lemma {:induction false} OnTimeIsDue(deferred: seq<Deferral>, frame: nat)
    requires OnTimeSince(deferred, 0)
    requires forall i :: 0 <= i < |deferred| ==> deferred[i].Valid()
    ensures DeferredTo(deferred, frame) == DueIn(deferred, frame)
  {
    if deferred != [] {
      var last := deferred[|deferred| - 1];
      OnTimeIff(last.next, last.due);
      OnTimeIsDue(deferred[..|deferred| - 1], frame);
    }
  }

  /** Which of the deliveries of a frame found their target. */
  ghost function PresentIn(deliveries: seq<Delivery>, frame: nat): seq<bool> {
    if deliveries == [] then []
    else
      var last := deliveries[|deliveries| - 1];
      PresentIn(deliveries[..|deliveries| - 1], frame) + if last.frame == frame then [last.present] else []
  }

  /** What a list of waiting damage hits, when it is known which of the targets are present. */
  ghost function HitsOf(wds: seq<WaitingDamage>, present: seq<bool>): seq<(Target, real)>
    requires |wds| == |present|
  {
    if wds == [] then []
    else
      var n := |wds| - 1;
      HitsOf(wds[..n], present[..n]) + if present[n] then [(UnitTarget(wds[n].targetID), wds[n].damage)] else []
  }

  lemma HitsOneMore(wds: seq<WaitingDamage>, present: seq<bool>, wd: WaitingDamage, p: bool)
    requires |wds| == |present|
    ensures HitsOf(wds + [wd], present + [p]) ==
            HitsOf(wds, present) + if p then [(UnitTarget(wd.targetID), wd.damage)] else []
  {
    assert (wds + [wd])[..|wds|] == wds && (present + [p])[..|wds|] == present;
  }

  lemma {:induction false} RingHitsAreDeliveries(deliveries: seq<Delivery>, frame: nat)
    ensures |DeliveredIn(deliveries, frame)| == |PresentIn(deliveries, frame)|
    ensures RingHits(deliveries, frame) == HitsOf(DeliveredIn(deliveries, frame), PresentIn(deliveries, frame))
  {
    if deliveries != [] {
      var sooner, last := deliveries[..|deliveries| - 1], deliveries[|deliveries| - 1];
      RingHitsAreDeliveries(sooner, frame);
      if last.frame == frame {
        HitsOneMore(DeliveredIn(sooner, frame), PresentIn(sooner, frame), last.wd, last.present);
      } else {
        assert DeliveredIn(deliveries, frame) == DeliveredIn(sooner, frame);
        assert PresentIn(deliveries, frame) == PresentIn(sooner, frame);
        assert RingHits(deliveries, frame) == RingHits(sooner, frame);
      }
    }
  }

  /**
   Exactly-once delivery: when no wave takes longer than the ring is long, each frame drained so far took off
   the ring exactly the damage due in it, in order, and the ring damaged exactly the targets then present.
   */
  lemma DeliveredWhenDue(l: Books, frame: nat) returns (present: seq<bool>)
    requires OnTimeSince(l.deferred, 0) && frame < l.next
    ensures DeliveredIn(l.deliveries, frame) == DueIn(l.deferred, frame)
    ensures present == PresentIn(l.deliveries, frame) && |present| == |DueIn(l.deferred, frame)|
    ensures HitsBy(l.hits, ByRing(frame)) == HitsOf(DueIn(l.deferred, frame), present)
  {
    present := PresentIn(l.deliveries, frame);
    OnTimeIsDue(l.deferred, frame);
    RingHitsAreDeliveries(l.deliveries, frame);
  }

  // ---- one object ----

  /** An explosion under way: its number, its reach, and when it happens. */
  datatype Blast = Blast(call: nat, e: Explosion, radius: real, frameNum: nat, next: nat)
  {
    ghost predicate Valid() {
      e.Valid() && radius >= 0.0 && frameNum <= next <= frameNum + 1
    }

    function DistanceTo(target: Target): real {
      if radius == 0.0 then 0.0 else e.distance(target)
    }
  }

  /** What DoExplosionDamage does to a unit. */
  ghost function UnitOutcome(b: Blast, unit: int): (o: Outcome)
    requires b.Valid()
    ensures o.Deferred? ==> o.d.Valid() && o.d.call == b.call && o.d.next == b.next && o.d.due > b.frameNum
  {
    var dist := b.DistanceTo(UnitTarget(unit));
    if (b.e.ignoreOwner && unit == b.e.owner) || dist > b.radius then Spared
    else
      var dmg := b.e.damage * DistanceMod(b.radius, b.e.edgeEffect, dist);
      if dist < b.e.speed * SPEED_SCALE as real then Direct(dmg)
      else
        var due := b.frameNum + Delay(dist, b.e.speed);
        Deferred(Deferral(b.call, b.next, due, DeliveryFrame(b.next, due),
                          WaitingDamage(b.e.owner, unit, dmg, b.e.weaponID)))
  }

  /** What DoExplosionDamage does to a feature. */
  ghost function FeatureOutcome(b: Blast, feature: int): Outcome
    requires b.Valid()
  {
    var dist := b.DistanceTo(FeatureTarget(feature));
    if dist > b.radius then Spared else Direct(b.e.damage * DistanceMod(b.radius, b.e.edgeEffect, dist))
  }

  /** What reaches an object: the explosion's damage less what it loses with distance. */
  ghost predicate Attenuated(e: Explosion, radius: real, dist: real, dmg: real) {
    if dist >= 1.0 && e.edgeEffect < 1.0
    then dmg * (radius + 0.001 - dist * e.edgeEffect) == e.damage * (radius + 0.001 - dist)
    else dmg == e.damage
  }

  lemma AttenuatedByShare(e: Explosion, radius: real, dist: real)
    requires e.Valid() && 0.0 <= dist <= radius
    ensures Attenuated(e, radius, dist, e.damage * DistanceMod(radius, e.edgeEffect, dist))
  {
    ShareIs(radius, e.edgeEffect, dist);
    var m, y := DistanceMod(radius, e.edgeEffect, dist), radius + 0.001 - dist * e.edgeEffect;
    assert (e.damage * m) * y == e.damage * (m * y);
  }

  lemma DelayBounds(dist: real, speed: real, n: int)
    requires speed > 0.0 && dist >= speed * SPEED_SCALE as real && n == Delay(dist, speed) + 3
    ensures n as real * speed <= dist < n as real * speed + speed
  {
    var rest := dist / speed - n as real;
    assert 0.0 <= rest < 1.0;
    DivideBack(dist, speed);
    assert n as real + rest == dist / speed;
    FloorBounds(n as real, rest, speed, dist);
  }

  lemma FloorBounds(n: real, rest: real, speed: real, dist: real)
    requires speed > 0.0 && 0.0 <= rest < 1.0 && dist == (n + rest) * speed
    ensures n * speed <= dist < n * speed + speed
  {
    ProductNonNegative(rest, speed);
    ProductPositive(1.0 - rest, speed);
  }

  /**
   What an explosion does to a unit, by distance: nothing to its owner, if it is to spare that, nor out of range;
   damage at once within four frames of the wave; else later damage.
   */
  lemma UnitOutcomeWhen(b: Blast, unit: int)
    requires b.Valid()
    ensures
      var e, o := b.e, UnitOutcome(b, unit);
      var dist: real := if b.radius == 0.0 then 0.0 else e.distance(UnitTarget(unit));
      && (o.Spared? <==> (e.ignoreOwner && unit == e.owner) || dist > b.radius)
      && (o.Direct? <==> !o.Spared? && dist < 4.0 * e.speed)
      && (o.Deferred? <==> !o.Spared? && dist >= 4.0 * e.speed)
  {
  }

  /** How much damage that is: all of it up to distance 1 or with full edge effect, less beyond. */
  lemma UnitDamageIs(b: Blast, unit: int)
    requires b.Valid() && !UnitOutcome(b, unit).Spared?
    ensures
      var e, o := b.e, UnitOutcome(b, unit);
      var dist: real := if b.radius == 0.0 then 0.0 else e.distance(UnitTarget(unit));
      var dmg := if o.Direct? then o.damage else o.d.wd.damage;
      if dist >= 1.0 && e.edgeEffect < 1.0
      then dmg * (b.radius + 0.001 - dist * e.edgeEffect) == e.damage * (b.radius + 0.001 - dist)
      else dmg == e.damage
  {
    AttenuatedByShare(b.e, b.radius, if b.radius == 0.0 then 0.0 else b.e.distance(UnitTarget(unit)));
  }

  /** Later damage is for this unit, on behalf of the owner, and due three frames before the wave arrives. */
  lemma UnitDeferralIs(b: Blast, unit: int)
    requires b.Valid() && UnitOutcome(b, unit).Deferred?
    ensures
      var e, d := b.e, UnitOutcome(b, unit).d;
      var dist: real := if b.radius == 0.0 then 0.0 else e.distance(UnitTarget(unit));
      && d.wd.targetID == unit && d.wd.attackerID == e.owner && d.wd.weaponID == e.weaponID
      && d.call == b.call && d.next == b.next && d.due > b.frameNum
      && var way := (d.due - b.frameNum + 3) as real * e.speed; way <= dist < way + e.speed
  {
    var dist: real := if b.radius == 0.0 then 0.0 else b.e.distance(UnitTarget(unit));
    DelayBounds(dist, b.e.speed, UnitOutcome(b, unit).d.due - b.frameNum + 3);
  }

  /** What an explosion does to a feature: damage at once, if it is in range. */
  lemma FeatureOutcomeIs(b: Blast, feature: int)
    requires b.Valid()
    ensures
      var e, o := b.e, FeatureOutcome(b, feature);
      var dist: real := if b.radius == 0.0 then 0.0 else e.distance(FeatureTarget(feature));
      && (o.Spared? <==> dist > b.radius)
      && (o.Direct? <==> dist <= b.radius)
      && (o.Direct? && dist >= 1.0 && e.edgeEffect < 1.0 ==>
            o.damage * (b.radius + 0.001 - dist * e.edgeEffect) == e.damage * (b.radius + 0.001 - dist))
      && (o.Direct? && (dist < 1.0 || e.edgeEffect == 1.0) ==> o.damage == e.damage)
  {
    var dist: real := if b.radius == 0.0 then 0.0 else b.e.distance(FeatureTarget(feature));
    if dist <= b.radius {
      AttenuatedByShare(b.e, b.radius, dist);
    }
  }

  /** Of two units hit, the farther one is hit less, unless the edge effect is full or both are close. */
  lemma FartherIsHitLess(b: Blast, near: int, far: int)
    requires b.Valid() && b.e.damage > 0.0 && b.e.edgeEffect < 1.0
    requires UnitOutcome(b, near).Direct? && UnitOutcome(b, far).Direct?
    requires 1.0 <= b.e.distance(UnitTarget(near)) < b.e.distance(UnitTarget(far)) && b.radius > 0.0
    ensures UnitOutcome(b, far).damage < UnitOutcome(b, near).damage
  {
    var d, d' := b.e.distance(UnitTarget(near)), b.e.distance(UnitTarget(far));
    ShareFalls(b.radius, b.e.edgeEffect, d, d');
    var m, m' := DistanceMod(b.radius, b.e.edgeEffect, d), DistanceMod(b.radius, b.e.edgeEffect, d');
    assert b.e.damage * m - b.e.damage * m' == b.e.damage * (m - m') > 0.0;
  }

  /** A deferred hit arrives when its wave does just if the wave is less than 128 frames away from the next drain. */
  lemma OnTimeByDistance(b: Blast, unit: int)
    requires b.Valid() && UnitOutcome(b, unit).Deferred?
    ensures var d, dist := UnitOutcome(b, unit).d, b.DistanceTo(UnitTarget(unit));
            && dist >= b.e.speed * SPEED_SCALE as real
            && d.frame <= d.due == b.frameNum + Delay(dist, b.e.speed)
            && (d.frame == d.due <==> Delay(dist, b.e.speed) < RING_SIZE + (b.next - b.frameNum))
  {
    OnTimeIff(b.next, UnitOutcome(b, unit).d.due);
  }

  /** A slow wave: at distance 200 and speed 1 damage due in frame 197 is delivered in frame 69. */
  lemma SlowWaveArrivesEarly(e: Explosion, unit: int)
    requires e.speed == 1.0 && e.edgeEffect == 0.0 && !e.ignoreOwner
    requires forall t :: e.distance(t) == 200.0
    ensures var b := Blast(0, e, 1000.0, 0, 0);
            b.Valid() && UnitOutcome(b, unit).Deferred? &&
            UnitOutcome(b, unit).d.due == 197 && UnitOutcome(b, unit).d.frame == 69
  {
    var b := Blast(0, e, 1000.0, 0, 0);
    assert b.DistanceTo(UnitTarget(unit)) == 200.0;
    assert (200.0 / 1.0).Floor == 200;
  }

  ghost function Units(b: Blast, ids: seq<int>): seq<Treatment>
    requires b.Valid()
  {
    if ids == [] then []
    else
      var id := ids[|ids| - 1];
      Units(b, ids[..|ids| - 1]) + [Treatment(UnitTarget(id), UnitOutcome(b, id))]
  }

  ghost function Features(b: Blast, ids: seq<int>): seq<Treatment>
    requires b.Valid()
  {
    if ids == [] then []
    else
      var id := ids[|ids| - 1];
      Features(b, ids[..|ids| - 1]) + [Treatment(FeatureTarget(id), FeatureOutcome(b, id))]
  }

  /** One treatment per object, in order, each with the outcome its distance calls for. */
  lemma {:induction false} UnitsOneEach(b: Blast, ids: seq<int>)
    requires b.Valid()
    ensures |Units(b, ids)| == |ids|
    ensures forall i :: 0 <= i < |ids| ==> Units(b, ids)[i] == Treatment(UnitTarget(ids[i]), UnitOutcome(b, ids[i]))
  {
    if ids != [] {
      UnitsOneEach(b, ids[..|ids| - 1]);
    }
  }

  lemma {:induction false} FeaturesOneEach(b: Blast, ids: seq<int>)
    requires b.Valid()
    ensures |Features(b, ids)| == |ids|
    ensures forall i :: 0 <= i < |ids| ==>
              Features(b, ids)[i] == Treatment(FeatureTarget(ids[i]), FeatureOutcome(b, ids[i]))
  {
    if ids != [] {
      FeaturesOneEach(b, ids[..|ids| - 1]);
    }
  }

  lemma {:induction false} DeferredHitsAre(treated: seq<Treatment>)
    ensures forall d :: d in DeferredHits(treated) <==> exists t :: t in treated && t.outcome == Deferred(d)
  {
    if treated != [] {
      var sooner, last := treated[..|treated| - 1], treated[|treated| - 1];
      assert treated == sooner + [last];
      DeferredHitsAre(sooner);
    }
  }

  lemma {:induction false} DirectHitsAre(treated: seq<Treatment>)
    ensures forall h :: h in DirectHits(treated) <==>
              exists t :: t in treated && t.target == h.0 && t.outcome == Direct(h.1)
  {
    if treated != [] {
      var sooner, last := treated[..|treated| - 1], treated[|treated| - 1];
      assert treated == sooner + [last];
      DirectHitsAre(sooner);
    }
  }

  /** Damage an explosion put on the ring: for a unit it came to, in range, on behalf of its owner. */
  ghost predicate ForOneOf(e: Explosion, radius: real, units: seq<int>, d: Deferral) {
    && d.wd.targetID in units && d.wd.attackerID == e.owner && d.wd.weaponID == e.weaponID
    && e.distance(UnitTarget(d.wd.targetID)) <= radius
    && Attenuated(e, radius, e.distance(UnitTarget(d.wd.targetID)), d.wd.damage)
  }

  /** Damage an explosion did at once: to an object it came to, in range. */
  ghost predicate ToOneOf(e: Explosion, radius: real, units: seq<int>, features: seq<int>, target: Target, dmg: real) {
    && (match target case UnitTarget(id) => id in units case FeatureTarget(id) => id in features)
    && e.distance(target) <= radius && Attenuated(e, radius, e.distance(target), dmg)
  }

  lemma UnitTreatmentIs(b: Blast, units: seq<int>, features: seq<int>, unit: int)
    requires b.Valid() && b.radius > 0.0 && unit in units
    ensures var o := UnitOutcome(b, unit);
            && (o.Deferred? ==> ForOneOf(b.e, b.radius, units, o.d))
            && (o.Direct? ==> ToOneOf(b.e, b.radius, units, features, UnitTarget(unit), o.damage))
  {
    UnitOutcomeWhen(b, unit);
    if !UnitOutcome(b, unit).Spared? {
      UnitDamageIs(b, unit);
      if UnitOutcome(b, unit).Deferred? {
        UnitDeferralIs(b, unit);
      }
    }
  }

  lemma FeatureTreatmentIs(b: Blast, units: seq<int>, features: seq<int>, feature: int)
    requires b.Valid() && b.radius > 0.0 && feature in features
    ensures var o := FeatureOutcome(b, feature);
            && !o.Deferred?
            && (o.Direct? ==> ToOneOf(b.e, b.radius, units, features, FeatureTarget(feature), o.damage))
  {
    FeatureOutcomeIs(b, feature);
  }

  lemma TreatmentIs(b: Blast, units: seq<int>, features: seq<int>, t: Treatment)
    requires b.Valid() && b.radius > 0.0 && t in Units(b, units) + Features(b, features)
    ensures t.outcome.Deferred? ==> ForOneOf(b.e, b.radius, units, t.outcome.d)
    ensures t.outcome.Direct? ==> ToOneOf(b.e, b.radius, units, features, t.target, t.outcome.damage)
  {
    UnitsOneEach(b, units);
    FeaturesOneEach(b, features);
    var treated := Units(b, units) + Features(b, features);
    var i :| 0 <= i < |treated| && treated[i] == t;
    if i < |units| {
      UnitTreatmentIs(b, units, features, units[i]);
    } else {
      FeatureTreatmentIs(b, units, features, features[i - |units|]);
    }
  }

  /** All that an explosion did and put on the ring was for objects it came to. */
  lemma TreatmentsAre(b: Blast, units: seq<int>, features: seq<int>)
    requires b.Valid() && b.radius > 0.0
    ensures var treated := Units(b, units) + Features(b, features);
            && (forall d :: d in DeferredHits(treated) ==> ForOneOf(b.e, b.radius, units, d))
            && (forall h :: h in DirectHits(treated) ==> ToOneOf(b.e, b.radius, units, features, h.0, h.1))
  {
    var treated := Units(b, units) + Features(b, features);
    DeferredHitsAre(treated);
    DirectHitsAre(treated);
    forall d | d in DeferredHits(treated)
      ensures ForOneOf(b.e, b.radius, units, d)
    {
      var t :| t in treated && t.outcome == Deferred(d);
      TreatmentIs(b, units, features, t);
    }
    forall h | h in DirectHits(treated)
      ensures ToOneOf(b.e, b.radius, units, features, h.0, h.1)
    {
      var t :| t in treated && t.target == h.0 && t.outcome == Direct(h.1);
      TreatmentIs(b, units, features, t);
    }
  }

  // ---- what an explosion may change ----

  /** The state that damage and explosions work on. */
  datatype Snapshot = Snapshot(
    frameNum: nat, drained: bool, units: set<int>, unitCache: seq<int>, featureCache: seq<int>,
    alive: set<int>, luaActions: nat, books: Ledger)

  /**
   What damage and explosions leave as it was, and what they may only add to.
   Among the explosions already under way, only number call comes to new
   objects, and treats them as told.
   */
  ghost predicate Effect(before: Snapshot, after: Snapshot, call: int, treated: seq<Treatment>) {
    && after.unitCache == before.unitCache && after.featureCache == before.featureCache
    && after.books.deliveries == before.books.deliveries
    && Growth(before, after, call, treated)
  }

  ghost predicate Growth(before: Snapshot, after: Snapshot, call: int, treated: seq<Treatment>) {
    && after.frameNum == before.frameNum && after.drained == before.drained && after.units == before.units
    && after.alive <= before.alive && after.luaActions <= before.luaActions && LuaBudget(after) <= LuaBudget(before)
    && before.books.hits <= after.books.hits
    && |before.books.calls| <= |after.books.calls|
    && CallsKept(before.books.calls, after.books.calls, call, treated)
    && after.books.next == before.books.next
    && before.books.deferred <= after.books.deferred
    // the list of this frame does not grow unless some wave is too slow
    && ListKept(before.books.deferred, after.books.deferred, before.frameNum)
  }

  ghost predicate CallsKept(before: CallLog, after: CallLog, call: int, treated: seq<Treatment>)
    requires |before| <= |after|
  {
    forall c :: 0 <= c < |before| ==> after[c] == before[c] + if c == call then treated else []
  }

  /** What Lua code has hit itself and what it may still do: of all hits, only those count against the latter. */
  ghost function LuaBudget(s: Snapshot): nat {
    s.books.luaHits + s.luaActions
  }

  ghost predicate ListKept(before: seq<Deferral>, after: seq<Deferral>, frame: nat) {
    OnTimeSince(after, |before|) ==> DeferredTo(after, frame) == DeferredTo(before, frame)
  }

  lemma DeferKeepsList(l: Books, d: Deferral, frame: nat)
    requires d.Valid() && frame < d.due
    ensures ListKept(l.deferred, l.deferred + [d], frame)
  {
    DeferOne(l.deferred, d);
    if OnTimeSince(l.deferred + [d], |l.deferred|) {
      assert (l.deferred + [d])[|l.deferred|] == d;
      OnTimeIff(d.next, d.due);
    }
  }

  lemma ListKeptTwice(a: seq<Deferral>, b: seq<Deferral>, c: seq<Deferral>, frame: nat)
    requires a <= b <= c && ListKept(a, b, frame) && ListKept(b, c, frame)
    ensures ListKept(a, c, frame)
  {
    if OnTimeSince(c, |a|) {
      assert forall i :: |a| <= i < |b| ==> b[i] == c[i];
      assert OnTimeSince(b, |a|);
    }
  }

  lemma CallsKeptTwice(
    a: CallLog, b: CallLog, c: CallLog, call: int, t1: seq<Treatment>, t2: seq<Treatment>)
    requires |a| <= |b| <= |c| && CallsKept(a, b, call, t1) && CallsKept(b, c, call, t2)
    ensures CallsKept(a, c, call, t1 + t2)
  {
    forall k | 0 <= k < |a|
      ensures c[k] == a[k] + if k == call then t1 + t2 else []
    {
      assert c[k] == b[k] + if k == call then t2 else [];
      assert b[k] == a[k] + if k == call then t1 else [];
    }
  }

  lemma StackedEffects(s0: Snapshot, s1: Snapshot, s2: Snapshot, call: int, t1: seq<Treatment>, t2: seq<Treatment>)
    requires Growth(s0, s1, call, t1) && Growth(s1, s2, call, t2)
    ensures Growth(s0, s2, call, t1 + t2)
  {
    CallsKeptTwice(s0.books.calls, s1.books.calls, s2.books.calls, call, t1, t2);
    ListKeptTwice(s0.books.deferred, s1.books.deferred, s2.books.deferred, s0.frameNum);
  }

  lemma EffectsAddUp(s0: Snapshot, s1: Snapshot, s2: Snapshot, call: int, t1: seq<Treatment>, t2: seq<Treatment>)
    requires Effect(s0, s1, call, t1) && Effect(s1, s2, call, t2)
    ensures Effect(s0, s2, call, t1 + t2)
  {
    StackedEffects(s0, s1, s2, call, t1, t2);
  }

  /** What comes after an effect, and treats nothing more for the same explosions. */
  lemma EffectThenNothing(s0: Snapshot, s1: Snapshot, s2: Snapshot, call: int, treated: seq<Treatment>)
    requires Effect(s0, s1, call, treated) && Effect(s1, s2, NO_CALL, [])
    ensures Effect(s0, s2, call, treated)
  {
    assert CallsKept(s1.books.calls, s2.books.calls, call, []);
    EffectsAddUp(s0, s1, s2, call, treated, []);
    assert treated + [] == treated;
  }

  /** The next of the planned treatments. */
  lemma PlannedOneMore(s0: Snapshot, s1: Snapshot, s2: Snapshot, call: int, plan: seq<Treatment>, k: nat)
    requires k < |plan| && Effect(s0, s1, call, plan[..k]) && Effect(s1, s2, call, [plan[k]])
    ensures Effect(s0, s2, call, plan[..k + 1])
  {
    assert plan[..k + 1] == plan[..k] + [plan[k]];
    EffectsAddUp(s0, s1, s2, call, plan[..k], [plan[k]]);
  }

  lemma HitHasEffect(s: Snapshot, call: nat, target: Target, damage: real)
    requires Consistent(s.books) && call < |s.books.calls|
    ensures Effect(s, s.(books := AfterHit(s.books, call, target, damage)), call, [Treatment(target, Direct(damage))])
  {
  }

  /** A hit by Lua code is one of the things it may still do. */
  lemma LuaHitHasEffect(s: Snapshot, target: Target, damage: real)
    requires Consistent(s.books) && s.luaActions > 0
    ensures Effect(s, s.(luaActions := s.luaActions - 1, books := AfterLuaHit(s.books, target, damage)), NO_CALL, [])
  {
  }

  /** r is l with one hit noted, whoever it is credited to. */
  ghost predicate Noted(l: Ledger, r: Ledger, hit: Hit) {
    && r.hits == l.hits + [hit] && |r.calls| == |l.calls|
    && r.ring == l.ring && r.next == l.next && r.deferred == l.deferred
  }

  ghost predicate OtherFramesKept(before: seq<Delivery>, after: seq<Delivery>, frame: nat) {
    && (forall g :: g != frame ==> DeliveredIn(after, g) == DeliveredIn(before, g))
    && (forall g :: g != frame ==> RingHits(after, g) == RingHits(before, g))
  }

  /** Going from l to r delivered entry n of the current list, and hit its target if it is one of units. */
  ghost predicate DeliveryStep(l: Ledger, r: Ledger, n: nat, units: set<int>) {
    var list := DeferredTo(r.deferred, l.next);
    && r.next == l.next && n < |list|
    && DeliveredIn(r.deliveries, l.next) == list[..n + 1]
    && RingHits(r.deliveries, l.next) ==
       RingHits(l.deliveries, l.next) +
       (if list[n].targetID in units then [(UnitTarget(list[n].targetID), list[n].damage)] else [])
    && OtherFramesKept(l.deliveries, r.deliveries, l.next)
  }

  /** It stays so if more is deferred, and nothing more delivered. */
  lemma DeliveryStepStays(l: Ledger, m: Ledger, r: Ledger, n: nat, units: set<int>)
    requires DeliveryStep(l, m, n, units)
    requires r.next == m.next && r.deliveries == m.deliveries && m.deferred <= r.deferred
    ensures DeliveryStep(l, r, n, units)
  {
    DeferralsOnlyAdd(m.deferred, r.deferred, l.next);
    var before, after := DeferredTo(m.deferred, l.next), DeferredTo(r.deferred, l.next);
    assert before[..n + 1] == after[..n + 1];
  }

  /** Going from l to r delivered the first n entries of the current list. */
  ghost predicate DrainedTo(l: Ledger, r: Ledger, n: nat, units: set<int>) {
    var list := DeferredTo(r.deferred, l.next);
    && r.next == l.next && n <= |list|
    && DeliveredIn(r.deliveries, l.next) == list[..n]
    && RingHits(r.deliveries, l.next) == ToPresent(list[..n], units)
    && OtherFramesKept(l.deliveries, r.deliveries, l.next)
  }

  lemma OtherFramesKeptTwice(a: seq<Delivery>, b: seq<Delivery>, c: seq<Delivery>, frame: nat)
    requires OtherFramesKept(a, b, frame) && OtherFramesKept(b, c, frame)
    ensures OtherFramesKept(a, c, frame)
  {
    forall g: nat | g != frame
      ensures DeliveredIn(c, g) == DeliveredIn(a, g) && RingHits(c, g) == RingHits(a, g)
    {
      assert DeliveredIn(c, g) == DeliveredIn(b, g) && RingHits(c, g) == RingHits(b, g);
    }
  }

  lemma PresentOneMore(before: seq<WaitingDamage>, list: seq<WaitingDamage>, n: nat, units: set<int>)
    requires before <= list && n <= |before| && n < |list|
    ensures ToPresent(list[..n + 1], units) ==
            ToPresent(before[..n], units) +
            if list[n].targetID in units then [(UnitTarget(list[n].targetID), list[n].damage)] else []
  {
    assert before[..n] == list[..n];
    PresentOne(list, n, units);
  }

  lemma DrainedOneMore(l: Ledger, m: Ledger, r: Ledger, n: nat, units: set<int>)
    requires DrainedTo(l, m, n, units) && DeliveryStep(m, r, n, units) && m.deferred <= r.deferred
    ensures DrainedTo(l, r, n + 1, units)
  {
    DeferralsOnlyAdd(m.deferred, r.deferred, l.next);
    PresentOneMore(DeferredTo(m.deferred, l.next), DeferredTo(r.deferred, l.next), n, units);
    OtherFramesKeptTwice(l.deliveries, m.deliveries, r.deliveries, l.next);
  }

  /**
   What one update does: everything deferred to the frame was delivered in order, and hit the targets that
   exist, each once; nothing else was delivered or hit by the ring; and unless some wave is too slow, nothing
   was added to the frame's list meanwhile.
   */
  ghost predicate DrainedFrame(before: Ledger, after: Ledger, frame: nat, units: set<int>) {
    && before.deferred <= after.deferred
    && DeliveredIn(after.deliveries, frame) == DeferredTo(after.deferred, frame)
    && HitsBy(after.hits, ByRing(frame)) == ToPresent(DeferredTo(after.deferred, frame), units)
    && (forall g :: g != frame ==> DeliveredIn(after.deliveries, g) == DeliveredIn(before.deliveries, g))
    && (forall g :: g != frame ==> HitsBy(after.hits, ByRing(g)) == HitsBy(before.hits, ByRing(g)))
    && ListKept(before.deferred, after.deferred, frame)
  }

  lemma FrameIsDrained(before: Ledger, listed: Ledger, after: Ledger, units: set<int>)
    requires DrainedTo(before, listed, |DeferredTo(listed.deferred, before.next)|, units)
    requires before.deferred <= listed.deferred && ListKept(before.deferred, listed.deferred, before.next)
    requires after.deferred == listed.deferred && after.deliveries == listed.deliveries && after.hits == listed.hits
    requires Tallied(before) && Tallied(after)
    ensures DrainedFrame(before, after, before.next, units)
  {
    var list := DeferredTo(listed.deferred, before.next);
    assert list[..|list|] == list;
    forall g: nat | g != before.next
      ensures HitsBy(after.hits, ByRing(g)) == HitsBy(before.hits, ByRing(g))
    {
      assert RingHits(listed.deliveries, g) == RingHits(before.deliveries, g);
    }
  }

  /** An explosion that has come to its end: none before it was touched, and its damage is that of its treatments. */
  lemma CallDone(start: Snapshot, begun: Snapshot, end: Snapshot, call: nat, treated: seq<Treatment>)
    requires call == |start.books.calls|
    requires begun == start.(books := start.books.(calls := start.books.calls + [[]]))
    requires Effect(begun, end, call, treated) && Tallied(end.books)
    ensures Effect(start, end, NO_CALL, [])
    ensures HitsBy(end.books.hits, ByExplosion(call)) == DirectHits(treated)
    ensures DeferralsBy(end.books.deferred, call) == DeferredHits(treated)
  {
    var before, after := begun.books.calls, end.books.calls;
    assert after[call] == before[call] + treated;
    assert TreatedBy(after, call) == [] + treated == treated;
    forall c | 0 <= c < |start.books.calls|
      ensures after[c] == start.books.calls[c] + []
    {
      assert after[c] == before[c] + [];
    }
  }

  /** What DoExplosionDamage does to an object. */
  ghost function OutcomeOf(b: Blast, target: Target): Outcome
    requires b.Valid()
  {
    match target
    case UnitTarget(id) => UnitOutcome(b, id)
    case FeatureTarget(id) => FeatureOutcome(b, id)
  }

  /** An impact does its full damage at once. */
  lemma ImpactIs(b: Blast, target: Target)
    requires b.Valid() && b.radius == 0.0
    ensures OutcomeOf(b, target) ==
            if b.e.ignoreOwner && target == UnitTarget(b.e.owner) then Spared else Direct(b.e.damage)
    ensures DirectHits([Treatment(target, OutcomeOf(b, target))]) ==
            if b.e.ignoreOwner && target == UnitTarget(b.e.owner) then [] else [(target, b.e.damage)]
    ensures DeferredHits([Treatment(target, OutcomeOf(b, target))]) == []
  {
    assert [Treatment(target, OutcomeOf(b, target))][..0] == [];
  }

  /** The damage area of an explosion is never below one elmo. */
  function AreaOf(e: Explosion): (area: real)
    ensures area >= 1.0 && area >= e.radius && (area == 1.0 || area == e.radius)
  {
    if e.radius < 1.0 then 1.0 else e.radius
  }

  // ---- the helper ----

  class GameHelper {
    const waitingDamages: array<seq<WaitingDamage>>
    var frameNum: nat
    /** Whether Update has run in frame frameNum. */
    var drained: bool
    /** The units that exist, and those that have not died yet. */
    var units: set<int>
    var alive: set<int>
    /** How often Lua code still explodes, damages or kills something in this frame; it ends, or no frame would. */
    var luaActions: nat
    /** The static vectors shared by all nested explosions. */
    var unitCache: seq<int>
    var featureCache: seq<int>
    /** Trace of the calls of CUnit::DoDamage and CFeature::DoDamage, and the number of explosions so far. */
    var damaged: seq<Hit>
    var explosions: nat
    ghost var books: Books

    ghost predicate Valid()
      reads this, waitingDamages
    {
      && waitingDamages[..] == books.ring
      && books.next == (if drained then frameNum + 1 else frameNum)
      && damaged == books.hits && explosions == |books.calls|
    }

    ghost function Snap(): Snapshot
      reads this
    {
      Snapshot(frameNum, drained, units, unitCache, featureCache, alive, luaActions, books)
    }

    /** An explosion that happens now. */
    ghost function Now(call: nat, e: Explosion, radius: real): Blast
      reads this
    {
      Blast(call, e, radius, frameNum, books.next)
    }

    /** No explosion is under way and no list is being drained. */
    ghost predicate Idle()
      reads this, waitingDamages
    {
      Valid() && unitCache == [] && featureCache == [] && DeliveredIn(books.deliveries, books.next) == []
    }

    constructor (units: set<int>, luaActions: nat)
      ensures Idle() && fresh(waitingDamages)
      ensures frameNum == 0 && !drained && alive == units == this.units
      ensures books == EmptyBooks() && damaged == []
    {
      waitingDamages := new seq<WaitingDamage>[RING_SIZE](i => []);
      frameNum, drained := 0, false;
      this.units, alive, this.luaActions := units, units, luaActions;
      unitCache, featureCache := [], [];
      damaged, explosions, books := [], 0, EmptyBooks();
      new;
      assert waitingDamages[..] == books.ring;
    }

    /** The simulation moves on to the next frame once this one's list is drained; units come and go. */
    method NextFrame(created: set<int>, deleted: set<int>, luaActions: nat)
      requires Idle() && drained
      modifies this`frameNum, this`drained, this`units, this`alive, this`luaActions
      ensures Idle() && !drained && frameNum == old(frameNum) + 1
      ensures units == old(units) - deleted + created && alive == old(alive) - deleted + created
    {
      frameNum, drained := frameNum + 1, false;
      units, alive := units - deleted + created, alive - deleted + created;
      this.luaActions := luaActions;
    }

    /** Lua code is told of something, and may act. */
    method LuaEvent()
      requires Valid()
      modifies this, waitingDamages
      ensures Valid() && Effect(old(Snap()), Snap(), NO_CALL, [])
      ensures alive == old(alive) && luaActions == old(luaActions) ==> books == old(books)
      decreases alive, luaActions, 2
    {
      ghost var start := Snap();
      var more: bool := *;
      while luaActions > 0 && more
        invariant Valid() && Effect(start, Snap(), NO_CALL, [])
        invariant alive == start.alive && luaActions == start.luaActions ==> books == start.books
        decreases luaActions
      {
        ghost var before := Snap();
        LuaAction();
        EffectThenNothing(start, before, Snap(), NO_CALL, []);
        more := *;
      }
    }

    /** Lua code sets off an explosion, damages a unit or feature, or destroys a unit. */
    method LuaAction()
      requires Valid() && luaActions > 0
      modifies this, waitingDamages
      ensures Valid() && Effect(old(Snap()), Snap(), NO_CALL, []) && luaActions < old(luaActions)
      decreases alive, luaActions, 1
    {
      var victim: Option<Target>, damage: real, unit: int := *, *, *;
      if victim.Some? {
        LuaDamage(victim.value, damage);
        return;
      }
      luaActions := luaActions - 1;
      if unit in alive {
        Die(unit);
      } else {
        AnyExplosion();
      }
    }

    /** Spring.AddUnitDamage and Spring.AddFeatureDamage. */
    method LuaDamage(target: Target, damage: real)
      requires Valid() && luaActions > 0
      modifies this, waitingDamages
      ensures Valid() && Effect(old(Snap()), Snap(), NO_CALL, []) && luaActions < old(luaActions)
      decreases alive, luaActions, 0
    {
      ghost var start := Snap();
      LuaHitHasEffect(start, target, damage);
      luaActions := luaActions - 1;
      ghost var noted := AfterLuaHit(books, target, damage);
      ghost var before := Snap().(books := noted);
      match target {
        case UnitTarget(unit) => DoDamage(unit, damage, ByLua, noted);
        case FeatureTarget(feature) => DoFeatureDamage(feature, damage, ByLua, noted);
      }
      EffectThenNothing(start, before, Snap(), NO_CALL, []);
    }

    /**
     CFeature::DoDamage: one that is about to be deleted takes no damage; of others Lua is told. The call is
     noted in the books as told.
     */
    method DoFeatureDamage(feature: int, damage: real, cause: Cause, ghost noted: Books)
      requires Valid() && Noted(books, noted, Hit(cause, FeatureTarget(feature), damage))
      modifies this, waitingDamages
      ensures Valid() && Effect(old(Snap()).(books := noted), Snap(), NO_CALL, [])
      decreases alive, luaActions, 3
    {
      damaged := damaged + [Hit(cause, FeatureTarget(feature), damage)];
      books := noted;
      var takesNone: bool := *;
      if !takesNone {
        LuaEvent();
      }
    }

    /** Some explosion, of which nothing is known. */
    method AnyExplosion()
      requires Valid()
      modifies this, waitingDamages
      ensures Valid() && Effect(old(Snap()), Snap(), NO_CALL, [])
      decreases alive, luaActions, 11
    {
      assert Explosion(NO_UNIT, 0.0, 0.0, 1.0, 0.0, false, 0, t => 0.0).Valid();
      var e: Explosion :| e.Valid();
      var impactOnly: bool, hitObject: Option<Target> := *, *;
      ghost var _, _, _, _ := Explode(e, impactOnly, hitObject);
    }

    /**
     CUnit::DoDamage: a dead unit takes no damage. Lua is told of the damage, and the unit may die.
     The call is noted in the books as told.
     */
    method DoDamage(unit: int, damage: real, cause: Cause, ghost noted: Books)
      requires Valid() && Noted(books, noted, Hit(cause, UnitTarget(unit), damage))
      modifies this, waitingDamages
      ensures Valid() && Effect(old(Snap()).(books := noted), Snap(), NO_CALL, [])
      ensures alive == old(alive) && luaActions == old(luaActions) ==> books == noted
      decreases alive, luaActions, 3
    {
      damaged := damaged + [Hit(cause, UnitTarget(unit), damage)];
      books := noted;
      ghost var start := Snap();
      if unit !in alive {
        return;
      }
      LuaEvent();
      var dies: bool := *;
      if unit !in alive || !dies {
        return;
      }
      ghost var before := Snap();
      Die(unit);
      EffectThenNothing(start, before, Snap(), NO_CALL, []);
    }

    /** A unit dies, Lua is told, and any number of explosions follow, its own and those of what it carries. */
    method Die(unit: int)
      requires Valid() && unit in alive
      modifies this, waitingDamages
      ensures Valid() && Effect(old(Snap()), Snap(), NO_CALL, []) && unit !in alive
      decreases alive, luaActions, 2
    {
      ghost var start := Snap();
      alive := alive - {unit};
      LuaEvent();
      var blasts: nat := *;
      while blasts > 0
        invariant Valid() && Effect(start, Snap(), NO_CALL, []) && unit !in alive
        decreases blasts
      {
        ghost var before := Snap();
        AnyExplosion();
        EffectThenNothing(start, before, Snap(), NO_CALL, []);
        blasts := blasts - 1;
      }
    }

    /**
     CGameHelper::Explosion: an impact hits one object, if any, at no distance; others hit what is in range.
     The explosion's damage, done and deferred, is that of treating these objects once each.
     */
    method Explode(e: Explosion, impactOnly: bool, hitObject: Option<Target>)
      returns (
        ghost call: nat, ghost treated: seq<Treatment>, ghost foundUnits: seq<int>, ghost foundFeatures: seq<int>)
      requires Valid() && e.Valid()
      modifies this, waitingDamages
      ensures Valid() && Effect(old(Snap()), Snap(), NO_CALL, [])
      ensures impactOnly && hitObject == None ==> treated == []
      ensures impactOnly && hitObject.Some? ==>
                treated == [Treatment(hitObject.value, OutcomeOf(Now(call, e, 0.0), hitObject.value))]
      ensures !impactOnly ==>
                NoDuplicates(foundUnits) && NoDuplicates(foundFeatures) &&
                treated == Units(Now(call, e, AreaOf(e)), foundUnits) + Features(Now(call, e, AreaOf(e)), foundFeatures)
      ensures |old(books.calls)| <= call
      ensures HitsBy(damaged, ByExplosion(call)) == DirectHits(treated)
      ensures DeferralsBy(books.deferred, call) == DeferredHits(treated)
      // what that amounts to
      ensures impactOnly && hitObject.Some? ==>
                DeferralsBy(books.deferred, call) == [] &&
                HitsBy(damaged, ByExplosion(call)) ==
                if e.ignoreOwner && hitObject.value == UnitTarget(e.owner) then [] else [(hitObject.value, e.damage)]
      ensures !impactOnly ==> forall d :: d in DeferralsBy(books.deferred, call) ==>
                ForOneOf(e, AreaOf(e), foundUnits, d)
      ensures !impactOnly ==> forall h :: h in HitsBy(damaged, ByExplosion(call)) ==>
                ToOneOf(e, AreaOf(e), foundUnits, foundFeatures, h.0, h.1)
      decreases alive, luaActions, 10
    {
      ghost var start := Snap();
      LuaEvent();
      ghost var before := Snap();
      call, treated, foundUnits, foundFeatures := explosions, [], [], [];
      assert TreatedBy(books.calls, call) == [];
      if !impactOnly {
        call, foundUnits, foundFeatures := DamageObjectsInExplosionRadius(e, AreaOf(e));
        treated := Units(Now(call, e, AreaOf(e)), foundUnits) + Features(Now(call, e, AreaOf(e)), foundFeatures);
        TreatmentsAre(Now(call, e, AreaOf(e)), foundUnits, foundFeatures);
      } else if hitObject.Some? {
        call := HitObject(e, hitObject.value);
        treated := [Treatment(hitObject.value, OutcomeOf(Now(call, e, 0.0), hitObject.value))];
        ImpactIs(Now(call, e, 0.0), hitObject.value);
      }
      EffectThenNothing(start, before, Snap(), NO_CALL, []);
    }

    /** An impact on one object. */
    method HitObject(e: Explosion, target: Target) returns (ghost call: nat)
      requires Valid() && e.Valid()
      modifies this, waitingDamages
      ensures Valid() && Effect(old(Snap()), Snap(), NO_CALL, [])
      ensures call == |old(books.calls)|
      ensures var treated := [Treatment(target, OutcomeOf(Now(call, e, 0.0), target))];
              HitsBy(damaged, ByExplosion(call)) == DirectHits(treated) &&
              DeferralsBy(books.deferred, call) == DeferredHits(treated)
      decreases alive, luaActions, 9
    {
      ghost var start := Snap();
      var number := BeginCall();
      call := number;
      ghost var begun := Snap();
      match target {
        case UnitTarget(id) => DamageUnit(id, e, 0.0, number);
        case FeatureTarget(id) => DamageFeature(id, e, 0.0, number);
      }
      CallDone(start, begun, Snap(), call, [Treatment(target, OutcomeOf(Now(call, e, 0.0), target))]);
    }

    /** Numbers an explosion. */
    method BeginCall() returns (call: nat)
      requires Valid()
      modifies this`explosions, this`books
      ensures Valid() && call == |old(books.calls)|
      ensures books == old(books).(calls := old(books.calls) + [[]])
    {
      call := explosions;
      explosions := explosions + 1;
      books := AfterBegin(books);
    }

    /** DoExplosionDamage for a unit: spare it, damage it at once, or defer the damage to a later frame. */
    method DamageUnit(unit: int, e: Explosion, radius: real, call: nat)
      requires Valid() && e.Valid() && radius >= 0.0 && call < explosions
      modifies this, waitingDamages
      ensures Valid()
      ensures Effect(old(Snap()), Snap(), call,
                     [Treatment(UnitTarget(unit), UnitOutcome(old(Now(call, e, radius)), unit))])
      decreases alive, luaActions, 5
    {
      ghost var b := Now(call, e, radius);
      if e.ignoreOwner && unit == e.owner {
        books := AfterSparing(books, call, UnitTarget(unit));
        return;
      }
      var dist := if radius == 0.0 then 0.0 else e.distance(UnitTarget(unit));
      if dist > radius {
        books := AfterSparing(books, call, UnitTarget(unit));
        return;
      }
      var dmg := e.damage * DistanceMod(radius, e.edgeEffect, dist);
      if dist < e.speed * SPEED_SCALE as real {
        assert UnitOutcome(b, unit) == Direct(dmg);
        HitNow(unit, dmg, call);
      } else {
        var wd := WaitingDamage(e.owner, unit, dmg, e.weaponID);
        HitLater(unit, Delay(dist, e.speed), wd, call, UnitOutcome(b, unit).d);
      }
    }

    /** Damages a unit in the frame of the explosion. */
    method HitNow(unit: int, damage: real, call: nat)
      requires Valid() && call < explosions
      modifies this, waitingDamages
      ensures Valid()
      ensures Effect(old(Snap()), Snap(), call, [Treatment(UnitTarget(unit), Direct(damage))])
      decreases alive, luaActions, 4
    {
      ghost var start := Snap();
      ghost var noted := AfterHit(books, call, UnitTarget(unit), damage);
      HitHasEffect(start, call, UnitTarget(unit), damage);
      DoDamage(unit, damage, ByExplosion(call), noted);
      EffectThenNothing(start, start.(books := noted), Snap(), call, [Treatment(UnitTarget(unit), Direct(damage))]);
    }

    /** Puts damage to a unit on the list of the frame in which the wave arrives. */
    method HitLater(unit: int, delay: nat, wd: WaitingDamage, call: nat, ghost d: Deferral)
      requires Valid() && delay >= 1 && call < explosions
      requires d == Deferral(call, books.next, frameNum + delay, DeliveryFrame(books.next, frameNum + delay), wd)
      modifies this`books, waitingDamages
      ensures Valid()
      ensures Effect(old(Snap()), Snap(), call, [Treatment(UnitTarget(unit), Deferred(d))])
    {
      DeferKeepsList(books, d, frameNum);
      books := AfterDefer(books, UnitTarget(unit), d);
      var slot := (frameNum + delay) % RING_SIZE;
      waitingDamages[slot] := waitingDamages[slot] + [wd];
    }

    /** DoExplosionDamage for a feature: spare it or damage it at once; Lua code may explode things then, too. */
    method DamageFeature(feature: int, e: Explosion, radius: real, call: nat)
      requires Valid() && e.Valid() && radius >= 0.0 && call < explosions
      modifies this, waitingDamages
      ensures Valid()
      ensures Effect(old(Snap()), Snap(), call,
                     [Treatment(FeatureTarget(feature), FeatureOutcome(old(Now(call, e, radius)), feature))])
      decreases alive, luaActions, 5
    {
      ghost var b := Now(call, e, radius);
      var dist := if radius == 0.0 then 0.0 else e.distance(FeatureTarget(feature));
      if dist > radius {
        books := AfterSparing(books, call, FeatureTarget(feature));
        return;
      }
      var dmg := e.damage * DistanceMod(radius, e.edgeEffect, dist);
      assert FeatureOutcome(b, feature) == Direct(dmg);
      HitFeatureNow(feature, dmg, call);
    }

    method HitFeatureNow(feature: int, damage: real, call: nat)
      requires Valid() && call < explosions
      modifies this, waitingDamages
      ensures Valid()
      ensures Effect(old(Snap()), Snap(), call, [Treatment(FeatureTarget(feature), Direct(damage))])
      decreases alive, luaActions, 4
    {
      ghost var start := Snap();
      ghost var noted := AfterHit(books, call, FeatureTarget(feature), damage);
      HitHasEffect(start, call, FeatureTarget(feature), damage);
      DoFeatureDamage(feature, damage, ByExplosion(call), noted);
      EffectThenNothing(
        start, start.(books := noted), Snap(), call, [Treatment(FeatureTarget(feature), Direct(damage))]);
    }

    /** One step of the loop over the units; start is the state before the loop, plan what the loop has to do. */
    method DamageUnitAt(
      n: nat, first: nat, e: Explosion, radius: real, call: nat, ghost start: Snapshot, ghost plan: seq<Treatment>)
      requires Valid() && e.Valid() && radius >= 0.0 && call < explosions && first <= n < |unitCache|
      requires plan == Units(Now(call, e, radius), unitCache[first..]) && n - first < |plan|
      requires Effect(start, Snap(), call, plan[..n - first])
      modifies this, waitingDamages
      ensures Valid() && Effect(start, Snap(), call, plan[..n + 1 - first])
      decreases alive, luaActions, 6
    {
      ghost var before, b := Snap(), Now(call, e, radius);
      UnitsOneEach(b, unitCache[first..]);
      DamageUnit(unitCache[n], e, radius, call);
      PlannedOneMore(start, before, Snap(), call, plan, n - first);
    }

    /** Treats the units stacked in unitCache from position first on. */
    method DamageUnitsFrom(first: nat, e: Explosion, radius: real, call: nat)
      requires Valid() && e.Valid() && radius >= 0.0 && call < explosions && first <= |unitCache|
      modifies this, waitingDamages
      ensures Valid()
      ensures Effect(old(Snap()), Snap(), call, Units(old(Now(call, e, radius)), old(unitCache)[first..]))
      decreases alive, luaActions, 7
    {
      ghost var start, plan := Snap(), Units(Now(call, e, radius), unitCache[first..]);
      UnitsOneEach(Now(call, e, radius), unitCache[first..]);
      var n, newNumUnits := first, |unitCache|;
      while n < newNumUnits
        invariant first <= n <= newNumUnits == |start.unitCache|
        invariant Valid() && Effect(start, Snap(), call, plan[..n - first])
      {
        DamageUnitAt(n, first, e, radius, call, start, plan);
        n := n + 1;
      }
      assert plan[..n - first] == plan;
    }

    /** One step of the loop over the features; start is the state before the loop, plan what the loop has to do. */
    method DamageFeatureAt(
      n: nat, first: nat, e: Explosion, radius: real, call: nat, ghost start: Snapshot, ghost plan: seq<Treatment>)
      requires Valid() && e.Valid() && radius >= 0.0 && call < explosions && first <= n < |featureCache|
      requires plan == Features(Now(call, e, radius), featureCache[first..]) && n - first < |plan|
      requires Effect(start, Snap(), call, plan[..n - first])
      modifies this, waitingDamages
      ensures Valid() && Effect(start, Snap(), call, plan[..n + 1 - first])
      decreases alive, luaActions, 6
    {
      ghost var before, b := Snap(), Now(call, e, radius);
      FeaturesOneEach(b, featureCache[first..]);
      DamageFeature(featureCache[n], e, radius, call);
      PlannedOneMore(start, before, Snap(), call, plan, n - first);
    }

    /** Treats the features stacked in featureCache from position first on. */
    method DamageFeaturesFrom(first: nat, e: Explosion, radius: real, call: nat)
      requires Valid() && e.Valid() && radius >= 0.0 && call < explosions && first <= |featureCache|
      modifies this, waitingDamages
      ensures Valid()
      ensures Effect(old(Snap()), Snap(), call, Features(old(Now(call, e, radius)), old(featureCache)[first..]))
      decreases alive, luaActions, 7
    {
      ghost var start, plan := Snap(), Features(Now(call, e, radius), featureCache[first..]);
      FeaturesOneEach(Now(call, e, radius), featureCache[first..]);
      var n, newNumFeatures := first, |featureCache|;
      while n < newNumFeatures
        invariant first <= n <= newNumFeatures == |start.featureCache|
        invariant Valid() && Effect(start, Snap(), call, plan[..n - first])
      {
        DamageFeatureAt(n, first, e, radius, call, start, plan);
        n := n + 1;
      }
      assert plan[..n - first] == plan;
    }

    /** The query appends the objects in range to the two vectors, each object once. */
    method PushObjectsInRange() returns (ghost foundUnits: seq<int>, ghost foundFeatures: seq<int>)
      requires Valid()
      modifies this`unitCache, this`featureCache
      ensures Valid() && NoDuplicates(foundUnits) && NoDuplicates(foundFeatures)
      ensures unitCache == old(unitCache) + foundUnits && featureCache == old(featureCache) + foundFeatures
    {
      assert NoDuplicates<int>([]);
      var newUnits: seq<int> :| NoDuplicates(newUnits);
      var newFeatures: seq<int> :| NoDuplicates(newFeatures);
      unitCache, featureCache := unitCache + newUnits, featureCache + newFeatures;
      foundUnits, foundFeatures := newUnits, newFeatures;
    }

    /** Treats the objects stacked above the old ends of the two vectors, and takes them off again. */
    method TreatStacked(oldNumUnits: nat, oldNumFeatures: nat, e: Explosion, radius: real, call: nat)
      requires Valid() && e.Valid() && radius >= 0.0 && call < explosions
      requires oldNumUnits <= |unitCache| && oldNumFeatures <= |featureCache|
      modifies this, waitingDamages
      ensures Valid()
      ensures Effect(old(Snap()).(unitCache := old(unitCache)[..oldNumUnits],
                                  featureCache := old(featureCache)[..oldNumFeatures]), Snap(), call,
                     Units(old(Now(call, e, radius)), old(unitCache)[oldNumUnits..]) +
                     Features(old(Now(call, e, radius)), old(featureCache)[oldNumFeatures..]))
      decreases alive, luaActions, 8
    {
      ghost var start, b := Snap(), Now(call, e, radius);
      DamageUnitsFrom(oldNumUnits, e, radius, call);
      ghost var half := Snap();
      unitCache := unitCache[..oldNumUnits];
      DamageFeaturesFrom(oldNumFeatures, e, radius, call);
      StackedEffects(start, half, Snap(), call,
                     Units(b, start.unitCache[oldNumUnits..]), Features(b, start.featureCache[oldNumFeatures..]));
      featureCache := featureCache[..oldNumFeatures];
    }

    /**
     Damages everything in range. Nested explosions use the same two vectors as a stack; each leaves them as it
     found them, so this one treats exactly the objects its own query found, each once: its damage, done at once
     and put on the ring, is exactly that of the outcomes their distances call for.
     */
    method DamageObjectsInExplosionRadius(e: Explosion, radius: real)
      returns (ghost call: nat, ghost foundUnits: seq<int>, ghost foundFeatures: seq<int>)
      requires Valid() && e.Valid() && radius >= 0.0
      modifies this, waitingDamages
      ensures Valid() && Effect(old(Snap()), Snap(), NO_CALL, [])
      ensures NoDuplicates(foundUnits) && NoDuplicates(foundFeatures) && call == |old(books.calls)|
      ensures var b := old(Now(|books.calls|, e, radius));
              var treated := Units(b, foundUnits) + Features(b, foundFeatures);
              HitsBy(damaged, ByExplosion(call)) == DirectHits(treated) &&
              DeferralsBy(books.deferred, call) == DeferredHits(treated)
      decreases alive, luaActions, 9
    {
      ghost var start := Snap();
      var number := BeginCall();
      call := number;
      ghost var begun, b := Snap(), Now(call, e, radius);
      var oldNumUnits, oldNumFeatures := |unitCache|, |featureCache|;
      foundUnits, foundFeatures := PushObjectsInRange();
      assert unitCache[oldNumUnits..] == foundUnits && featureCache[oldNumFeatures..] == foundFeatures;
      assert unitCache[..oldNumUnits] == start.unitCache && featureCache[..oldNumFeatures] == start.featureCache;
      TreatStacked(oldNumUnits, oldNumFeatures, e, radius, number);
      CallDone(start, begun, Snap(), call, Units(b, foundUnits) + Features(b, foundFeatures));
    }

    /** CGameHelper::Update's loop body: entry n of this frame's list, if its target is there. */
    method DeliverEntry(n: nat)
      requires Valid() && !drained && n < |waitingDamages[frameNum % RING_SIZE]|
      requires DeliveredIn(books.deliveries, frameNum) == waitingDamages[frameNum % RING_SIZE][..n]
      modifies this, waitingDamages
      ensures Valid() && unitCache == old(unitCache) && featureCache == old(featureCache)
      ensures Growth(old(Snap()), Snap(), NO_CALL, [])
      ensures DeliveryStep(old(books), books, n, units)
      ensures alive == old(alive) && luaActions == old(luaActions) ==>
                waitingDamages[frameNum % RING_SIZE] == old(waitingDamages[frameNum % RING_SIZE])
    {
      ghost var start := Snap();
      var wd := waitingDamages[frameNum % RING_SIZE][n];
      ghost var noted := AfterDelivery(books, n, wd.targetID in units);
      DeliverySteps(books, n, units);
      if wd.targetID !in units {
        books := noted;
        return;
      }
      DoDamage(wd.targetID, wd.damage, ByRing(frameNum), noted);
      StackedEffects(start, start.(books := noted), Snap(), NO_CALL, [], []);
      DeliveryStepStays(start.books, noted, books, n, units);
    }

    /** The loop of CGameHelper::Update; the list may grow while it runs. */
    method DeliverList()
      requires Idle() && !drained
      modifies this, waitingDamages
      ensures Valid() && unitCache == [] && featureCache == []
      ensures Growth(old(Snap()), Snap(), NO_CALL, [])
      ensures DrainedTo(old(books), books, |waitingDamages[frameNum % RING_SIZE]|, units)
    {
      ghost var start := Snap();
      var wdIdx := frameNum % RING_SIZE;
      NothingDelivered(books.deliveries, frameNum);
      var n := 0;
      while n < |waitingDamages[wdIdx]|
        invariant Valid() && unitCache == [] && featureCache == []
        invariant Growth(start, Snap(), NO_CALL, [])
        invariant n <= |waitingDamages[wdIdx]|
        invariant DrainedTo(start.books, books, n, units)
        decreases alive, luaActions, |waitingDamages[wdIdx]| - n
      {
        ghost var before := Snap();
        DeliverEntry(n);
        StackedEffects(start, before, Snap(), NO_CALL, [], []);
        DrainedOneMore(start.books, before.books, books, n, units);
        n := n + 1;
      }
    }

    /**
     CGameHelper::Update: takes off the ring, in order, everything deferred to this frame, also what is deferred
     to it meanwhile, and damages exactly the targets that exist. Nothing is delivered or hit for other frames.
     */
    method Update()
      requires Idle() && !drained
      modifies this, waitingDamages
      ensures Idle() && drained && frameNum == old(frameNum) && units == old(units) && alive <= old(alive)
      ensures DrainedFrame(old(books), books, frameNum, units)
      // whatever is deferred to the frame by its end is delivered, and hits those that exist
      ensures DeliveredIn(books.deliveries, frameNum) == DeferredTo(books.deferred, frameNum)
      ensures HitsBy(damaged, ByRing(frameNum)) == ToPresent(DeferredTo(books.deferred, frameNum), units)
      // without waves that are too slow, that was deferred before
      ensures (forall i :: |old(books.deferred)| <= i < |books.deferred| ==>
                 books.deferred[i].due - books.deferred[i].next < 128) ==>
              DeferredTo(books.deferred, frameNum) == DeferredTo(old(books.deferred), frameNum)
    {
      ghost var before := books;
      DeliverList();
      ghost var listed := books;
      ClearList();
      FrameIsDrained(before, listed, books, units);
    }

    /** The list of this frame is cleared once it has been delivered to its end. */
    method ClearList()
      requires Valid() && !drained && unitCache == [] && featureCache == []
      requires DeliveredIn(books.deliveries, frameNum) == waitingDamages[frameNum % RING_SIZE]
      modifies this`books, this`drained, waitingDamages
      ensures Idle() && drained && books == AfterDrain(old(books))
    {
      books := AfterDrain(books);
      waitingDamages[frameNum % RING_SIZE] := [];
      drained := true;
    }
  }

  /** What has been deferred to a frame stays at the front of its list. */
  lemma {:induction false} DeferralsOnlyAdd(before: seq<Deferral>, after: seq<Deferral>, frame: nat)
    requires before <= after
    ensures DeferredTo(before, frame) <= DeferredTo(after, frame)
  {
    if |before| < |after| {
      DeferralsOnlyAdd(before, after[..|after| - 1], frame);
    } else {
      assert before == after;
    }
  }
}
