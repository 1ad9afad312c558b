/**
 Choosing among the installed AI interfaces and Skirmish AIs by name and version.
 */
module KeySelection {
  import opened Sequences
  import opened Versions

  datatype AIInterfaceKey = AIInterfaceKey(shortName: string, version: string)
  {
    predicate IsUnspecified() { shortName == "" }
  }

  datatype SkirmishAIKey = SkirmishAIKey(shortName: string, version: string, iface: AIInterfaceKey)
  {
    predicate IsUnspecified() { shortName == "" }
  }

  const NO_INTERFACE := AIInterfaceKey("", "")

  const NO_AI := SkirmishAIKey("", "", NO_INTERFACE)

  const INT_MAX: int32 := 0x7fff_ffff

  /** AIInterfaceKey::isLessThen, the order in which a set of keys is walked. */
  predicate KeyLess(a: AIInterfaceKey, b: AIInterfaceKey) {
    if a.shortName == b.shortName then StrSign(a.version, b.version) < 0
    else StrSign(a.shortName, b.shortName) < 0
  }

  /** It is a strict total order, as std::set needs it: by name, and by version string among equal names. */
  lemma KeyLessIsTotalOrder()
    ensures StrictTotalOrder(KeyLess)
    ensures forall a: AIInterfaceKey, b: AIInterfaceKey :: StrSign(a.shortName, b.shortName) < 0 ==> KeyLess(a, b)
    ensures forall a: AIInterfaceKey, b: AIInterfaceKey ::
              a.shortName == b.shortName ==> (KeyLess(a, b) <==> StrSign(a.version, b.version) < 0)
  {
    forall a: AIInterfaceKey, b: AIInterfaceKey
      ensures KeyLess(a, b) || a == b || KeyLess(b, a)
      ensures !KeyLess(a, a)
      ensures StrSign(a.shortName, b.shortName) < 0 ==> KeyLess(a, b)
    {
      StrSignAntisymmetric(a.shortName, b.shortName);
      StrSignAntisymmetric(a.version, b.version);
      StrSignAntisymmetric(a.version, a.version);
    }
    forall a: AIInterfaceKey, b: AIInterfaceKey, c: AIInterfaceKey | KeyLess(a, b) && KeyLess(b, c)
      ensures KeyLess(a, c)
    {
      KeyLessTransitive(a, b, c);
    }
  }

  lemma KeyLessTransitive(a: AIInterfaceKey, b: AIInterfaceKey, c: AIInterfaceKey)
    requires KeyLess(a, b) && KeyLess(b, c)
    ensures KeyLess(a, c)
  {
    StrSignAntisymmetric(a.shortName, b.shortName);
    StrSignAntisymmetric(b.shortName, c.shortName);
    StrSignAntisymmetric(a.version, b.version);
    StrSignTransitive(a.shortName, b.shortName, c.shortName);
    if a.shortName == b.shortName == c.shortName {
      StrSignTransitive(a.version, b.version, c.version);
    }
  }

  /** The order of two version strings. */
  function Order(v1: string, v2: string): (r: int)
    ensures -1 <= r <= 1
  {
    VersionOrder(Split(v1), Split(v2))
  }

  /** The two versions have few enough parts to be compared without overflow. */
  predicate Comparable(v1: string, v2: string, bound: nat) {
    FitsInt(MaxParts(Split(v1), Split(v2)), bound)
  }

  // ---- the interface for a wanted version ----

  predicate FitsInterface(key: AIInterfaceKey, shortName: string, minVersion: string) {
    key.shortName == shortName && Order(key.version, minVersion) >= 0
  }

  /** The first key that fits with the given difference; no key before it fits with a smaller or equal one. */
  ghost predicate FirstWith(
    keys: seq<AIInterfaceKey>, n: nat, shortName: string, minVersion: string, diff: int, fitting: AIInterfaceKey)
    requires n <= |keys|
  {
    && (exists i :: 0 <= i < n && keys[i] == fitting && FitsInterface(keys[i], shortName, minVersion) &&
          Order(keys[i].version, minVersion) == diff &&
          forall j :: 0 <= j < i && FitsInterface(keys[j], shortName, minVersion) ==>
            Order(keys[j].version, minVersion) > diff)
    && (forall j :: 0 <= j < n && FitsInterface(keys[j], shortName, minVersion) ==>
          Order(keys[j].version, minVersion) >= diff)
  }

  ghost predicate NoneFits(keys: seq<AIInterfaceKey>, n: nat, shortName: string, minVersion: string)
    requires n <= |keys|
  {
    forall i :: 0 <= i < n ==> !FitsInterface(keys[i], shortName, minVersion)
  }

  /**
   AILibraryManager::FindFittingInterfaceKey: the first key of the equal
   version if there is one, else the first of any greater version, else none.
   */
  method FindFittingInterfaceKey(
    cmp: PartCompare, ghost bound: nat, shortName: string, minVersion: string, keys: seq<AIInterfaceKey>)
    returns (fittingKey: AIInterfaceKey)
    requires bound <= 3 && IsPartCompare(cmp, bound)
    requires forall i :: 0 <= i < |keys| && keys[i].shortName == shortName ==>
               Comparable(keys[i].version, minVersion, bound)
    ensures NoneFits(keys, |keys|, shortName, minVersion) ==> fittingKey == NO_INTERFACE
    ensures !NoneFits(keys, |keys|, shortName, minVersion) ==>
              FirstWith(keys, |keys|, shortName, minVersion, 0, fittingKey) ||
              FirstWith(keys, |keys|, shortName, minVersion, 1, fittingKey)
    ensures fittingKey == NO_INTERFACE || fittingKey in keys
    ensures forall k ::
              k in keys && k.shortName == shortName && VersionOrder(Split(k.version), Split(minVersion)) >= 0 ==>
                && fittingKey in keys && fittingKey.shortName == shortName
                && 0 <= VersionOrder(Split(fittingKey.version), Split(minVersion)) <=
                        VersionOrder(Split(k.version), Split(minVersion))
  {
    var minDiff := INT_MAX;
    fittingKey := NO_INTERFACE;
    for i := 0 to |keys|
      invariant minDiff == 0 || minDiff == 1 || minDiff == INT_MAX
      invariant minDiff == INT_MAX ==> fittingKey == NO_INTERFACE && NoneFits(keys, i, shortName, minVersion)
      invariant minDiff < INT_MAX ==> FirstWith(keys, i, shortName, minVersion, minDiff as int, fittingKey)
    {
      if shortName != keys[i].shortName {
        continue;
      }
      var diff := VersionCompare(cmp, bound, keys[i].version, minVersion);
      if diff < 0 || diff >= minDiff {
        continue;
      }
      fittingKey := keys[i];
      minDiff := diff;
    }
  }

  /** A version string that is its parts joined by dots, one between any two. */
  predicate TidyVersion(v: string) {
    Tidy(Split(v)) && v == Join(Split(v))
  }

  /** All parts are made of characters from '0' on, as in numbers and letters. */
  predicate CanonicalVersion(v: string) {
    Canonical(Split(v)) && v == Join(Split(v))
  }

  /** The keys of a std::set, in the order of its walk. */
  ghost predicate KeySet(keys: seq<AIInterfaceKey>) {
    StrictlySorted(KeyLess, keys)
  }

  /** The first key that fits. */
  ghost predicate FirstFit(keys: seq<AIInterfaceKey>, shortName: string, minVersion: string, first: nat) {
    && first < |keys| && FitsInterface(keys[first], shortName, minVersion)
    && forall j :: 0 <= j < first ==> !FitsInterface(keys[j], shortName, minVersion)
  }

  ghost predicate SomeEqual(keys: seq<AIInterfaceKey>, shortName: string, minVersion: string) {
    exists k :: k in keys && FitsInterface(k, shortName, minVersion) && Order(k.version, minVersion) == 0
  }

  /** Without an equal version, the chosen key is the first that fits. */
  lemma ChosenIsFirst(
    keys: seq<AIInterfaceKey>, shortName: string, minVersion: string, diff: int, chosen: AIInterfaceKey, first: nat)
    requires 0 <= diff <= 1 && FirstFit(keys, shortName, minVersion, first)
    requires FirstWith(keys, |keys|, shortName, minVersion, diff, chosen)
    ensures diff == 0 <==> SomeEqual(keys, shortName, minVersion)
    ensures diff == 1 ==> chosen == keys[first]
  {
    var i :| 0 <= i < |keys| && keys[i] == chosen && FitsInterface(keys[i], shortName, minVersion) &&
      Order(keys[i].version, minVersion) == diff &&
      forall j :: 0 <= j < i && FitsInterface(keys[j], shortName, minVersion) ==>
        Order(keys[j].version, minVersion) > diff;
    assert diff == 0 ==> keys[i] in keys;
    assert i >= first;
  }

  /**
   The chosen key is the least of all that fit, as the documentation promises, just if there is an equal version,
   or the first key that fits misleads against none that do.
   */
  lemma ChosenIsLeastIff(
    keys: seq<AIInterfaceKey>, shortName: string, minVersion: string, diff: int, chosen: AIInterfaceKey, first: nat)
    requires KeySet(keys) && 0 <= diff <= 1 && FirstFit(keys, shortName, minVersion, first)
    requires forall k :: k in keys && FitsInterface(k, shortName, minVersion) ==> TidyVersion(k.version)
    requires FirstWith(keys, |keys|, shortName, minVersion, diff, chosen)
    ensures
      (forall k :: k in keys && FitsInterface(k, shortName, minVersion) ==>
         VersionOrder(Split(chosen.version), Split(k.version)) <= 0) <==>
      || (exists k :: k in keys && FitsInterface(k, shortName, minVersion) &&
            VersionOrder(Split(k.version), Split(minVersion)) == 0)
      || (forall k :: k in keys && FitsInterface(k, shortName, minVersion) ==>
            !Misleads(Split(keys[first].version), Split(k.version)))
  {
    ChosenIsFirst(keys, shortName, minVersion, diff, chosen, first);
    forall k | k in keys && FitsInterface(k, shortName, minVersion)
      ensures Order(chosen.version, k.version) > 0 <==> Misleads(Split(chosen.version), Split(k.version))
      ensures diff == 0 ==> Order(chosen.version, k.version) <= 0
    {
      var other :| 0 <= other < |keys| && keys[other] == k;
      ChosenBeforeNewer(keys, shortName, minVersion, diff, chosen, other);
      MisleadsIff(Split(chosen.version), Split(k.version));
    }
  }

  /** A fitting key that is older than the chosen one comes after it in the set. */
  lemma ChosenBeforeNewer(
    keys: seq<AIInterfaceKey>, shortName: string, minVersion: string, diff: int, chosen: AIInterfaceKey, other: nat)
    requires KeySet(keys) && 0 <= diff <= 1
    requires FirstWith(keys, |keys|, shortName, minVersion, diff, chosen)
    requires other < |keys| && FitsInterface(keys[other], shortName, minVersion)
    ensures chosen in keys && FitsInterface(chosen, shortName, minVersion)
    ensures Order(chosen.version, keys[other].version) > 0 ==>
              StrSign(chosen.version, keys[other].version) < 0 && diff == 1
  {
    var i :| 0 <= i < |keys| && keys[i] == chosen && FitsInterface(keys[i], shortName, minVersion) &&
      Order(keys[i].version, minVersion) == diff &&
      forall j :: 0 <= j < i && FitsInterface(keys[j], shortName, minVersion) ==>
        Order(keys[j].version, minVersion) > diff;
    var c, m, o := Split(chosen.version), Split(minVersion), Split(keys[other].version);
    if diff == 0 {
      VersionOrderAntisymmetric(m, o);
      VersionOrderTransitive(c, m, o);
    } else if other == i {
      VersionOrderReflexive(c);
    } else {
      assert other > i;
      assert KeyLess(keys[i], keys[other]);
    }
  }

  /** Canonical versions never mislead, so with them the promise holds. */
  lemma ChosenIsLeast(
    keys: seq<AIInterfaceKey>, shortName: string, minVersion: string, diff: int, chosen: AIInterfaceKey)
    requires KeySet(keys) && 0 <= diff <= 1
    requires forall k :: k in keys && FitsInterface(k, shortName, minVersion) ==> CanonicalVersion(k.version)
    requires FirstWith(keys, |keys|, shortName, minVersion, diff, chosen)
    ensures forall k :: k in keys && FitsInterface(k, shortName, minVersion) ==>
              VersionOrder(Split(chosen.version), Split(k.version)) <= 0
  {
    forall k | k in keys && FitsInterface(k, shortName, minVersion)
      ensures Order(chosen.version, k.version) <= 0
    {
      var other :| 0 <= other < |keys| && keys[other] == k;
      ChosenBeforeNewer(keys, shortName, minVersion, diff, chosen, other);
      if StrSign(chosen.version, k.version) < 0 {
        StringOrderRefines(Split(chosen.version), Split(k.version));
      }
    }
  }

  /** Without that, set order can pick a version that is not the next one: 1-5 sorts before 1.0 but is newer. */
  lemma SetOrderCanMislead() returns (keys: seq<AIInterfaceKey>)
    ensures KeySet(keys) && |keys| == 2
    ensures FirstWith(keys, 2, "C", "0", 1, keys[0])
    ensures FitsInterface(keys[1], "C", "0") && Order(keys[0].version, keys[1].version) > 0
    ensures keys[0].version == "1-5" && keys[1].version == "1.0" && !CanonicalVersion(keys[0].version)
    ensures Misleads(Split(keys[0].version), Split(keys[1].version))
  {
    var v := "1-5";
    keys := [AIInterfaceKey("C", v), AIInterfaceKey("C", "1.0")];
    assert v[1..][0] == '-' && "1.0"[1..][0] == '.';
    SplitTwo("1", "0");
    assert "1.0" == "1" + "." + "0";
    SplitNoDot(v);
    SplitNoDot("0");
    assert Split(v) == [v] && Split("1.0") == ["1", "0"] && Split("0") == ["0"];
    assert StrSign(v, "1") == 1 by { assert "1"[1..] == ""; }
    assert Order(v, "1.0") == 1;
    assert Order(v, "0") == 1 && Order("1.0", "0") == 1;
    assert keys[0] == keys[0] && FitsInterface(keys[0], "C", "0");
    assert v[1] == '-';
    assert !CanonicalPart(v);
  }

  // ---- the newest AI of a name ----

  predicate Matches(wanted: SkirmishAIKey, aiKey: SkirmishAIKey) {
    && !wanted.IsUnspecified()
    && wanted.shortName == aiKey.shortName
    && (wanted.version == "" || wanted.version == aiKey.version)
  }

  /** AILibraryManager::FittingSkirmishAIKeys. */
  method FittingSkirmishAIKeys(skirmishAIKeys: seq<SkirmishAIKey>, wanted: SkirmishAIKey)
    returns (matchedKeys: seq<SkirmishAIKey>)
    ensures forall k ::
              k in matchedKeys <==>
                k in skirmishAIKeys && wanted.shortName != "" && k.shortName == wanted.shortName &&
                (wanted.version == "" || k.version == wanted.version)
    ensures matchedKeys == Filter(k => Matches(wanted, k), skirmishAIKeys)
  {
    matchedKeys := [];
    if wanted.IsUnspecified() {
      NothingMatches(wanted, skirmishAIKeys);
      return;
    }
    for i := 0 to |skirmishAIKeys|
      invariant matchedKeys == Filter(k => Matches(wanted, k), skirmishAIKeys[..i])
      invariant forall k :: k in matchedKeys <==> k in skirmishAIKeys[..i] && Matches(wanted, k)
    {
      var aiKey := skirmishAIKeys[i];
      assert skirmishAIKeys[..i + 1] == skirmishAIKeys[..i] + [aiKey];
      if wanted.shortName != aiKey.shortName {
        continue;
      }
      if wanted.version != "" && wanted.version != aiKey.version {
        continue;
      }
      matchedKeys := matchedKeys + [aiKey];
    }
    assert skirmishAIKeys[..|skirmishAIKeys|] == skirmishAIKeys;
  }

  lemma {:induction false} NothingMatches(wanted: SkirmishAIKey, keys: seq<SkirmishAIKey>)
    requires wanted.IsUnspecified()
    ensures Filter(k => Matches(wanted, k), keys) == []
  {
    if keys != [] {
      NothingMatches(wanted, keys[..|keys| - 1]);
    }
  }

  /**
   AILibraryManager::ResolveSkirmishAIKey: a matching key that no other
   matching key is newer than, or the unspecified key if none matches.
   */
  method ResolveSkirmishAIKey(
    cmp: PartCompare, ghost bound: nat, skirmishAIKeys: seq<SkirmishAIKey>, wanted: SkirmishAIKey)
    returns (resolved: SkirmishAIKey)
    requires bound <= 3 && IsPartCompare(cmp, bound)
    requires forall k, l :: k in skirmishAIKeys && Matches(wanted, k) && l in skirmishAIKeys && Matches(wanted, l) ==>
               Comparable(k.version, l.version, bound)
    ensures resolved.IsUnspecified() <==> forall k :: k in skirmishAIKeys ==> !Matches(wanted, k)
    ensures !resolved.IsUnspecified() ==> resolved in skirmishAIKeys && Matches(wanted, resolved)
    ensures forall k :: k in skirmishAIKeys && Matches(wanted, k) ==> Order(k.version, resolved.version) <= 0
    ensures forall k ::
              k in skirmishAIKeys && wanted.shortName != "" && k.shortName == wanted.shortName &&
              (wanted.version == "" || k.version == wanted.version) ==>
                && resolved in skirmishAIKeys && resolved.shortName == wanted.shortName
                && (wanted.version == "" || resolved.version == wanted.version)
                && VersionOrder(Split(k.version), Split(resolved.version)) <= 0
  {
    var fittingKeys := FittingSkirmishAIKeys(skirmishAIKeys, wanted);
    if fittingKeys == [] {
      return NO_AI;
    }
    assert fittingKeys[0] in fittingKeys;
    forall i, j | 0 <= i < |fittingKeys| && 0 <= j < |fittingKeys|
      ensures Comparable(fittingKeys[i].version, fittingKeys[j].version, bound)
    {
      assert fittingKeys[i] in fittingKeys && fittingKeys[j] in fittingKeys;
    }
    var bestIndex := Newest(cmp, bound, fittingKeys);
    resolved := fittingKeys[bestIndex];
    assert resolved in fittingKeys;
  }

  /** The loop that looks for the highest version. */
  method Newest(cmp: PartCompare, ghost bound: nat, keys: seq<SkirmishAIKey>) returns (bestIndex: nat)
    requires bound <= 3 && IsPartCompare(cmp, bound) && keys != []
    requires forall i, j :: 0 <= i < |keys| && 0 <= j < |keys| ==> Comparable(keys[i].version, keys[j].version, bound)
    ensures bestIndex < |keys|
    ensures forall i :: 0 <= i < |keys| ==> Order(keys[i].version, keys[bestIndex].version) <= 0
  {
    bestIndex := 0;
    VersionOrderReflexive(Split(keys[0].version));
    for k := 1 to |keys|
      invariant bestIndex < |keys|
      invariant forall i :: 0 <= i < k ==> Order(keys[i].version, keys[bestIndex].version) <= 0
    {
      var diff := VersionCompare(cmp, bound, keys[k].version, keys[bestIndex].version);
      if diff <= 0 {
        continue;
      }
      NewBest(keys, k, bestIndex);
      bestIndex := k;
    }
  }

  lemma NewBest(keys: seq<SkirmishAIKey>, k: nat, best: nat)
    requires k < |keys| && best < |keys|
    requires forall i :: 0 <= i < k ==> Order(keys[i].version, keys[best].version) <= 0
    requires Order(keys[k].version, keys[best].version) > 0
    ensures forall i :: 0 <= i <= k ==> Order(keys[i].version, keys[k].version) <= 0
  {
    VersionOrderReflexive(Split(keys[k].version));
    VersionOrderAntisymmetric(Split(keys[k].version), Split(keys[best].version));
    forall i | 0 <= i < k
      ensures Order(keys[i].version, keys[k].version) <= 0
    {
      VersionOrderTransitive(Split(keys[i].version), Split(keys[best].version), Split(keys[k].version));
    }
  }
}
