/** How many availability zones a cluster of each level records, and which. */
module ZoneChoice {
  import opened Registry
  import opened RegistryFacts
  import opened Clusters

  /** One zone for a basic cluster, half of the offered ones, rounded up, for a standard one, else all. */
  function Target(level: Level, offered: nat): (target: nat)
    ensures level == STANDARD ==> offered <= 2 * target <= offered + 1
  {
    if level == BASIC then 1
    else if level == STANDARD then (offered + 1) / 2
    else offered
  }

  function Zones(rs: Resources): Resources { OfType(rs, AVAILABILITY_ZONES) }

  function RefSet(rs: Resources): set<string> { set r | r in rs :: r.refId }

  lemma {:induction false} RefSetSize(rs: Resources)
    ensures |RefSet(rs)| <= |rs|
    ensures (forall i, j :: 0 <= i < j < |rs| ==> rs[i].refId != rs[j].refId) ==> |RefSet(rs)| == |rs|
  {
    if rs != [] {
      RefSetSize(rs[1..]);
      assert rs == [rs[0]] + rs[1..];
      assert RefSet(rs) == RefSet(rs[1..]) + {rs[0].refId};
      if forall i, j :: 0 <= i < j < |rs| ==> rs[i].refId != rs[j].refId {
        HeadIsNew(rs);
      }
    }
  }

  lemma {:induction false} HeadIsNew(rs: Resources)
    requires rs != [] && forall i, j :: 0 <= i < j < |rs| ==> rs[i].refId != rs[j].refId
    ensures rs[0].refId !in RefSet(rs[1..])
    ensures forall i, j :: 0 <= i < j < |rs[1..]| ==> rs[1..][i].refId != rs[1..][j].refId
  {
  }

  /** Distinct zones that are all recorded are no more than the recorded ones. */
  lemma {:induction false} RecordedAreEnough(rs: Resources, offered: Resources)
    requires forall i, j :: 0 <= i < j < |offered| ==> offered[i].refId != offered[j].refId
    requires forall z :: z in offered ==> Registered(rs, AVAILABILITY_ZONES, z.refId)
    ensures |offered| <= |Zones(rs)|
  {
    RefSetSize(offered);
    RefSetSize(Zones(rs));
    forall x | x in RefSet(offered) ensures x in RefSet(Zones(rs)) {
      var z :| z in offered && z.refId == x;
      var r :| r in rs && r.kind == AVAILABILITY_ZONES && r.refId == x;
      assert r in Zones(rs);
    }
    SubsetSize(RefSet(offered), RefSet(Zones(rs)));
  }

  lemma {:induction false} SubsetSize(a: set<string>, b: set<string>)
    requires a <= b
    ensures |a| <= |b|
  {
    assert b == a + (b - a) && a !! (b - a);
  }

  predicate DistinctOffer(zones: Resources) {
    forall i, j :: 0 <= i < j < |zones| ==> zones[i].refId != zones[j].refId
  }

  /** Of some prefix of the offered zones all are recorded now, and no others were added. */
  ghost predicate FirstOnes(was: Resources, now: Resources, zones: Resources) {
    exists n :: 0 <= n <= |zones| && PrefixRecorded(was, now, zones, n)
  }

  ghost predicate PrefixRecorded(was: Resources, now: Resources, zones: Resources, n: nat)
    requires n <= |zones|
  {
    && was <= now
    && (forall r :: r in now[|was|..] ==> r in zones[..n])
    && (forall z :: z in zones[..n] ==> Registered(now, AVAILABILITY_ZONES, z.refId))
  }

  /**
   Zones are only added, the first unrecorded ones, never twice, and exactly until the level's number is reached: among
   enough distinct offered zones, enough are always unrecorded for that. A second call adds none.
   */
  method SetZoneByLevel(reg: CloudRegistry, level: Level, zones: Resources)
    requires forall z :: z in zones ==> z.kind == AVAILABILITY_ZONES
    modifies reg`resources
    ensures old(reg.resources) <= reg.resources && OthersKept(old(reg.resources), reg.resources, AVAILABILITY_ZONES)
    ensures forall r :: r in reg.resources[|old(reg.resources)|..] ==> r in zones
    ensures FirstOnes(old(reg.resources), reg.resources, zones)
    ensures DistinctRefs(old(reg.resources), AVAILABILITY_ZONES) ==> DistinctRefs(reg.resources, AVAILABILITY_ZONES)
    ensures var before, target := |Zones(old(reg.resources))|, Target(level, |zones|);
            DistinctOffer(zones) ==> |Zones(reg.resources)| == if before < target && zones != [] then target else before
  {
    ghost var was := reg.resources;
    var zoneNumber := Target(level, |zones|);
    var recorded := Zones(reg.resources);
    assert PrefixRecorded(was, was, zones, 0);
    if zoneNumber <= |recorded| {
      return;
    }
    ghost var seen := 0;
    var need := zoneNumber - |recorded|;
    for i := 0 to |zones|
      invariant was <= reg.resources && OthersKept(was, reg.resources, AVAILABILITY_ZONES)
      invariant seen == i && PrefixRecorded(was, reg.resources, zones, i)
      invariant DistinctRefs(was, AVAILABILITY_ZONES) ==> DistinctRefs(reg.resources, AVAILABILITY_ZONES)
      invariant i == 0 ==> reg.resources == was
      invariant 0 <= need && |Zones(reg.resources)| == zoneNumber - need
    {
      if need <= 0 {
        break;
      }
      assert zones[..i + 1] == zones[..i] + [zones[i]] && zones[i] in zones;
      if ByRef(reg.resources, AVAILABILITY_ZONES, zones[i].refId).None? {
        ZoneAdded(was, reg.resources, zones, i);
        reg.AddCloudResource(zones[i]);
        need := need - 1;
      }
      seen := seen + 1;
    }
    assert PrefixRecorded(was, reg.resources, zones, seen);
    if need > 0 && DistinctOffer(zones) && zones != [] {
      assert zones[..|zones|] == zones;
      RecordedAreEnough(reg.resources, zones);
    }
  }

  lemma {:induction false} ZoneAdded(was: Resources, mid: Resources, zones: Resources, i: nat)
    requires i < |zones| && PrefixRecorded(was, mid, zones, i)
    requires zones[i].kind == AVAILABILITY_ZONES && !Registered(mid, AVAILABILITY_ZONES, zones[i].refId)
    ensures var now := mid + [zones[i]];
            && OthersKept(mid, now, AVAILABILITY_ZONES)
            && (DistinctRefs(mid, AVAILABILITY_ZONES) ==> DistinctRefs(now, AVAILABILITY_ZONES))
            && |Zones(now)| == |Zones(mid)| + 1
            && PrefixRecorded(was, now, zones, i + 1)
  {
    var z := zones[i];
    AddKeepsOthers(mid, z);
    OfTypeConcat(mid, [z], AVAILABILITY_ZONES);
    if DistinctRefs(mid, AVAILABILITY_ZONES) {
      AddKeepsDistinct(mid, z);
    }
    assert (mid + [z])[|was|..] == mid[|was|..] + [z];
    assert zones[..i + 1] == zones[..i] + [z];
  }
}
