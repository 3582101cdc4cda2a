/**
 When the mount worklist settles: exactly when no loop of `router.use` calls lengthens the prefix.
 One direction cuts loops out of long chains until finitely many are left, the other goes round
 a growing loop more often than any finite set of locations allows.
 */
module MountSettling {
  import opened Options
  import opened RoutePath
  import opened Mounts

  /** One step from a set of locations. */
  ghost function Successors(project: Project, from: set<Location>): set<Location> {
    set location, use | location in from && location.0 in project.uses && use in project.uses[location.0]
                        && CanStep(project, location.0, use) :: StepAt(location, use)
  }

  /** The locations of chains of at most `n` calls. */
  ghost function Locations(project: Project, seeds: seq<Mount>, n: nat): set<Location> {
    if n == 0 then set k | 0 <= k < |seeds| :: At(seeds[k])
    else Locations(project, seeds, n - 1) + Successors(project, Locations(project, seeds, n - 1))
  }

  ghost predicate IsReachedBy(project: Project, seeds: seq<Mount>, seed: Mount, chain: seq<Use>, location: Location) {
    && seed in seeds
    && IsChain(project, seed.file, chain)
    && At(Follow(project, seed, chain)) == location
  }

  ghost predicate IsReachedWithin(project: Project, seeds: seq<Mount>, location: Location, n: nat) {
    exists seed, chain :: IsReachedBy(project, seeds, seed, chain, location) && |chain| <= n
  }

  lemma ReachedStep(project: Project, seeds: seq<Mount>, location: Location, use: Use, n: nat)
    requires IsReachedWithin(project, seeds, location, n) && CanStep(project, location.0, use)
    ensures IsReachedWithin(project, seeds, StepAt(location, use), n + 1)
  {
    var seed, chain :| IsReachedBy(project, seeds, seed, chain, location) && |chain| <= n;
    ReachedByStep(project, seeds, seed, chain, location, use);
    assert |chain + [use]| <= n + 1;
  }

  lemma ReachedByStep(project: Project, seeds: seq<Mount>, seed: Mount, chain: seq<Use>, location: Location, use: Use)
    requires IsReachedBy(project, seeds, seed, chain, location) && CanStep(project, location.0, use)
    ensures IsReachedBy(project, seeds, seed, chain + [use], StepAt(location, use))
  {
    FollowStep(project, seed, chain, use);
  }

  lemma SeedReached(project: Project, seeds: seq<Mount>, location: Location)
    requires location in Locations(project, seeds, 0)
    ensures IsReachedWithin(project, seeds, location, 0)
  {
    var k :| 0 <= k < |seeds| && At(seeds[k]) == location;
    assert IsReachedBy(project, seeds, seeds[k], [], location);
  }

  lemma SuccessorsReached(project: Project, seeds: seq<Mount>, from: set<Location>, n: nat, location: Location)
    requires forall origin :: origin in from ==> IsReachedWithin(project, seeds, origin, n)
    requires location in from + Successors(project, from)
    ensures IsReachedWithin(project, seeds, location, n + 1)
  {
    if location in from {
      var seed, chain :| IsReachedBy(project, seeds, seed, chain, location) && |chain| <= n;
    } else {
      var origin, use :| origin in from && CanStep(project, origin.0, use) && location == StepAt(origin, use);
      ReachedStep(project, seeds, origin, use, n);
    }
  }

  lemma {:induction false} LocationsReached(project: Project, seeds: seq<Mount>, n: nat, location: Location)
    requires location in Locations(project, seeds, n)
    ensures IsReachedWithin(project, seeds, location, n)
    decreases n
  {
    if n == 0 {
      SeedReached(project, seeds, location);
    } else {
      var from := Locations(project, seeds, n - 1);
      forall origin | origin in from ensures IsReachedWithin(project, seeds, origin, n - 1) {
        LocationsReached(project, seeds, n - 1, origin);
      }
      SuccessorsReached(project, seeds, from, n - 1, location);
    }
  }

  /** The last call of a chain goes on from where the calls before it end. */
  ghost predicate IsLastStep(project: Project, seed: Mount, chain: seq<Use>, init: seq<Use>, use: Use)
    requires IsChain(project, seed.file, chain)
  {
    && chain == init + [use] && IsChain(project, seed.file, init)
    && CanStep(project, Follow(project, seed, init).file, use) && Follow(project, seed, chain) == Next(Follow(project, seed, init), use)
  }

  lemma LastStep(project: Project, seed: Mount, chain: seq<Use>)
    requires IsChain(project, seed.file, chain) && chain != []
    ensures exists init, use :: IsLastStep(project, seed, chain, init, use)
  {
    var n := |chain| - 1;
    var init, use := chain[..n], chain[n];
    ChainSplit(project, seed.file, chain, n);
    assert chain[n..] == [use] && chain == init + [use];
    FollowFile(project, seed, init);
    FollowStep(project, seed, init, use);
    assert IsLastStep(project, seed, chain, init, use);
  }

  lemma {:induction false} ChainInLocations(project: Project, seeds: seq<Mount>, n: nat, seed: Mount, chain: seq<Use>)
    requires seed in seeds && IsChain(project, seed.file, chain) && |chain| <= n
    ensures At(Follow(project, seed, chain)) in Locations(project, seeds, n)
    decreases n
  {
    if n == 0 {
    } else if |chain| < n {
      ChainInLocations(project, seeds, n - 1, seed, chain);
    } else {
      LastStep(project, seed, chain);
      var init, use :| IsLastStep(project, seed, chain, init, use);
      ChainInLocations(project, seeds, n - 1, seed, init);
    }
  }

  /** More elements than the set has room for: two are equal. */
  lemma {:induction false} Pigeonhole<T>(s: seq<T>, room: set<T>)
    requires |s| > |room| && forall k :: 0 <= k < |s| ==> s[k] in room
    ensures exists i, j :: 0 <= i < j < |s| && s[i] == s[j]
    decreases |s|
  {
    var n := |s| - 1;
    if k :| 0 <= k < n && s[k] == s[n] {
    } else {
      assert |room - {s[n]}| == |room| - 1;
      Pigeonhole(s[..n], room - {s[n]});
      var i, j :| 0 <= i < j < n && s[..n][i] == s[..n][j];
      assert s[i] == s[j];
    }
  }

  /** The files that a chain visits after its start. */
  ghost function Visited(project: Project, start: File, chain: seq<Use>): seq<File>
    requires IsChain(project, start, chain)
    decreases |chain|
  {
    if chain == [] then [] else [chain[0].target.value] + Visited(project, chain[0].target.value, chain[1..])
  }

  lemma {:induction false} VisitedMeaning(project: Project, start: File, chain: seq<Use>)
    requires IsChain(project, start, chain)
    ensures |Visited(project, start, chain)| == |chain|
    ensures forall k :: 0 <= k < |chain| ==> Visited(project, start, chain)[k] in project.routeFiles
    decreases |chain|
  {
    if chain == [] {
    } else {
      VisitedMeaning(project, chain[0].target.value, chain[1..]);
    }
  }

  lemma {:induction false} VisitedIsEnd(project: Project, start: File, chain: seq<Use>, k: nat)
    requires IsChain(project, start, chain) && k < |chain| && IsChain(project, start, chain[..k + 1])
    requires |Visited(project, start, chain)| == |chain|
    ensures EndFile(project, start, chain[..k + 1]) == Visited(project, start, chain)[k]
    decreases k
  {
    var rest := chain[1..];
    var target := chain[0].target.value;
    VisitedMeaning(project, target, rest);
    assert chain[..k + 1][1..] == rest[..k];
    if k == 0 {
    } else {
      VisitedIsEnd(project, target, rest, k - 1);
    }
  }

  /** The location of a chain depends on its end and on the segments it adds. */
  lemma SameLocation(project: Project, seed: Mount, c: seq<Use>, d: seq<Use>)
    requires IsChain(project, seed.file, c) && IsChain(project, seed.file, d) && c != [] && d != []
    requires EndFile(project, seed.file, c) == EndFile(project, seed.file, d)
    requires AddedSegments(c) == AddedSegments(d)
    ensures At(Follow(project, seed, c)) == At(Follow(project, seed, d))
  {
    FollowPrefix(project, seed, c);
    FollowPrefix(project, seed, d);
    FollowFile(project, seed, c);
    FollowFile(project, seed, d);
  }

  lemma LoopAddsNothing(project: Project, seeds: seq<Mount>, seed: Mount, approach: seq<Use>, cycle: seq<Use>)
    requires !HasGrowingCycle(project, seeds) && seed in seeds
    requires IsChain(project, seed.file, approach) && IsChain(project, EndFile(project, seed.file, approach), cycle)
    requires EndFile(project, EndFile(project, seed.file, approach), cycle) == EndFile(project, seed.file, approach)
    ensures AddedSegments(cycle) == []
  {
    assert IsGrowingCycle(project, seed, approach, cycle) || AddedSegments(cycle) == [];
  }

  /** Cutting a loop out of a chain. */
  lemma CutLoop(project: Project, seeds: seq<Mount>, seed: Mount, approach: seq<Use>, cycle: seq<Use>, tail: seq<Use>)
    requires !HasGrowingCycle(project, seeds) && seed in seeds && approach != []
    requires IsChain(project, seed.file, approach) && IsChain(project, EndFile(project, seed.file, approach), cycle)
    requires EndFile(project, EndFile(project, seed.file, approach), cycle) == EndFile(project, seed.file, approach)
    requires IsChain(project, EndFile(project, seed.file, approach), tail)
    ensures IsChain(project, seed.file, approach + tail) && IsChain(project, seed.file, approach + cycle + tail)
    ensures At(Follow(project, seed, approach + tail))
         == At(Follow(project, seed, approach + cycle + tail))
  {
    LoopAddsNothing(project, seeds, seed, approach, cycle);
    ChainConcat(project, seed.file, approach, cycle);
    ChainConcat(project, seed.file, approach + cycle, tail);
    ChainConcat(project, seed.file, approach, tail);
    assert AddedSegments(approach) + [] == AddedSegments(approach);
    SameLocation(project, seed, approach + tail, approach + cycle + tail);
  }

  /** A chain that visits a file twice, as approach, loop and tail. */
  lemma SplitLoop(project: Project, start: File, chain: seq<Use>, i: nat, j: nat)
    requires IsChain(project, start, chain) && i < j < |chain|
    requires |Visited(project, start, chain)| == |chain| && Visited(project, start, chain)[i] == Visited(project, start, chain)[j]
    ensures chain == chain[..i + 1] + chain[i + 1..j + 1] + chain[j + 1..]
    ensures IsChain(project, start, chain[..i + 1])
    ensures var f := EndFile(project, start, chain[..i + 1]);
            && IsChain(project, f, chain[i + 1..j + 1])
            && EndFile(project, f, chain[i + 1..j + 1]) == f
            && IsChain(project, f, chain[j + 1..])
  {
    var first := chain[..j + 1];
    ChainSplit(project, start, chain, j + 1);
    ChainSplit(project, start, first, i + 1);
    assert first[..i + 1] == chain[..i + 1] && first[i + 1..] == chain[i + 1..j + 1];
    assert first == chain[..i + 1] + chain[i + 1..j + 1];
    ChainConcat(project, start, chain[..i + 1], chain[i + 1..j + 1]);
    VisitedIsEnd(project, start, chain, i);
    VisitedIsEnd(project, start, chain, j);
  }

  /** Without growing cycles, chains of as many calls as there are route files reach everything. */
  lemma {:induction false} Shorten(project: Project, seeds: seq<Mount>, seed: Mount, chain: seq<Use>)
    requires !HasGrowingCycle(project, seeds)
    requires seed in seeds && IsChain(project, seed.file, chain)
    ensures exists short :: IsReachedBy(project, seeds, seed, short, At(Follow(project, seed, chain))) && |short| <= |project.routeFiles|
    decreases |chain|
  {
    if |chain| <= |project.routeFiles| {
      assert IsReachedBy(project, seeds, seed, chain, At(Follow(project, seed, chain)));
    } else {
      var visited := Visited(project, seed.file, chain);
      VisitedMeaning(project, seed.file, chain);
      Pigeonhole(visited, project.routeFiles);
      var i, j :| 0 <= i < j < |visited| && visited[i] == visited[j];
      SplitLoop(project, seed.file, chain, i, j);
      CutLoop(project, seeds, seed, chain[..i + 1], chain[i + 1..j + 1], chain[j + 1..]);
      Shorten(project, seeds, seed, chain[..i + 1] + chain[j + 1..]);
    }
  }

  lemma NoGrowingCycleSettles(project: Project, seeds: seq<Mount>)
    requires !HasGrowingCycle(project, seeds)
    ensures Settles(project, seeds)
  {
    var n := |project.routeFiles|;
    var universe := Locations(project, seeds, n);
    forall k | 0 <= k < |seeds| ensures At(seeds[k]) in universe {
      ChainInLocations(project, seeds, n, seeds[k], []);
    }
    forall location, use | location in universe && CanStep(project, location.0, use)
      ensures StepAt(location, use) in universe
    {
      LocationsReached(project, seeds, n, location);
      ReachedStep(project, seeds, location, use, n);
      var seed, chain :| IsReachedBy(project, seeds, seed, chain, StepAt(location, use)) && |chain| <= n + 1;
      Shorten(project, seeds, seed, chain);
      var short :| IsReachedBy(project, seeds, seed, short, StepAt(location, use)) && |short| <= n;
      ChainInLocations(project, seeds, n, seed, short);
    }
    assert IsClosed(project, seeds, universe);
  }

  // ----- A growing cycle never settles -----

  lemma {:induction false} ReachedStaysInside(project: Project, seeds: seq<Mount>, universe: set<Location>, seed: Mount, chain: seq<Use>)
    requires IsClosed(project, seeds, universe)
    requires seed in seeds && IsChain(project, seed.file, chain)
    ensures At(Follow(project, seed, chain)) in universe
    decreases |chain|
  {
    if chain == [] {
      var k :| 0 <= k < |seeds| && seeds[k] == seed;
      assert At(seeds[k]) in universe;
    } else {
      LastStep(project, seed, chain);
      var init, use :| IsLastStep(project, seed, chain, init, use);
      ReachedStaysInside(project, seeds, universe, seed, init);
    }
  }

  ghost function Times(cycle: seq<Use>, n: nat): seq<Use> {
    if n == 0 then [] else Times(cycle, n - 1) + cycle
  }

  lemma {:induction false} GoingRound(project: Project, seed: Mount, approach: seq<Use>, cycle: seq<Use>, n: nat)
    requires IsGrowingCycle(project, seed, approach, cycle)
    ensures IsChain(project, seed.file, approach + Times(cycle, n))
    ensures EndFile(project, seed.file, approach + Times(cycle, n))
         == EndFile(project, seed.file, approach)
    ensures AddedSegments(approach + Times(cycle, n))
         == AddedSegments(approach) + AddedRepeatedly(AddedSegments(cycle), n)
    decreases n
  {
    if n == 0 {
      assert approach + [] == approach;
      assert AddedSegments(approach) + [] == AddedSegments(approach);
    } else {
      var before := approach + Times(cycle, n - 1);
      GoingRound(project, seed, approach, cycle, n - 1);
      ChainConcat(project, seed.file, before, cycle);
      Associative(approach, Times(cycle, n - 1), cycle);
      Associative(AddedSegments(approach), AddedRepeatedly(AddedSegments(cycle), n - 1), AddedSegments(cycle));
    }
  }

  ghost function AddedRepeatedly(segments: seq<string>, n: nat): seq<string> {
    if n == 0 then [] else AddedRepeatedly(segments, n - 1) + segments
  }

  lemma {:induction false} RepeatingLengthens(segments: seq<string>, m: nat, n: nat)
    requires segments != [] && m < n
    ensures |AddedRepeatedly(segments, m)| < |AddedRepeatedly(segments, n)|
    decreases n
  {
    if m < n - 1 {
      RepeatingLengthens(segments, m, n - 1);
    }
  }

  /** The location after going round `n` times. */
  ghost function RoundLocation(project: Project, seed: Mount, approach: seq<Use>, cycle: seq<Use>, n: nat): Location
    requires IsGrowingCycle(project, seed, approach, cycle)
  {
    GoingRound(project, seed, approach, cycle, n);
    At(Follow(project, seed, approach + Times(cycle, n)))
  }

  lemma RoundSegments(project: Project, seed: Mount, approach: seq<Use>, cycle: seq<Use>, n: nat)
    requires IsGrowingCycle(project, seed, approach, cycle)
    ensures Segments(RoundLocation(project, seed, approach, cycle, n).1)
         == Segments(seed.prefix) + (AddedSegments(approach) + AddedRepeatedly(AddedSegments(cycle), n))
  {
    GoingRound(project, seed, approach, cycle, n);
    FollowSegments(project, seed, approach + Times(cycle, n));
  }

  lemma RoundsDiffer(project: Project, seed: Mount, approach: seq<Use>, cycle: seq<Use>, m: nat, n: nat)
    requires IsGrowingCycle(project, seed, approach, cycle) && m < n
    ensures RoundLocation(project, seed, approach, cycle, m) != RoundLocation(project, seed, approach, cycle, n)
  {
    RoundSegments(project, seed, approach, cycle, m);
    RoundSegments(project, seed, approach, cycle, n);
    RepeatingLengthens(AddedSegments(cycle), m, n);
  }

  lemma GrowingCycleNeverSettles(project: Project, seeds: seq<Mount>)
    requires HasGrowingCycle(project, seeds)
    ensures !Settles(project, seeds)
  {
    var seed, approach, cycle :| seed in seeds && IsGrowingCycle(project, seed, approach, cycle);
    forall universe ensures !IsClosed(project, seeds, universe) {
      if IsClosed(project, seeds, universe) {
        var rounds := seq(|universe| + 1, n requires 0 <= n => RoundLocation(project, seed, approach, cycle, n));
        forall n | 0 <= n < |rounds| ensures rounds[n] in universe {
          GoingRound(project, seed, approach, cycle, n);
          ReachedStaysInside(project, seeds, universe, seed, approach + Times(cycle, n));
        }
        Pigeonhole(rounds, universe);
        var i, j :| 0 <= i < j < |rounds| && rounds[i] == rounds[j];
        RoundsDiffer(project, seed, approach, cycle, i, j);
      }
    }
  }

  /** The worklist has finitely many locations to find iff every reachable loop of calls leaves the prefix alone. */
  lemma SettlesIffNoGrowingCycle(project: Project, seeds: seq<Mount>)
    ensures Settles(project, seeds) <==> !HasGrowingCycle(project, seeds)
  {
    if HasGrowingCycle(project, seeds) {
      GrowingCycleNeverSettles(project, seeds);
    } else {
      NoGrowingCycleSettles(project, seeds);
    }
  }

  /** Locations that hold the seeds, and with a location the targets of all calls in its file. */
  ghost predicate AreClosed(project: Project, seeds: seq<Mount>, locations: set<Location>) {
    && (forall seed :: seed in seeds ==> (seed.file, seed.prefix) in locations)
    && forall f, prefix, use: Use ::
         (f, prefix) in locations && f in project.uses && use in project.uses[f] && use.target.Some? && use.target.value in project.routeFiles ==>
           (use.target.value, Normalize(prefix, use.localPath)) in locations
  }

  lemma ClosedIff(project: Project, seeds: seq<Mount>, locations: set<Location>)
    ensures IsClosed(project, seeds, locations) <==> AreClosed(project, seeds, locations)
  {
    if IsClosed(project, seeds, locations) {
      forall seed | seed in seeds ensures (seed.file, seed.prefix) in locations {
        var k :| 0 <= k < |seeds| && seeds[k] == seed;
        assert At(seeds[k]) in locations;
      }
      forall f, prefix, use: Use |
        (f, prefix) in locations && f in project.uses && use in project.uses[f] && use.target.Some? && use.target.value in project.routeFiles
        ensures (use.target.value, Normalize(prefix, use.localPath)) in locations
      {
        assert CanStep(project, (f, prefix).0, use) && StepAt((f, prefix), use) in locations;
      }
    }
    if AreClosed(project, seeds, locations) {
      forall location: Location, use | location in locations && CanStep(project, location.0, use) ensures StepAt(location, use) in locations {
        assert (location.0, location.1) in locations;
      }
    }
  }

  /** The same, with the closed set read off the calls of the project. */
  lemma SettlesOnCallsIff(project: Project, seeds: seq<Mount>)
    ensures (exists locations :: AreClosed(project, seeds, locations)) <==> !HasGrowingCycle(project, seeds)
  {
    SettlesIffNoGrowingCycle(project, seeds);
    if locations :| AreClosed(project, seeds, locations) {
      ClosedIff(project, seeds, locations);
    }
    if universe :| IsClosed(project, seeds, universe) {
      ClosedIff(project, seeds, universe);
    }
  }

  // ----- A project that never settles -----

  const SELF_MOUNT: Use := Use(Some("a"), "/x", [], [])
  const SELF_MOUNTING: Project := Project({"a"}, map["a" := [SELF_MOUNT]])
  const SELF_SEED: Mount := Mount("a", "/api", [], [])

  lemma OneSegment()
    ensures Segments("/x") == ["x"]
  {
    assert "/x"[1..] == "x" && "x"[1..] == "" && "" + ['x'] == "x";
    assert Segments("/x") == Piece("") + SegmentsAfter("", "x");
    assert SegmentsAfter("", "x") == SegmentsAfter("x", "") == ["x"];
  }

  /** A route file that mounts itself at "/x": every round adds a segment to the prefix. */
  lemma SelfMountNeverSettles()
    ensures HasGrowingCycle(SELF_MOUNTING, [SELF_SEED]) && !Settles(SELF_MOUNTING, [SELF_SEED])
  {
    var cycle := [SELF_MOUNT];
    assert cycle[1..] == [] && CanStep(SELF_MOUNTING, "a", SELF_MOUNT);
    assert IsChain(SELF_MOUNTING, "a", []) && IsChain(SELF_MOUNTING, "a", cycle);
    OneSegment();
    assert AddedSegments(cycle) == Segments("/x") + AddedSegments([]);
    assert IsGrowingCycle(SELF_MOUNTING, SELF_SEED, [], cycle);
    assert SELF_SEED in [SELF_SEED];
    SettlesIffNoGrowingCycle(SELF_MOUNTING, [SELF_SEED]);
  }
}
