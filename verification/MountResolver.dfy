/**
 The worklist itself.  It ends whenever no reachable loop of calls lengthens the prefix, and then
 records exactly the reachable locations, each with what a shortest chain of calls inherits.
 */
module MountResolver {
  import opened Options
  import opened RoutePath
  import opened TextOrder
  import opened Mounts
  import opened MountSettling

  /** The chain of calls that a queued mount was found by. */
  datatype Origin = Origin(seed: Mount, chain: seq<Use>)

  ghost predicate IsOrigin(project: Project, seeds: seq<Mount>, origin: Origin, mount: Mount) {
    origin.seed in seeds && IsChain(project, origin.seed.file, origin.chain) && mount == Follow(project, origin.seed, origin.chain)
  }

  ghost predicate IsTraced(project: Project, seeds: seq<Mount>, queue: seq<Mount>, origins: seq<Origin>) {
    && |origins| == |queue|
    && forall k :: 0 <= k < |queue| ==> IsOrigin(project, seeds, origins[k], queue[k])
  }

  ghost predicate StartsWith(seeds: seq<Mount>, queue: seq<Mount>, origins: seq<Origin>) {
    && |seeds| <= |queue| == |origins|
    && forall k :: 0 <= k < |seeds| ==> queue[k] == seeds[k] && origins[k].chain == []
  }

  ghost predicate ShortestFirst(origins: seq<Origin>) {
    forall i, j :: 0 <= i < j < |origins| ==> |origins[i].chain| <= |origins[j].chain|
  }

  /** From entry `n` on, every location is a new one. */
  ghost predicate NewFrom(queue: seq<Mount>, n: nat) {
    forall i, j :: 0 <= i < j < |queue| && n <= j ==> At(queue[i]) != At(queue[j])
  }

  /** The queue: the seeds, then mounts at new locations, in order of the length of their chains. */
  ghost predicate IsQueue(project: Project, seeds: seq<Mount>, queue: seq<Mount>, origins: seq<Origin>) {
    && IsTraced(project, seeds, queue, origins)
    && StartsWith(seeds, queue, origins)
    && ShortestFirst(origins)
    && NewFrom(queue, |seeds|)
  }

  ghost predicate IsFoundWithin(queue: seq<Mount>, origins: seq<Origin>, location: Location, n: nat)
    requires |origins| == |queue|
  {
    exists k :: 0 <= k < |queue| && At(queue[k]) == location && |origins[k].chain| <= n
  }

  /** The target of the call, made in the file of entry `k`, is in the queue. */
  ghost predicate IsUseDone(project: Project, queue: seq<Mount>, origins: seq<Origin>, k: nat, use: Use)
    requires |origins| == |queue| && k < |queue|
  {
    CanStep(project, queue[k].file, use) ==>
      IsFoundWithin(queue, origins, StepAt(At(queue[k]), use), |origins[k].chain| + 1)
  }

  ghost predicate IsProcessed(project: Project, queue: seq<Mount>, origins: seq<Origin>, n: nat)
    requires |origins| == |queue| && n <= |queue|
  {
    forall k, use :: 0 <= k < n ==> IsUseDone(project, queue, origins, k, use)
  }

  /** No entry lies more than one call beyond entry `index`. */
  ghost predicate IsFrontier(queue: seq<Mount>, origins: seq<Origin>, index: nat)
    requires |origins| == |queue|
  {
    forall k :: 0 <= k < |queue| && index < |queue| ==> |origins[k].chain| <= |origins[index].chain| + 1
  }

  lemma SeedsAreQueue(project: Project, seeds: seq<Mount>)
    ensures IsQueue(project, seeds, seeds, SeedOrigins(seeds))
  {
  }

  ghost function SeedOrigins(seeds: seq<Mount>): seq<Origin> {
    seq(|seeds|, k requires 0 <= k < |seeds| => Origin(seeds[k], []))
  }

  lemma AppendLongest(queue: seq<Mount>, origins: seq<Origin>, index: nat, mount: Mount, origin: Origin)
    requires |origins| == |queue| && index < |queue| && ShortestFirst(origins) && IsFrontier(queue, origins, index)
    requires |origin.chain| == |origins[index].chain| + 1
    ensures ShortestFirst(origins + [origin]) && IsFrontier(queue + [mount], origins + [origin], index)
  {
    assert forall k :: 0 <= k < |queue| ==> |origins[k].chain| <= |origin.chain|;
  }

  /** The chain of an entry, with one more call. */
  lemma OriginStep(project: Project, seeds: seq<Mount>, origin: Origin, mount: Mount, use: Use)
    requires IsOrigin(project, seeds, origin, mount) && CanStep(project, mount.file, use)
    ensures IsOrigin(project, seeds, Origin(origin.seed, origin.chain + [use]), Next(mount, use))
  {
    FollowStep(project, origin.seed, origin.chain, use);
  }

  /** Queueing a mount at a new location, one call beyond entry `index`. */
  lemma Push(project: Project, seeds: seq<Mount>, queue: seq<Mount>, origins: seq<Origin>, index: nat, mount: Mount, origin: Origin)
    requires IsQueue(project, seeds, queue, origins) && index < |queue| && IsFrontier(queue, origins, index)
    requires IsOrigin(project, seeds, origin, mount) && |origin.chain| == |origins[index].chain| + 1
    requires !Recorded(queue, At(mount))
    ensures IsQueue(project, seeds, queue + [mount], origins + [origin])
    ensures IsFrontier(queue + [mount], origins + [origin], index)
  {
    AppendLongest(queue, origins, index, mount, origin);
  }

  lemma DoneStaysDone(project: Project, queue: seq<Mount>, origins: seq<Origin>, queue': seq<Mount>, origins': seq<Origin>, k: nat, use: Use)
    requires |origins| == |queue| && |origins'| == |queue'| && queue <= queue' && origins <= origins' && k < |queue|
    requires IsUseDone(project, queue, origins, k, use)
    ensures IsUseDone(project, queue', origins', k, use)
  {
    assert queue'[k] == queue[k] && origins'[k] == origins[k];
  }

  lemma ProcessedStaysProcessed(project: Project, queue: seq<Mount>, origins: seq<Origin>, queue': seq<Mount>, origins': seq<Origin>, n: nat)
    requires |origins| == |queue| && |origins'| == |queue'| && queue <= queue' && origins <= origins' && n <= |queue|
    requires IsProcessed(project, queue, origins, n)
    ensures IsProcessed(project, queue', origins', n)
  {
    forall k, use | 0 <= k < n ensures IsUseDone(project, queue', origins', k, use) {
      assert IsUseDone(project, queue, origins, k, use);
      DoneStaysDone(project, queue, origins, queue', origins', k, use);
    }
  }

  /** The locations found beyond the first `n` entries. */
  ghost function NewLocations(queue: seq<Mount>, n: nat): seq<Location>
    requires n <= |queue|
  {
    seq(|queue| - n, k requires 0 <= k < |queue| - n => At(queue[n + k]))
  }

  lemma NewLocationsDiffer(queue: seq<Mount>, n: nat, i: nat, j: nat)
    requires n <= |queue| && NewFrom(queue, n) && i < j < |NewLocations(queue, n)|
    ensures NewLocations(queue, n)[i] != NewLocations(queue, n)[j]
  {
    assert At(queue[n + i]) != At(queue[n + j]);
  }

  lemma QueuedStaysInside(project: Project, seeds: seq<Mount>, queue: seq<Mount>, origins: seq<Origin>, universe: set<Location>, k: nat)
    requires IsTraced(project, seeds, queue, origins) && IsClosed(project, seeds, universe) && k < |queue|
    ensures At(queue[k]) in universe
  {
    assert IsOrigin(project, seeds, origins[k], queue[k]);
    ReachedStaysInside(project, seeds, universe, origins[k].seed, origins[k].chain);
  }

  /** The queue never outgrows the seeds and the locations of a closed set. */
  lemma QueueIsBounded(project: Project, seeds: seq<Mount>, queue: seq<Mount>, origins: seq<Origin>, universe: set<Location>)
    requires IsQueue(project, seeds, queue, origins) && IsClosed(project, seeds, universe)
    ensures |queue| <= |seeds| + |universe|
  {
    var n := |seeds|;
    var found := NewLocations(queue, n);
    if |found| > |universe| {
      forall k | 0 <= k < |found| ensures found[k] in universe {
        QueuedStaysInside(project, seeds, queue, origins, universe, n + k);
      }
      Pigeonhole(found, universe);
      var i, j :| 0 <= i < j < |found| && found[i] == found[j];
      NewLocationsDiffer(queue, n, i, j);
    }
  }

  lemma GroupedAppend(mounts: seq<Mount>, mount: Mount)
    ensures Grouped(mounts + [mount]) == AddMount(Grouped(mounts), mount)
  {
    assert (mounts + [mount])[..|mounts|] == mounts;
  }

  lemma PushedIsDone(project: Project, queue: seq<Mount>, origins: seq<Origin>, index: nat, use: Use, origin: Origin)
    requires |origins| == |queue| && index < |queue| && use.target.Some?
    requires |origin.chain| == |origins[index].chain| + 1
    ensures IsUseDone(project, queue + [Next(queue[index], use)], origins + [origin], index, use)
  {
    var next := Next(queue[index], use);
    var queue', origins' := queue + [next], origins + [origin];
    assert At(queue'[|queue|]) == StepAt(At(queue[index]), use) && origins'[|queue|] == origin;
  }

  /** A call in the file of one mount gives the other: target, joined path, and what both add. */
  ghost predicate IsMountedBy(project: Project, from: Mount, use: Use, to: Mount) {
    && from.file in project.uses && use in project.uses[from.file]
    && use.target == Some(to.file) && to.file in project.routeFiles
    && to.prefix == Normalize(from.prefix, use.localPath)
    && to.permissions == Unique(from.permissions + use.permissions)
    && to.auth == Unique(from.auth + use.auth)
  }

  ghost predicate HasCaller(project: Project, queue: seq<Mount>, k: nat)
    requires k < |queue|
  {
    exists j: nat, use :: j < k && IsMountedBy(project, queue[j], use, queue[k])
  }

  /** Behind the seeds, every entry comes from a call in the file of an earlier one. */
  ghost predicate IsGrown(project: Project, seeds: seq<Mount>, queue: seq<Mount>) {
    forall k :: |seeds| <= k < |queue| ==> HasCaller(project, queue, k)
  }

  lemma CallerStays(project: Project, queue: seq<Mount>, longer: seq<Mount>, k: nat)
    requires k < |queue| && queue <= longer && HasCaller(project, queue, k)
    ensures HasCaller(project, longer, k)
  {
    var j: nat, use :| j < k && IsMountedBy(project, queue[j], use, queue[k]);
    assert longer[j] == queue[j] && longer[k] == queue[k];
  }

  lemma GrowsBy(project: Project, seeds: seq<Mount>, queue: seq<Mount>, index: nat, use: Use, next: Mount)
    requires IsGrown(project, seeds, queue) && index < |queue| && IsMountedBy(project, queue[index], use, next)
    ensures IsGrown(project, seeds, queue + [next])
  {
    var longer := queue + [next];
    assert longer[index] == queue[index] && longer[|queue|] == next;
    assert HasCaller(project, longer, |queue|);
    forall k | |seeds| <= k < |queue| ensures HasCaller(project, longer, k) {
      CallerStays(project, queue, longer, k);
    }
  }

  /** The worklist while the loop is at entry `index`: the queue, grouped by file, with nothing far ahead. */
  ghost predicate IsUnderWay(project: Project, seeds: seq<Mount>, queue: seq<Mount>, byFile: map<File, seq<Mount>>, origins: seq<Origin>, index: nat) {
    && IsQueue(project, seeds, queue, origins) && IsGrown(project, seeds, queue)
    && index < |queue| && IsFrontier(queue, origins, index)
    && byFile == Grouped(queue)
  }

  /** One call: its target is queued unless its location is recorded already. */
  method MountUse(project: Project, ghost seeds: seq<Mount>, index: nat, use: Use, before: seq<Mount>, grouped: map<File, seq<Mount>>,
                  ghost originsBefore: seq<Origin>)
      returns (queue: seq<Mount>, byFile: map<File, seq<Mount>>, ghost origins: seq<Origin>)
    requires IsUnderWay(project, seeds, before, grouped, originsBefore, index)
    requires before[index].file in project.uses && use in project.uses[before[index].file]
    ensures before <= queue && byFile == Grouped(queue)
    ensures IsUnderWay(project, seeds, queue, byFile, origins, index) && originsBefore <= origins
    ensures IsUseDone(project, queue, origins, index, use)
  {
    queue, byFile, origins := before, grouped, originsBefore;
    if use.target.None? || use.target.value !in project.routeFiles {
      return;
    }
    var next := Next(before[index], use);
    HasMountMeaning(before, next);
    if HasMount(byFile, next) {
      return;
    }
    GroupedAppend(before, next);
    GrowsBy(project, seeds, before, index, use, next);
    ghost var origin := Origin(originsBefore[index].seed, originsBefore[index].chain + [use]);
    OriginStep(project, seeds, originsBefore[index], before[index], use);
    Push(project, seeds, before, originsBefore, index, next, origin);
    PushedIsDone(project, before, originsBefore, index, use, origin);
    byFile := AddMount(byFile, next);
    queue, origins := before + [next], originsBefore + [origin];
  }

  ghost predicate AreUsesDone(project: Project, queue: seq<Mount>, origins: seq<Origin>, index: nat, uses: seq<Use>)
    requires |origins| == |queue| && index < |queue|
  {
    forall use :: use in uses ==> IsUseDone(project, queue, origins, index, use)
  }

  lemma OneMoreUseDone(project: Project, queue: seq<Mount>, origins: seq<Origin>, queue': seq<Mount>, origins': seq<Origin>,
                       index: nat, uses: seq<Use>, u: nat)
    requires |origins| == |queue| && |origins'| == |queue'| && queue <= queue' && origins <= origins' && index < |queue|
    requires u < |uses| && AreUsesDone(project, queue, origins, index, uses[..u])
    requires IsUseDone(project, queue', origins', index, uses[u])
    ensures AreUsesDone(project, queue', origins', index, uses[..u + 1])
  {
    assert uses[..u + 1] == uses[..u] + [uses[u]];
    forall use | use in uses[..u + 1] ensures IsUseDone(project, queue', origins', index, use) {
      if use != uses[u] {
        DoneStaysDone(project, queue, origins, queue', origins', index, use);
      }
    }
  }

  /** The body of the worklist loop: the calls made in the file of entry `index`. */
  method MountUses(project: Project, ghost seeds: seq<Mount>, index: nat, before: seq<Mount>, grouped: map<File, seq<Mount>>,
                   ghost originsBefore: seq<Origin>)
      returns (queue: seq<Mount>, byFile: map<File, seq<Mount>>, ghost origins: seq<Origin>)
    requires IsUnderWay(project, seeds, before, grouped, originsBefore, index)
    requires IsProcessed(project, before, originsBefore, index)
    ensures before <= queue && byFile == Grouped(queue)
    ensures IsUnderWay(project, seeds, queue, byFile, origins, index) && originsBefore <= origins
    ensures IsProcessed(project, queue, origins, index + 1)
  {
    queue, byFile, origins := before, grouped, originsBefore;
    var file := before[index].file;
    if file !in project.uses {
      ProcessedOne(project, before, originsBefore, queue, origins, index);
      return;
    }
    var uses := project.uses[file];
    for u := 0 to |uses|
      invariant IsUnderWay(project, seeds, queue, byFile, origins, index)
      invariant before <= queue && originsBefore <= origins
      invariant AreUsesDone(project, queue, origins, index, uses[..u])
    {
      ghost var queued, traced := queue, origins;
      queue, byFile, origins := MountUse(project, seeds, index, uses[u], queue, byFile, origins);
      OneMoreUseDone(project, queued, traced, queue, origins, index, uses, u);
    }
    assert uses[..|uses|] == uses;
    ProcessedOne(project, before, originsBefore, queue, origins, index);
  }

  lemma ProcessedOne(project: Project, before: seq<Mount>, originsBefore: seq<Origin>, queue: seq<Mount>, origins: seq<Origin>, index: nat)
    requires |originsBefore| == |before| && |origins| == |queue| && before <= queue && originsBefore <= origins && index < |before|
    requires IsProcessed(project, before, originsBefore, index)
    requires queue[index].file in project.uses ==>
               AreUsesDone(project, queue, origins, index, project.uses[queue[index].file])
    ensures IsProcessed(project, queue, origins, index + 1)
  {
    ProcessedStaysProcessed(project, before, originsBefore, queue, origins, index);
    assert forall use :: IsUseDone(project, queue, origins, index, use);
  }

  /** A recorded mount is what a chain of calls gives, and no chain to its location is shorter. */
  ghost predicate IsShortest(project: Project, seeds: seq<Mount>, mount: Mount, origin: Origin) {
    && IsOrigin(project, seeds, origin, mount)
    && forall seed, chain :: IsReachedBy(project, seeds, seed, chain, At(mount)) ==> |origin.chain| <= |chain|
  }

  lemma {:induction false} QueueIsComplete(project: Project, seeds: seq<Mount>, queue: seq<Mount>, origins: seq<Origin>, seed: Mount, chain: seq<Use>)
    requires IsQueue(project, seeds, queue, origins) && IsProcessed(project, queue, origins, |queue|)
    requires seed in seeds && IsChain(project, seed.file, chain)
    ensures IsFoundWithin(queue, origins, At(Follow(project, seed, chain)), |chain|)
    decreases |chain|
  {
    if chain == [] {
      var k :| 0 <= k < |seeds| && seeds[k] == seed;
      assert At(queue[k]) == At(seed);
    } else {
      LastStep(project, seed, chain);
      var init, use :| IsLastStep(project, seed, chain, init, use);
      QueueIsComplete(project, seeds, queue, origins, seed, init);
      var end := Follow(project, seed, init);
      var k :| 0 <= k < |queue| && At(queue[k]) == At(end) && |origins[k].chain| <= |init|;
      assert IsUseDone(project, queue, origins, k, use);
      var l :| 0 <= l < |queue| && At(queue[l]) == StepAt(At(queue[k]), use) && |origins[l].chain| <= |origins[k].chain| + 1;
    }
  }

  lemma NewLocationIsUnique(project: Project, seeds: seq<Mount>, queue: seq<Mount>, origins: seq<Origin>, k: nat, l: nat)
    requires IsQueue(project, seeds, queue, origins)
    requires |seeds| <= k < |queue| && l < |queue| && At(queue[k]) == At(queue[l])
    ensures k == l
  {
  }

  lemma QueueIsShortest(project: Project, seeds: seq<Mount>, queue: seq<Mount>, origins: seq<Origin>, k: nat)
    requires IsQueue(project, seeds, queue, origins) && IsProcessed(project, queue, origins, |queue|)
    requires k < |queue|
    ensures IsShortest(project, seeds, queue[k], origins[k])
  {
    forall seed, chain | IsReachedBy(project, seeds, seed, chain, At(queue[k])) ensures |origins[k].chain| <= |chain| {
      if k >= |seeds| {
        QueueIsComplete(project, seeds, queue, origins, seed, chain);
        var l :| 0 <= l < |queue| && At(queue[l]) == At(queue[k]) && |origins[l].chain| <= |chain|;
        NewLocationIsUnique(project, seeds, queue, origins, k, l);
      }
    }
  }

  ghost predicate AreDistinct(mounts: seq<Mount>) {
    forall i, j :: 0 <= i < j < |mounts| ==> At(mounts[i]) != At(mounts[j])
  }

  lemma {:induction false} GroupedDistinct(mounts: seq<Mount>)
    requires AreDistinct(mounts)
    ensures forall f :: f in Grouped(mounts) ==> AreDistinct(Grouped(mounts)[f])
    decreases |mounts|
  {
    if mounts == [] {
    } else {
      var n := |mounts| - 1;
      GroupedDistinct(mounts[..n]);
      GroupedMeaning(mounts[..n]);
      var before, mount := Grouped(mounts[..n]), mounts[n];
      if mount.file in before {
        forall i | 0 <= i < |before[mount.file]| ensures At(before[mount.file][i]) != At(mount) {
          assert before[mount.file][i] in mounts[..n];
        }
      }
    }
  }

  /** The first loop: every seed is recorded. */
  method AddSeeds(seeds: seq<Mount>) returns (byFile: map<File, seq<Mount>>)
    ensures byFile == Grouped(seeds)
  {
    byFile := map[];
    for k := 0 to |seeds|
      invariant byFile == Grouped(seeds[..k])
    {
      byFile := AddMount(byFile, seeds[k]);
      assert seeds[..k + 1][..k] == seeds[..k];
    }
    assert seeds[..|seeds|] == seeds;
  }

  /** Sound: each recorded mount comes from a seed by a shortest chain of calls. */
  ghost predicate IsSound(project: Project, seeds: seq<Mount>, byFile: map<File, seq<Mount>>) {
    forall f, m: Mount :: f in byFile && m in byFile[f] ==>
      m.file == f && exists origin :: IsShortest(project, seeds, m, origin)
  }

  /** Complete: whatever a chain of calls reaches is recorded at its file, with its prefix. */
  ghost predicate IsComplete(project: Project, seeds: seq<Mount>, byFile: map<File, seq<Mount>>) {
    forall seed, chain :: seed in seeds && IsChain(project, seed.file, chain) ==>
      HasMount(byFile, Follow(project, seed, chain))
  }

  /** The seeds are recorded, before anything else of their file and in their order. */
  ghost predicate HoldsSeeds(seeds: seq<Mount>, byFile: map<File, seq<Mount>>) {
    && (forall seed :: seed in seeds ==> seed.file in byFile && seed in byFile[seed.file])
    && forall f :: f in byFile ==> OfFile(seeds, f) <= byFile[f]
  }

  ghost predicate IsRecordedAt(byFile: map<File, seq<Mount>>, file: File, prefix: string) {
    file in byFile && exists m :: m in byFile[file] && m.prefix == prefix
  }

  /**
   Whatever is recorded, each call in its file with a route file as its target has that target
   recorded at the joined path.
   */
  ghost predicate FollowsCalls(project: Project, byFile: map<File, seq<Mount>>) {
    forall f, m: Mount, use: Use ::
      f in byFile && m in byFile[f] && f in project.uses && use in project.uses[f] && use.target.Some? && use.target.value in project.routeFiles ==>
        IsRecordedAt(byFile, use.target.value, Normalize(m.prefix, use.localPath))
  }

  ghost predicate IsCalledFor(project: Project, byFile: map<File, seq<Mount>>, m: Mount) {
    exists from: Mount, use :: from.file in byFile && from in byFile[from.file] && IsMountedBy(project, from, use, m)
  }

  /** And nothing else is recorded than seeds, and what such calls of recorded mounts give. */
  ghost predicate HoldsOnlyCalls(project: Project, seeds: seq<Mount>, byFile: map<File, seq<Mount>>) {
    forall f, m: Mount :: f in byFile && m in byFile[f] ==> m.file == f && (m in seeds || IsCalledFor(project, byFile, m))
  }

  lemma CallFollowed(project: Project, seeds: seq<Mount>, queue: seq<Mount>, origins: seq<Origin>, m: Mount, use: Use)
    requires IsQueue(project, seeds, queue, origins) && IsProcessed(project, queue, origins, |queue|) && m in queue
    requires m.file in project.uses && use in project.uses[m.file] && use.target.Some? && use.target.value in project.routeFiles
    ensures exists n :: n in queue && n.file == use.target.value && n.prefix == Normalize(m.prefix, use.localPath)
  {
    var k :| 0 <= k < |queue| && queue[k] == m;
    assert CanStep(project, m.file, use) && IsUseDone(project, queue, origins, k, use);
    var l :| 0 <= l < |queue| && At(queue[l]) == StepAt(At(m), use);
    assert queue[l] in queue;
  }

  lemma QueueFollowsCalls(project: Project, seeds: seq<Mount>, queue: seq<Mount>, origins: seq<Origin>)
    requires IsQueue(project, seeds, queue, origins) && IsProcessed(project, queue, origins, |queue|)
    ensures FollowsCalls(project, Grouped(queue))
  {
    var byFile := Grouped(queue);
    GroupedMeaning(queue);
    forall f, m: Mount, use: Use |
      f in byFile && m in byFile[f] && f in project.uses && use in project.uses[f] && use.target.Some? && use.target.value in project.routeFiles
      ensures IsRecordedAt(byFile, use.target.value, Normalize(m.prefix, use.localPath))
    {
      CallFollowed(project, seeds, queue, origins, m, use);
    }
  }

  lemma EntryIsCalledFor(project: Project, seeds: seq<Mount>, queue: seq<Mount>, m: Mount)
    requires IsGrown(project, seeds, queue) && seeds <= queue && m in queue
    ensures m in seeds || exists from, use :: from in queue && IsMountedBy(project, from, use, m)
  {
    var k :| 0 <= k < |queue| && queue[k] == m;
    if k < |seeds| {
      assert seeds[k] == m;
    } else {
      assert HasCaller(project, queue, k);
      var j: nat, use :| j < k && IsMountedBy(project, queue[j], use, queue[k]);
      assert queue[j] in queue;
    }
  }

  /** What is recorded is in every closed set of locations: calls that only lead to each other bring nothing in. */
  ghost predicate IsLeast(project: Project, seeds: seq<Mount>, byFile: map<File, seq<Mount>>) {
    forall locations :: AreClosed(project, seeds, locations) ==>
      forall f, m: Mount :: f in byFile && m in byFile[f] ==> (f, m.prefix) in locations
  }

  lemma {:induction false} GrownStaysInside(project: Project, seeds: seq<Mount>, queue: seq<Mount>, locations: set<Location>, n: nat)
    requires IsGrown(project, seeds, queue) && seeds <= queue && AreClosed(project, seeds, locations) && n <= |queue|
    ensures forall k :: 0 <= k < n ==> At(queue[k]) in locations
    decreases n
  {
    if n == 0 {
    } else {
      var k := n - 1;
      GrownStaysInside(project, seeds, queue, locations, k);
      if k < |seeds| {
        assert seeds[k] in seeds && queue[k] == seeds[k];
      } else {
        assert HasCaller(project, queue, k);
        var j: nat, use :| j < k && IsMountedBy(project, queue[j], use, queue[k]);
        assert At(queue[j]) in locations;
      }
    }
  }

  /** What is recorded, read off the calls of the project. */
  ghost predicate IsResolved(project: Project, seeds: seq<Mount>, byFile: map<File, seq<Mount>>) {
    && HoldsSeeds(seeds, byFile)
    && FollowsCalls(project, byFile)
    && HoldsOnlyCalls(project, seeds, byFile)
    && IsLeast(project, seeds, byFile)
  }

  lemma QueueHoldsOnlyCalls(project: Project, seeds: seq<Mount>, queue: seq<Mount>)
    requires IsGrown(project, seeds, queue) && seeds <= queue
    ensures HoldsSeeds(seeds, Grouped(queue)) && HoldsOnlyCalls(project, seeds, Grouped(queue))
  {
    var byFile := Grouped(queue);
    GroupedMeaning(queue);
    forall f, m: Mount | f in byFile && m in byFile[f] ensures m.file == f && (m in seeds || IsCalledFor(project, byFile, m)) {
      EntryIsCalledFor(project, seeds, queue, m);
    }
    forall seed | seed in seeds ensures seed in queue {
      var k :| 0 <= k < |seeds| && seeds[k] == seed;
      assert queue[k] == seed;
    }
    forall f | f in byFile ensures OfFile(seeds, f) <= byFile[f] {
      GroupedInOrder(queue, f);
      OfFileGrows(seeds, queue, f);
    }
  }

  lemma QueueIsLeast(project: Project, seeds: seq<Mount>, queue: seq<Mount>)
    requires IsGrown(project, seeds, queue) && seeds <= queue
    ensures IsLeast(project, seeds, Grouped(queue))
  {
    GroupedMeaning(queue);
    forall locations | AreClosed(project, seeds, locations)
      ensures forall f, m: Mount :: f in Grouped(queue) && m in Grouped(queue)[f] ==> (f, m.prefix) in locations
    {
      GrownStaysInside(project, seeds, queue, locations, |queue|);
    }
  }

  lemma QueueIsResolved(project: Project, seeds: seq<Mount>, queue: seq<Mount>, origins: seq<Origin>)
    requires IsQueue(project, seeds, queue, origins) && IsProcessed(project, queue, origins, |queue|) && IsGrown(project, seeds, queue)
    ensures IsResolved(project, seeds, Grouped(queue))
  {
    assert seeds <= queue;
    QueueFollowsCalls(project, seeds, queue, origins);
    QueueHoldsOnlyCalls(project, seeds, queue);
    QueueIsLeast(project, seeds, queue);
  }

  /** The mounts of every route file: exactly the reachable ones, and no location twice. */
  method ResolveMounts(project: Project, seeds: seq<Mount>) returns (byFile: map<File, seq<Mount>>)
    requires !HasGrowingCycle(project, seeds)
    ensures IsSound(project, seeds, byFile)
    ensures IsComplete(project, seeds, byFile)
    ensures IsResolved(project, seeds, byFile)
    ensures AreDistinct(seeds) ==> forall f :: f in byFile ==> AreDistinct(byFile[f])
  {
    SettlesIffNoGrowingCycle(project, seeds);
    ghost var universe :| IsClosed(project, seeds, universe);
    byFile := AddSeeds(seeds);
    var queue := seeds;
    ghost var origins := SeedOrigins(seeds);
    SeedsAreQueue(project, seeds);
    var index := 0;
    while index < |queue|
      invariant index <= |queue| && IsQueue(project, seeds, queue, origins) && byFile == Grouped(queue)
      invariant IsGrown(project, seeds, queue)
      invariant IsFrontier(queue, origins, index) && IsProcessed(project, queue, origins, index)
      decreases |seeds| + |universe| - |queue|, |queue| - index
    {
      QueueIsBounded(project, seeds, queue, origins, universe);
      queue, byFile, origins := MountUses(project, seeds, index, queue, byFile, origins);
      FrontierAdvances(project, seeds, queue, origins, index);
      index := index + 1;
    }
    ResolvedIsExact(project, seeds, queue, origins);
    QueueIsResolved(project, seeds, queue, origins);
  }

  lemma FrontierAdvances(project: Project, seeds: seq<Mount>, queue: seq<Mount>, origins: seq<Origin>, index: nat)
    requires IsQueue(project, seeds, queue, origins) && index < |queue| && IsFrontier(queue, origins, index)
    ensures IsFrontier(queue, origins, index + 1)
  {
  }

  lemma ResolvedIsExact(project: Project, seeds: seq<Mount>, queue: seq<Mount>, origins: seq<Origin>)
    requires IsQueue(project, seeds, queue, origins) && IsProcessed(project, queue, origins, |queue|)
    ensures IsSound(project, seeds, Grouped(queue))
    ensures IsComplete(project, seeds, Grouped(queue))
    ensures AreDistinct(seeds) ==> forall f :: f in Grouped(queue) ==> AreDistinct(Grouped(queue)[f])
  {
    var byFile := Grouped(queue);
    GroupedMeaning(queue);
    forall f, m: Mount | f in byFile && m in byFile[f] ensures m.file == f && exists origin :: IsShortest(project, seeds, m, origin) {
      var k :| 0 <= k < |queue| && queue[k] == m;
      QueueIsShortest(project, seeds, queue, origins, k);
    }
    forall seed, chain | seed in seeds && IsChain(project, seed.file, chain) ensures HasMount(byFile, Follow(project, seed, chain)) {
      QueueIsComplete(project, seeds, queue, origins, seed, chain);
      HasMountMeaning(queue, Follow(project, seed, chain));
    }
    if AreDistinct(seeds) {
      assert AreDistinct(queue);
      GroupedDistinct(queue);
    }
  }

  /** A worklist that has run dry has found a closed set: on a growing loop of calls it never does. */
  lemma DryQueueMeansNoGrowingCycle(project: Project, seeds: seq<Mount>, queue: seq<Mount>, origins: seq<Origin>)
    requires IsQueue(project, seeds, queue, origins) && IsProcessed(project, queue, origins, |queue|)
    ensures !HasGrowingCycle(project, seeds)
  {
    var found := set k | 0 <= k < |queue| :: At(queue[k]);
    forall location, use | location in found && CanStep(project, location.0, use) ensures StepAt(location, use) in found {
      var k :| 0 <= k < |queue| && At(queue[k]) == location;
      assert IsUseDone(project, queue, origins, k, use);
    }
    forall k | 0 <= k < |seeds| ensures At(seeds[k]) in found {
      assert queue[k] == seeds[k];
    }
    assert IsClosed(project, seeds, found);
    SettlesIffNoGrowingCycle(project, seeds);
  }
}
