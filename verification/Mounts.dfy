/**
 The mount resolver of the assistant-coverage audit: a worklist that follows `router.use` calls
 from the seed mounts and records, per route file, every prefix under which it is reachable,
 with the permissions and authentication inherited on the way.
 */
module Mounts {
  import opened Options
  import opened RoutePath
  import opened TextOrder

  // ----- The project under audit -----

  type File = string

  /** One `router.use` call: the file its router comes from (if any), and what the call adds. */
  datatype Use = Use(target: Option<File>, localPath: string, permissions: seq<string>, auth: seq<string>)

  /** The route files, and the `router.use` calls of every file that exists. */
  datatype Project = Project(routeFiles: set<File>, uses: map<File, seq<Use>>)

  datatype Mount = Mount(file: File, prefix: string, permissions: seq<string>, auth: seq<string>)

  /** A call counts when its router comes from a route file. */
  predicate MountsRouter(project: Project, use: Use) {
    use.target.Some? && use.target.value in project.routeFiles
  }

  function Next(current: Mount, use: Use): Mount
    requires use.target.Some?
  {
    Mount(use.target.value,
          Normalize(current.prefix, use.localPath),
          Unique(current.permissions + use.permissions),
          Unique(current.auth + use.auth))
  }

  // ----- Where a mount is: file and prefix -----

  type Location = (File, string)

  function At(mount: Mount): Location {
    (mount.file, mount.prefix)
  }

  function AddMount(byFile: map<File, seq<Mount>>, mount: Mount): map<File, seq<Mount>> {
    byFile[mount.file := (if mount.file in byFile then byFile[mount.file] else []) + [mount]]
  }

  predicate HasMount(byFile: map<File, seq<Mount>>, mount: Mount) {
    mount.file in byFile && exists k | 0 <= k < |byFile[mount.file]| :: byFile[mount.file][k].prefix == mount.prefix
  }

  /** The mounts of a list, grouped by file. */
  function Grouped(mounts: seq<Mount>): map<File, seq<Mount>> {
    if mounts == [] then map[]
    else AddMount(Grouped(mounts[..|mounts| - 1]), mounts[|mounts| - 1])
  }

  ghost predicate Recorded(mounts: seq<Mount>, location: Location) {
    exists k :: 0 <= k < |mounts| && At(mounts[k]) == location
  }

  lemma {:induction false} GroupedMeaning(mounts: seq<Mount>)
    ensures forall f :: f in Grouped(mounts) ==> forall m :: m in Grouped(mounts)[f] ==> m in mounts && m.file == f
    ensures forall m :: m in mounts ==> m.file in Grouped(mounts) && m in Grouped(mounts)[m.file]
    decreases |mounts|
  {
    if mounts == [] {
    } else {
      var n := |mounts| - 1;
      GroupedMeaning(mounts[..n]);
      assert mounts == mounts[..n] + [mounts[n]];
    }
  }

  function OfFile(mounts: seq<Mount>, file: File): seq<Mount> {
    if mounts == [] then []
    else
      var n := |mounts| - 1;
      OfFile(mounts[..n], file) + if mounts[n].file == file then [mounts[n]] else []
  }

  /** Each file has its mounts in the order in which they were added. */
  lemma {:induction false} GroupedInOrder(mounts: seq<Mount>, file: File)
    ensures OfFile(mounts, file) == if file in Grouped(mounts) then Grouped(mounts)[file] else []
    decreases |mounts|
  {
    if mounts == [] {
    } else {
      GroupedInOrder(mounts[..|mounts| - 1], file);
    }
  }

  lemma {:induction false} OfFileGrows(mounts: seq<Mount>, more: seq<Mount>, file: File)
    requires mounts <= more
    ensures OfFile(mounts, file) <= OfFile(more, file)
    decreases |more|
  {
    if |mounts| == |more| {
      assert mounts == more;
    } else {
      OfFileGrows(mounts, more[..|more| - 1], file);
    }
  }

  lemma HasMountMeaning(mounts: seq<Mount>, mount: Mount)
    ensures HasMount(Grouped(mounts), mount) <==> Recorded(mounts, At(mount))
  {
    GroupedMeaning(mounts);
    if HasMount(Grouped(mounts), mount) {
      var group := Grouped(mounts)[mount.file];
      var k :| 0 <= k < |group| && group[k].prefix == mount.prefix;
      assert group[k] in mounts;
    }
    if Recorded(mounts, At(mount)) {
      var k :| 0 <= k < |mounts| && At(mounts[k]) == At(mount);
      assert mounts[k] in Grouped(mounts)[mount.file];
    }
  }

  // ----- Chains of mounts: the meaning of "reachable" -----

  /** Every call of the chain is made in the file that the call before it mounts. */
  ghost predicate IsChain(project: Project, start: File, chain: seq<Use>)
    decreases |chain|
  {
    || chain == []
    || (CanStep(project, start, chain[0]) && IsChain(project, chain[0].target.value, chain[1..]))
  }

  ghost function Follow(project: Project, mount: Mount, chain: seq<Use>): Mount
    requires IsChain(project, mount.file, chain)
    decreases |chain|
  {
    if chain == [] then mount else Follow(project, Next(mount, chain[0]), chain[1..])
  }

  ghost function EndFile(project: Project, start: File, chain: seq<Use>): File
    requires IsChain(project, start, chain)
    decreases |chain|
  {
    if chain == [] then start else EndFile(project, chain[0].target.value, chain[1..])
  }

  /** The segments that the calls of a chain add. */
  ghost function AddedSegments(chain: seq<Use>): seq<string> {
    if chain == [] then [] else Segments(chain[0].localPath) + AddedSegments(chain[1..])
  }

  ghost function AddedPermissions(chain: seq<Use>): seq<string> {
    if chain == [] then [] else chain[0].permissions + AddedPermissions(chain[1..])
  }

  ghost function AddedAuth(chain: seq<Use>): seq<string> {
    if chain == [] then [] else chain[0].auth + AddedAuth(chain[1..])
  }

  lemma {:induction false} ChainConcat(project: Project, start: File, c: seq<Use>, d: seq<Use>)
    requires IsChain(project, start, c) && IsChain(project, EndFile(project, start, c), d)
    ensures IsChain(project, start, c + d)
    ensures EndFile(project, start, c + d) == EndFile(project, EndFile(project, start, c), d)
    ensures AddedSegments(c + d) == AddedSegments(c) + AddedSegments(d)
    decreases |c|
  {
    if c == [] {
      assert c + d == d;
    } else {
      assert (c + d)[1..] == c[1..] + d;
      ChainConcat(project, c[0].target.value, c[1..], d);
    }
  }

  lemma {:induction false} ChainSplit(project: Project, start: File, chain: seq<Use>, k: nat)
    requires IsChain(project, start, chain) && k <= |chain|
    ensures IsChain(project, start, chain[..k])
    ensures IsChain(project, EndFile(project, start, chain[..k]), chain[k..])
    decreases k
  {
    if k == 0 {
      assert chain[..0] == [] && chain[0..] == chain;
    } else {
      var rest := chain[1..];
      ChainSplit(project, chain[0].target.value, rest, k - 1);
      assert chain[..k] == [chain[0]] + rest[..k - 1];
      assert chain[..k][1..] == rest[..k - 1];
      assert chain[k..] == rest[k - 1..];
    }
  }

  /** Every call of a chain leads to a route file. */
  lemma {:induction false} ChainEndsInRouteFile(project: Project, start: File, chain: seq<Use>)
    requires IsChain(project, start, chain) && chain != []
    ensures EndFile(project, start, chain) in project.routeFiles
    decreases |chain|
  {
    if chain[1..] != [] {
      ChainEndsInRouteFile(project, chain[0].target.value, chain[1..]);
    }
  }

  lemma {:induction false} FollowConcat(project: Project, mount: Mount, c: seq<Use>, d: seq<Use>)
    requires IsChain(project, mount.file, c) && IsChain(project, mount.file, c + d)
    requires IsChain(project, Follow(project, mount, c).file, d)
    ensures Follow(project, mount, c + d) == Follow(project, Follow(project, mount, c), d)
    decreases |c|
  {
    if c == [] {
      assert c + d == d;
    } else {
      assert (c + d)[1..] == c[1..] + d;
      FollowConcat(project, Next(mount, c[0]), c[1..], d);
    }
  }

  lemma {:induction false} FollowFile(project: Project, mount: Mount, chain: seq<Use>)
    requires IsChain(project, mount.file, chain)
    ensures Follow(project, mount, chain).file == EndFile(project, mount.file, chain)
    decreases |chain|
  {
    if chain == [] {
    } else {
      FollowFile(project, Next(mount, chain[0]), chain[1..]);
    }
  }

  /** One more call at the end of a chain. */
  lemma FollowStep(project: Project, mount: Mount, chain: seq<Use>, use: Use)
    requires IsChain(project, mount.file, chain)
    requires CanStep(project, Follow(project, mount, chain).file, use)
    ensures IsChain(project, mount.file, chain + [use])
    ensures Follow(project, mount, chain + [use]) == Next(Follow(project, mount, chain), use)
  {
    FollowFile(project, mount, chain);
    assert [use][1..] == [];
    ChainConcat(project, mount.file, chain, [use]);
    FollowConcat(project, mount, chain, [use]);
  }

  // ----- What a chain gives: prefix, permissions, authentication -----

  lemma {:induction false} FollowSegments(project: Project, mount: Mount, chain: seq<Use>)
    requires IsChain(project, mount.file, chain)
    ensures Segments(Follow(project, mount, chain).prefix)
         == Segments(mount.prefix) + AddedSegments(chain)
    ensures IsRooted(Follow(project, mount, chain).prefix) == IsRooted(mount.prefix)
    decreases |chain|
  {
    if chain == [] {
    } else {
      var next := Next(mount, chain[0]);
      NormalizeSegments(mount.prefix, chain[0].localPath);
      FollowSegments(project, next, chain[1..]);
      Associative(Segments(mount.prefix), Segments(chain[0].localPath), AddedSegments(chain[1..]));
    }
  }

  lemma {:induction false} FollowPrefix(project: Project, mount: Mount, chain: seq<Use>)
    requires IsChain(project, mount.file, chain) && chain != []
    ensures Follow(project, mount, chain).prefix
         == Render(IsRooted(mount.prefix), Segments(mount.prefix) + AddedSegments(chain))
    decreases |chain|
  {
    var next := Next(mount, chain[0]);
    var rest := chain[1..];
    Associative(Segments(mount.prefix), Segments(chain[0].localPath), AddedSegments(rest));
    NormalizeSegments(mount.prefix, chain[0].localPath);
    if rest == [] {
      NormalizeMeaning(mount.prefix, chain[0].localPath);
      assert Segments(chain[0].localPath) + [] == Segments(chain[0].localPath);
    } else {
      FollowPrefix(project, next, rest);
    }
  }

  lemma {:induction false} FollowInherits(project: Project, mount: Mount, chain: seq<Use>)
    requires IsChain(project, mount.file, chain) && chain != []
    ensures Follow(project, mount, chain).permissions
         == Unique(mount.permissions + AddedPermissions(chain))
    ensures Follow(project, mount, chain).auth == Unique(mount.auth + AddedAuth(chain))
    decreases |chain|
  {
    var next := Next(mount, chain[0]);
    var rest := chain[1..];
    var p, a := mount.permissions + chain[0].permissions, mount.auth + chain[0].auth;
    Associative(mount.permissions, chain[0].permissions, AddedPermissions(rest));
    Associative(mount.auth, chain[0].auth, AddedAuth(rest));
    if rest == [] {
      assert p + [] == p && a + [] == a;
    } else {
      FollowInherits(project, next, rest);
      UniqueAbsorbs(p, AddedPermissions(rest));
      UniqueAbsorbs(a, AddedAuth(rest));
    }
  }

  ghost predicate IsInherited(result: seq<string>, seed: seq<string>, added: seq<string>) {
    IsSorted(result) && forall x :: x in result <==> x != "" && (x in seed || x in added)
  }

  /**
   At the end of a chain of calls: the prefix is the canonical text of the segments of the seed
   and of every call, and permissions and authentication are the sorted duplicate-free unions.
   */
  lemma ChainMeaning(project: Project, seed: Mount, chain: seq<Use>)
    requires IsChain(project, seed.file, chain) && chain != []
    ensures var end := Follow(project, seed, chain);
            && end.file == EndFile(project, seed.file, chain)
            && end.prefix == Render(IsRooted(seed.prefix), Segments(seed.prefix) + AddedSegments(chain))
            && IsInherited(end.permissions, seed.permissions, AddedPermissions(chain))
            && IsInherited(end.auth, seed.auth, AddedAuth(chain))
  {
    FollowFile(project, seed, chain);
    FollowPrefix(project, seed, chain);
    FollowInherits(project, seed, chain);
    UniqueMeaning(seed.permissions + AddedPermissions(chain));
    UniqueMeaning(seed.auth + AddedAuth(chain));
  }

  // ----- When the worklist settles -----

  /** A set of locations that holds the seeds and everything a call mounts from within it. */
  ghost predicate IsClosed(project: Project, seeds: seq<Mount>, universe: set<Location>) {
    && (forall k :: 0 <= k < |seeds| ==> At(seeds[k]) in universe)
    && (forall location, use :: location in universe && CanStep(project, location.0, use) ==> StepAt(location, use) in universe)
  }

  /** The calls in a file that mount a router. */
  function RouterCalls(project: Project, file: File): set<Use> {
    set use | file in project.uses && use in project.uses[file] && MountsRouter(project, use)
  }

  predicate CanStep(project: Project, file: File, use: Use) {
    use in RouterCalls(project, file)
  }

  function StepAt(location: Location, use: Use): Location
    requires use.target.Some?
  {
    (use.target.value, Normalize(location.1, use.localPath))
  }

  /** Finitely many locations suffice. */
  ghost predicate Settles(project: Project, seeds: seq<Mount>) {
    exists universe :: IsClosed(project, seeds, universe)
  }

  /** A loop of calls, reachable from a seed, that lengthens the prefix every time round. */
  ghost predicate IsGrowingCycle(project: Project, seed: Mount, approach: seq<Use>, cycle: seq<Use>) {
    && IsChain(project, seed.file, approach)
    && var f := EndFile(project, seed.file, approach);
    && IsChain(project, f, cycle)
    && EndFile(project, f, cycle) == f
    && AddedSegments(cycle) != []
  }

  ghost predicate HasGrowingCycle(project: Project, seeds: seq<Mount>) {
    exists seed, approach, cycle :: seed in seeds && IsGrowingCycle(project, seed, approach, cycle)
  }
}
