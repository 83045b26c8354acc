/**
 The order in which discovery (src-tauri/src/skills.rs) finds skills: that of their places in the
 directory tree, a directory before what lies below it, entries as they are listed.
 */
module SkillTraversal {
  import opened Base
  import opened SkillsRegistry

  /** The place of a trail: at each step, the position of the entry in its listing. */
  ghost predicate IsPlace(fs: FileSystem, root: Path, trail: seq<DirEntry>, place: seq<nat>) {
    && |place| == |trail|
    && forall k | 0 <= k < |trail| :: StepAt(fs, Holder(root, trail, k), trail[k], place[k])
  }

  ghost predicate StepAt(fs: FileSystem, from: Path, e: DirEntry, i: nat) {
    from in fs.listings && i < |fs.listings[from]| && fs.listings[from][i] == e
  }

  /** Depth first: a place comes before those below it and before those below later entries. */
  ghost predicate Before(a: seq<nat>, b: seq<nat>) {
    exists k :: BeforeAt(a, b, k)
  }

  ghost predicate BeforeAt(a: seq<nat>, b: seq<nat>, k: nat) {
    k <= |a| && k < |b| && a[..k] == b[..k] && (k == |a| || a[k] < b[k])
  }

  /** trail, at place, leads from dir to skill within depth bundle directories. */
  ghost predicate FoundAt(fs: FileSystem, dir: Path, depth: nat, trail: seq<DirEntry>, place: seq<nat>, skill: ParsedSkill) {
    |trail| <= depth + 1 && LeadsTo(fs, dir, trail, skill) && IsPlace(fs, dir, trail, place)
  }

  /** found lists skills at these places, in the order of the places. */
  ghost predicate InOrder(fs: FileSystem, dir: Path, depth: nat, provenance: Provenance, found: seq<LoadedSkill>,
                          places: seq<seq<nat>>, trails: seq<seq<DirEntry>>)
  {
    && |found| == |places| == |trails|
    && (forall n | 0 <= n < |found| ::
          found[n].provenance == provenance && FoundAt(fs, dir, depth, trails[n], places[n], found[n].parsed))
    && (forall n, m | 0 <= n < m < |found| :: Before(places[n], places[m]))
  }

  /** Every skill at a place that starts below n is among places. */
  ghost predicate CoversBelow(fs: FileSystem, dir: Path, depth: nat, n: nat, places: seq<seq<nat>>) {
    forall trail, place: seq<nat>, skill | FoundAt(fs, dir, depth, trail, place, skill) && place != [] && place[0] < n :: place in places
  }

  ghost predicate CoversAll(fs: FileSystem, dir: Path, depth: nat, places: seq<seq<nat>>) {
    forall trail, place: seq<nat>, skill | FoundAt(fs, dir, depth, trail, place, skill) :: place in places
  }

  /** All places start with an entry before the n-th. */
  ghost predicate StartBelow(n: nat, places: seq<seq<nat>>) {
    forall p | p in places :: p != [] && p[0] < n
  }

  /**
   Main result: a traversal lists the skills at the ends of all trails of at most depth + 1 steps,
   one for each trail, in the order of their places.
   */
  lemma {:induction false} TraversalInOrder(fs: FileSystem, dir: Path, depth: nat, provenance: Provenance)
    returns (places: seq<seq<nat>>, trails: seq<seq<DirEntry>>)
    ensures InOrder(fs, dir, depth, provenance, AllSkills(fs, dir, depth, provenance), places, trails)
    ensures CoversAll(fs, dir, depth, places)
    decreases depth, 1, 0
  {
    hide *;
    AllSkillsIs(fs, dir, depth, provenance);
    if dir !in fs.listings {
      places, trails := [], [];
      NothingFound(fs, dir, depth, provenance);
    } else {
      var n := |fs.listings[dir]|;
      var below, belowTrails := BelowInOrder(fs, dir, n, depth, provenance);
      assert fs.listings[dir][..n] == fs.listings[dir];
      places, trails := OwnFirst(fs, dir, depth, provenance, SkillsBelow(fs, fs.listings[dir], depth, provenance), below, belowTrails);
    }
  }

  lemma NothingFound(fs: FileSystem, dir: Path, depth: nat, provenance: Provenance)
    requires dir !in fs.listings
    ensures InOrder(fs, dir, depth, provenance, [], [], [])
    ensures CoversAll(fs, dir, depth, [])
  {
  }

  lemma OwnFirst(fs: FileSystem, dir: Path, depth: nat, provenance: Provenance, rest: seq<LoadedSkill>,
                 below: seq<seq<nat>>, belowTrails: seq<seq<DirEntry>>)
    returns (places: seq<seq<nat>>, trails: seq<seq<DirEntry>>)
    requires dir in fs.listings && InOrder(fs, dir, depth, provenance, rest, below, belowTrails)
    requires StartBelow(|fs.listings[dir]|, below) && CoversBelow(fs, dir, depth, |fs.listings[dir]|, below)
    ensures InOrder(fs, dir, depth, provenance, SkillIn(fs, dir, provenance) + rest, places, trails)
    ensures CoversAll(fs, dir, depth, places)
  {
    hide *;
    OwnIs(fs, dir, depth, provenance);
    var own := SkillIn(fs, dir, provenance);
    if own == [] {
      places, trails := below, belowTrails;
      assert own + rest == rest;
    } else {
      places, trails := [[]] + below, [[]] + belowTrails;
      OwnThenRest(fs, dir, depth, provenance, own[0], rest, below, belowTrails);
      assert own == [own[0]];
    }
    OwnCovers(fs, dir, depth, provenance, below, places);
  }

  /** The own skill is at the empty place, which comes before all others. */
  lemma OwnThenRest(fs: FileSystem, dir: Path, depth: nat, provenance: Provenance, own: LoadedSkill, rest: seq<LoadedSkill>,
                    below: seq<seq<nat>>, belowTrails: seq<seq<DirEntry>>)
    requires InOrder(fs, dir, depth, provenance, rest, below, belowTrails) && forall p | p in below :: p != []
    requires own.provenance == provenance && FoundAt(fs, dir, depth, [], [], own.parsed)
    ensures InOrder(fs, dir, depth, provenance, [own] + rest, [[]] + below, [[]] + belowTrails)
  {
    hide FoundAt;
    forall m | 0 <= m < |below| ensures Before([], below[m]) {
      assert below[m] in below;
      assert BeforeAt([], below[m], 0);
    }
    hide Before;
    var places := [[]] + below;
    forall n, m | 0 <= n < m < |places| ensures Before(places[n], places[m]) {
      if n > 0 {
        assert Before(below[n - 1], below[m - 1]);
      }
    }
  }

  lemma OwnCovers(fs: FileSystem, dir: Path, depth: nat, provenance: Provenance, below: seq<seq<nat>>, places: seq<seq<nat>>)
    requires dir in fs.listings && CoversBelow(fs, dir, depth, |fs.listings[dir]|, below)
    requires places == if SkillIn(fs, dir, provenance) == [] then below else [[]] + below
    ensures CoversAll(fs, dir, depth, places)
  {
    hide FoundAt, SkillIn;
    forall trail, place: seq<nat>, skill | FoundAt(fs, dir, depth, trail, place, skill) ensures place in places {
      if place == [] {
        OwnSkill(fs, dir, depth, provenance, trail, place, skill);
        assert places[0] == [];
      } else {
        FirstStep(fs, dir, depth, trail, place, skill);
        assert place in below;
        assert forall p | p in below :: p in places;
      }
    }
  }

  lemma OwnIs(fs: FileSystem, dir: Path, depth: nat, provenance: Provenance)
    requires dir in fs.listings
    ensures |SkillIn(fs, dir, provenance)| <= 1
    ensures forall s | s in SkillIn(fs, dir, provenance) :: s.provenance == provenance && FoundAt(fs, dir, depth, [], [], s.parsed)
    ensures forall n, places | StartBelow(n, places) :: forall p | p in places :: p != []
  {
  }

  lemma OwnSkill(fs: FileSystem, dir: Path, depth: nat, provenance: Provenance, trail: seq<DirEntry>, place: seq<nat>, skill: ParsedSkill)
    requires place == [] && FoundAt(fs, dir, depth, trail, place, skill)
    ensures SkillIn(fs, dir, provenance) != []
  {
  }

  lemma {:induction false} BelowInOrder(fs: FileSystem, dir: Path, n: nat, depth: nat, provenance: Provenance)
    returns (places: seq<seq<nat>>, trails: seq<seq<DirEntry>>)
    requires dir in fs.listings && n <= |fs.listings[dir]|
    ensures InOrder(fs, dir, depth, provenance, SkillsBelow(fs, fs.listings[dir][..n], depth, provenance), places, trails)
    ensures StartBelow(n, places) && CoversBelow(fs, dir, depth, n, places)
    decreases depth, 0, n + 1
  {
    hide *;
    var entries := fs.listings[dir];
    if n == 0 {
      places, trails := [], [];
      assert entries[..0] == [];
      BelowNothing(fs, depth, provenance);
      NoneBelow(fs, dir, depth, provenance);
    } else {
      places, trails := BelowInOrder(fs, dir, n - 1, depth, provenance);
      var ps, ts := EntryInOrder(fs, dir, n - 1, depth, provenance);
      BelowStep(fs, entries, n - 1, depth, provenance);
      Joined(fs, dir, n - 1, depth, provenance, SkillsBelow(fs, entries[..n - 1], depth, provenance), places, trails,
             EntrySkills(fs, entries[n - 1], depth, provenance), ps, ts);
      places, trails := places + ps, trails + ts;
    }
  }

  lemma NoneBelow(fs: FileSystem, dir: Path, depth: nat, provenance: Provenance)
    ensures InOrder(fs, dir, depth, provenance, [], [], []) && StartBelow(0, []) && CoversBelow(fs, dir, depth, 0, [])
  {
  }

  /** All places start with entry n. */
  ghost predicate StartAt(n: nat, places: seq<seq<nat>>) {
    forall p | p in places :: p != [] && p[0] == n
  }

  ghost predicate CoversAt(fs: FileSystem, dir: Path, depth: nat, n: nat, places: seq<seq<nat>>) {
    forall trail, place: seq<nat>, skill | FoundAt(fs, dir, depth, trail, place, skill) && place != [] && place[0] == n :: place in places
  }

  lemma Joined(fs: FileSystem, dir: Path, n: nat, depth: nat, provenance: Provenance,
               a: seq<LoadedSkill>, pa: seq<seq<nat>>, ta: seq<seq<DirEntry>>,
               b: seq<LoadedSkill>, pb: seq<seq<nat>>, tb: seq<seq<DirEntry>>)
    requires InOrder(fs, dir, depth, provenance, a, pa, ta) && StartBelow(n, pa) && CoversBelow(fs, dir, depth, n, pa)
    requires InOrder(fs, dir, depth, provenance, b, pb, tb) && StartAt(n, pb) && CoversAt(fs, dir, depth, n, pb)
    ensures InOrder(fs, dir, depth, provenance, a + b, pa + pb, ta + tb)
    ensures StartBelow(n + 1, pa + pb) && CoversBelow(fs, dir, depth, n + 1, pa + pb)
  {
    hide FoundAt, Before;
    JoinedOrder(n, pa, pb);
    JoinedFound(fs, dir, depth, provenance, a, pa, ta, b, pb, tb);
    forall p | p in pa + pb ensures p != [] && p[0] < n + 1 {
      assert p in pa || p in pb;
    }
    forall trail, place: seq<nat>, skill | FoundAt(fs, dir, depth, trail, place, skill) && place != [] && place[0] < n + 1
      ensures place in pa + pb
    {
      assert place in pa || place in pb;
    }
  }

  lemma JoinedOrder(n: nat, pa: seq<seq<nat>>, pb: seq<seq<nat>>)
    requires StartBelow(n, pa) && StartAt(n, pb)
    requires (forall i, j | 0 <= i < j < |pa| :: Before(pa[i], pa[j])) && (forall i, j | 0 <= i < j < |pb| :: Before(pb[i], pb[j]))
    ensures forall i, j | 0 <= i < j < |pa + pb| :: Before((pa + pb)[i], (pa + pb)[j])
  {
    forall i, j | 0 <= i < |pa| && 0 <= j < |pb| ensures Before(pa[i], pb[j]) {
      assert pa[i] in pa && pb[j] in pb;
      assert BeforeAt(pa[i], pb[j], 0);
    }
    hide Before, StartBelow, StartAt;
    var p := pa + pb;
    forall i, j | 0 <= i < j < |p| ensures Before(p[i], p[j]) {
      if j < |pa| {
        assert Before(pa[i], pa[j]);
      } else if i >= |pa| {
        assert Before(pb[i - |pa|], pb[j - |pa|]);
      } else {
        assert Before(pa[i], pb[j - |pa|]);
      }
    }
  }

  lemma JoinedFound(fs: FileSystem, dir: Path, depth: nat, provenance: Provenance,
                    a: seq<LoadedSkill>, pa: seq<seq<nat>>, ta: seq<seq<DirEntry>>,
                    b: seq<LoadedSkill>, pb: seq<seq<nat>>, tb: seq<seq<DirEntry>>)
    requires InOrder(fs, dir, depth, provenance, a, pa, ta) && InOrder(fs, dir, depth, provenance, b, pb, tb)
    requires forall i, j | 0 <= i < j < |pa + pb| :: Before((pa + pb)[i], (pa + pb)[j])
    ensures InOrder(fs, dir, depth, provenance, a + b, pa + pb, ta + tb)
  {
    hide FoundAt, Before;
  }

  /** One entry: its own skill, or what lies below it. */
  lemma {:induction false} EntryInOrder(fs: FileSystem, dir: Path, n: nat, depth: nat, provenance: Provenance)
    returns (places: seq<seq<nat>>, trails: seq<seq<DirEntry>>)
    requires dir in fs.listings && n < |fs.listings[dir]|
    ensures var e := fs.listings[dir][n];
            InOrder(fs, dir, depth, provenance, EntrySkills(fs, e, depth, provenance), places, trails)
    ensures StartAt(n, places) && CoversAt(fs, dir, depth, n, places)
    decreases depth, 0, 0
  {
    hide *;
    var e := fs.listings[dir][n];
    EntryIs(fs, e, depth, provenance);
    if !IsVisibleDir(e) || (e.path !in fs.skillFiles && depth == 0) {
      places, trails := [], [];
      NothingInEntry(fs, dir, n, depth, provenance);
    } else if e.path in fs.skillFiles {
      places, trails := SkillInEntry(fs, dir, n, depth, provenance);
    } else {
      var ps, ts := TraversalInOrder(fs, e.path, depth - 1, provenance);
      places, trails := OneStepFurther(fs, dir, n, depth, provenance, AllSkills(fs, e.path, depth - 1, provenance), ps, ts);
    }
  }

  lemma EntryIs(fs: FileSystem, e: DirEntry, depth: nat, provenance: Provenance)
    ensures EntrySkills(fs, e, depth, provenance)
         == if !IsVisibleDir(e) then []
            else if e.path in fs.skillFiles then SkillIn(fs, e.path, provenance)
            else if depth > 0 then AllSkills(fs, e.path, depth - 1, provenance)
            else []
  {
    hide AllSkills;
  }

  /** The first step of a trail at a place. */
  lemma FirstStep(fs: FileSystem, dir: Path, depth: nat, trail: seq<DirEntry>, place: seq<nat>, skill: ParsedSkill)
    requires FoundAt(fs, dir, depth, trail, place, skill) && place != []
    ensures dir in fs.listings && place[0] < |fs.listings[dir]| && |trail| == |place| <= depth + 1
    ensures fs.listings[dir][place[0]] == trail[0] && IsVisibleDir(trail[0])
    ensures |trail| == 1 ==> trail[0].path in fs.skillFiles && fs.skillFiles[trail[0].path] == Some(skill)
    ensures |trail| > 1 ==> && trail[0].path !in fs.skillFiles && depth > 0
                            && FoundAt(fs, trail[0].path, depth - 1, trail[1..], place[1..], skill)
  {
    LeadsThrough(fs, dir, trail, skill);
    assert StepAt(fs, Holder(dir, trail, 0), trail[0], place[0]);
    if |trail| > 1 {
      LeadsOneLess(fs, dir, trail, skill);
      PlaceOneLess(fs, dir, trail, place);
    }
  }

  lemma PlaceOneLess(fs: FileSystem, dir: Path, trail: seq<DirEntry>, place: seq<nat>)
    requires trail != [] && IsPlace(fs, dir, trail, place)
    ensures IsPlace(fs, trail[0].path, trail[1..], place[1..])
  {
    hide StepAt, Holder;
    var e, rest := trail[0], trail[1..];
    assert trail == [e] + rest;
    StepsShift(dir, e, rest);
    forall k | 0 <= k < |rest| ensures StepAt(fs, Holder(e.path, rest, k), rest[k], place[1..][k]) {
      assert StepAt(fs, Holder(dir, trail, k + 1), trail[k + 1], place[k + 1]);
    }
  }

  lemma PlaceOneMore(fs: FileSystem, dir: Path, n: nat, e: DirEntry, rest: seq<DirEntry>, place: seq<nat>)
    requires StepAt(fs, dir, e, n) && IsPlace(fs, e.path, rest, place)
    ensures IsPlace(fs, dir, [e] + rest, [n] + place)
  {
    hide StepAt, Holder;
    var trail := [e] + rest;
    StepsShift(dir, e, rest);
    forall k | 0 <= k < |trail| ensures StepAt(fs, Holder(dir, trail, k), trail[k], ([n] + place)[k]) {
      assert k > 0 ==> StepAt(fs, Holder(e.path, rest, k - 1), rest[k - 1], place[k - 1]);
    }
  }

  lemma NothingInEntry(fs: FileSystem, dir: Path, n: nat, depth: nat, provenance: Provenance)
    requires dir in fs.listings && n < |fs.listings[dir]|
    requires var e := fs.listings[dir][n]; !IsVisibleDir(e) || (e.path !in fs.skillFiles && depth == 0)
    ensures InOrder(fs, dir, depth, provenance, [], [], []) && StartAt(n, []) && CoversAt(fs, dir, depth, n, [])
  {
    hide FoundAt, IsVisibleDir;
    forall trail, place: seq<nat>, skill | FoundAt(fs, dir, depth, trail, place, skill) && place != [] && place[0] == n
      ensures false
    {
      FirstStep(fs, dir, depth, trail, place, skill);
    }
  }

  lemma SkillInEntry(fs: FileSystem, dir: Path, n: nat, depth: nat, provenance: Provenance)
    returns (places: seq<seq<nat>>, trails: seq<seq<DirEntry>>)
    requires dir in fs.listings && n < |fs.listings[dir]|
    requires var e := fs.listings[dir][n]; IsVisibleDir(e) && e.path in fs.skillFiles
    ensures InOrder(fs, dir, depth, provenance, SkillIn(fs, fs.listings[dir][n].path, provenance), places, trails)
    ensures StartAt(n, places) && CoversAt(fs, dir, depth, n, places)
  {
    var e := fs.listings[dir][n];
    var own := SkillIn(fs, e.path, provenance);
    places, trails := if own == [] then [] else [[n]], if own == [] then [] else [[e]];
    if own != [] {
      LeadsOneStep(fs, dir, e, provenance, own[0]);
      assert StepAt(fs, Holder(dir, [e], 0), e, n);
      assert FoundAt(fs, dir, depth, [e], [n], own[0].parsed);
    }
    hide FoundAt, IsVisibleDir;
    forall trail, place: seq<nat>, skill | FoundAt(fs, dir, depth, trail, place, skill) && place != [] && place[0] == n
      ensures place in places
    {
      FirstStep(fs, dir, depth, trail, place, skill);
      assert |trail| == 1;
      assert place == [n] && own != [];
    }
  }

  lemma OneStepFurther(fs: FileSystem, dir: Path, n: nat, depth: nat, provenance: Provenance, found: seq<LoadedSkill>,
                       ps: seq<seq<nat>>, ts: seq<seq<DirEntry>>)
    returns (places: seq<seq<nat>>, trails: seq<seq<DirEntry>>)
    requires dir in fs.listings && n < |fs.listings[dir]| && depth > 0
    requires var e := fs.listings[dir][n];
             && IsVisibleDir(e) && e.path !in fs.skillFiles && InOrder(fs, e.path, depth - 1, provenance, found, ps, ts)
             && CoversAll(fs, e.path, depth - 1, ps)
    ensures InOrder(fs, dir, depth, provenance, found, places, trails)
    ensures StartAt(n, places) && CoversAt(fs, dir, depth, n, places)
  {
    hide *;
    var e := fs.listings[dir][n];
    places := seq(|ps|, i requires 0 <= i < |ps| => [n] + ps[i]);
    trails := seq(|ts|, i requires 0 <= i < |ts| => [e] + ts[i]);
    OrderFurther(fs, dir, n, depth, provenance, found, ps, ts, places, trails);
    CoverFurther(fs, dir, n, depth, ps, places);
  }

  lemma OrderFurther(fs: FileSystem, dir: Path, n: nat, depth: nat, provenance: Provenance, found: seq<LoadedSkill>,
                     ps: seq<seq<nat>>, ts: seq<seq<DirEntry>>, places: seq<seq<nat>>, trails: seq<seq<DirEntry>>)
    requires dir in fs.listings && n < |fs.listings[dir]| && depth > 0
    requires var e := fs.listings[dir][n];
             && IsVisibleDir(e) && e.path !in fs.skillFiles && InOrder(fs, e.path, depth - 1, provenance, found, ps, ts)
             && |places| == |ps| && (forall i | 0 <= i < |ps| :: places[i] == [n] + ps[i])
             && |trails| == |ts| && (forall i | 0 <= i < |ts| :: trails[i] == [e] + ts[i])
    ensures InOrder(fs, dir, depth, provenance, found, places, trails)
  {
    hide FoundAt, Before, IsVisibleDir;
    forall i | 0 <= i < |found| ensures FoundAt(fs, dir, depth, trails[i], places[i], found[i].parsed) {
      FoundOneFurther(fs, dir, n, depth, ts[i], ps[i], found[i].parsed);
    }
    forall i, j | 0 <= i < j < |found| ensures Before(places[i], places[j]) {
      BeforeFurther(n, ps[i], ps[j]);
    }
  }

  lemma CoverFurther(fs: FileSystem, dir: Path, n: nat, depth: nat, ps: seq<seq<nat>>, places: seq<seq<nat>>)
    requires dir in fs.listings && n < |fs.listings[dir]| && depth > 0
    requires var e := fs.listings[dir][n]; e.path !in fs.skillFiles && CoversAll(fs, e.path, depth - 1, ps)
    requires |places| == |ps| && forall i | 0 <= i < |ps| :: places[i] == [n] + ps[i]
    ensures StartAt(n, places) && CoversAt(fs, dir, depth, n, places)
  {
    hide FoundAt, IsVisibleDir;
    forall trail, place: seq<nat>, skill | FoundAt(fs, dir, depth, trail, place, skill) && place != [] && place[0] == n
      ensures place in places
    {
      FirstStep(fs, dir, depth, trail, place, skill);
      assert |trail| > 1;
      assert place[1..] in ps;
      var i :| 0 <= i < |ps| && ps[i] == place[1..];
      assert places[i] == [n] + place[1..] == place;
    }
  }

  lemma FoundOneFurther(fs: FileSystem, dir: Path, n: nat, depth: nat, trail: seq<DirEntry>, place: seq<nat>, skill: ParsedSkill)
    requires dir in fs.listings && n < |fs.listings[dir]| && depth > 0
    requires var e := fs.listings[dir][n];
             IsVisibleDir(e) && e.path !in fs.skillFiles && FoundAt(fs, e.path, depth - 1, trail, place, skill)
    ensures FoundAt(fs, dir, depth, [fs.listings[dir][n]] + trail, [n] + place, skill)
  {
    hide LeadsTo, IsPlace, IsVisibleDir;
    var e := fs.listings[dir][n];
    LeadsOneMore(fs, dir, e, trail, skill);
    PlaceOneMore(fs, dir, n, e, trail, place);
  }

  lemma BeforeFurther(n: nat, a: seq<nat>, b: seq<nat>)
    requires Before(a, b)
    ensures Before([n] + a, [n] + b)
  {
    var k: nat :| BeforeAt(a, b, k);
    assert ([n] + a)[..k + 1] == [n] + a[..k] && ([n] + b)[..k + 1] == [n] + b[..k];
    assert BeforeAt([n] + a, [n] + b, k + 1);
  }
}
