/**
 SkillsRegistry (src-tauri/src/skills.rs): tiered discovery with shadowing and a cap, scoring,
 and the greedy selection of active skills under a token budget.
 */
module SkillsRegistry {
  import opened Base
  import opened Sorting
  import opened Text

  datatype Provenance = Bundled | User | Project | Marketplace

  /** What load_skill_file makes of a SKILL.md; the lists are the ones used for scoring, lowercased. */
  datatype ParsedSkill = ParsedSkill(
    name: string,
    keywords: seq<string>,
    excludeKeywords: seq<string>,
    tags: seq<string>,
    patterns: seq<string>,
    maxContextTokens: nat,
    prompt: string)

  datatype LoadedSkill = LoadedSkill(parsed: ParsedSkill, provenance: Provenance)

  type Path = string

  /** name is None when it is not valid text. */
  datatype DirEntry = DirEntry(name: Option<string>, path: Path, isDir: bool)

  /**
   listings: the readable directories with their entries, in the order read_dir gives them; links
   may make them cyclic. skillFiles: directories holding a SKILL.md file, with what it loads to.
   */
  datatype FileSystem = FileSystem(listings: map<Path, seq<DirEntry>>, skillFiles: map<Path, Option<ParsedSkill>>)

  const MAX_DISCOVERED_SKILLS := 100
  const DEFAULT_MAX_SCAN_DEPTH := 3

  // ---- Discovery in one directory -----------------------------------------------------------------------------

  function SkillIn(fs: FileSystem, dir: Path, provenance: Provenance): (r: seq<LoadedSkill>)
    ensures |r| <= 1
  {
    if dir in fs.skillFiles && fs.skillFiles[dir].Some? then [LoadedSkill(fs.skillFiles[dir].value, provenance)] else []
  }

  /** Every skill below dir, down to `depth` nested bundle directories: the search without its cap. */
  function AllSkills(fs: FileSystem, dir: Path, depth: nat, provenance: Provenance): seq<LoadedSkill>
    decreases depth, 1, 0
  {
    if dir !in fs.listings then []
    else SkillIn(fs, dir, provenance) + SkillsBelow(fs, fs.listings[dir], depth, provenance)
  }

  function SkillsBelow(fs: FileSystem, entries: seq<DirEntry>, depth: nat, provenance: Provenance): seq<LoadedSkill>
    decreases depth, 0, |entries| + 1
  {
    if entries == [] then []
    else SkillsBelow(fs, entries[..|entries| - 1], depth, provenance) + EntrySkills(fs, entries[|entries| - 1], depth, provenance)
  }

  /** A visible subdirectory contributes its own skill, or what lies below it when it is a bundle directory. */
  function EntrySkills(fs: FileSystem, e: DirEntry, depth: nat, provenance: Provenance): seq<LoadedSkill>
    decreases depth, 0, 0
  {
    if !IsVisibleDir(e) then []
    else if e.path in fs.skillFiles then SkillIn(fs, e.path, provenance)
    else if depth > 0 then AllSkills(fs, e.path, depth - 1, provenance)
    else []
  }

  predicate IsVisibleDir(e: DirEntry) {
    e.name.Some? && !(e.name.value != "" && e.name.value[0] == '.') && e.isDir
  }

  lemma TakeMore<T>(xs: seq<T>, ys: seq<T>, n: nat)
    ensures |xs| >= n ==> Take(xs + ys, n) == Take(xs, n)
    ensures |xs| < n ==> Take(xs + ys, n) == xs + Take(ys, n - |xs|)
  {
  }

  /** Main result: the capped, depth-limited search returns the first `cap` skills of the full traversal. */
  method DiscoverFromDir(fs: FileSystem, dir: Path, cap: nat, depth: nat, maxDepth: nat, provenance: Provenance)
    returns (results: seq<LoadedSkill>)
    requires depth <= maxDepth
    ensures cap >= 1 ==> results == Take(AllSkills(fs, dir, maxDepth - depth, provenance), cap)
    decreases maxDepth - depth, 1
  {
    hide AllSkills, SkillsBelow, EntrySkills, Take;
    results := [];
    ghost var left := maxDepth - depth;
    AllSkillsIs(fs, dir, left, provenance);
    if dir !in fs.listings {
      return;
    }
    var entries := fs.listings[dir];
    if dir in fs.skillFiles && fs.skillFiles[dir].Some? {
      results := results + [LoadedSkill(fs.skillFiles[dir].value, provenance)];
    }
    ghost var seen := results;
    BelowNothing(fs, left, provenance);
    var i := 0;
    while i < |entries| && |results| < cap
      invariant 0 <= i <= |entries|
      invariant seen == SkillIn(fs, dir, provenance) + SkillsBelow(fs, entries[..i], left, provenance)
      invariant cap >= 1 ==> results == Take(seen, cap)
    {
      var sub := DiscoverEntry(fs, entries[i], cap - |results|, depth, maxDepth, provenance);
      BelowStep(fs, entries, i, left, provenance);
      ghost var more := EntrySkills(fs, entries[i], left, provenance);
      TakeMore(seen, more, cap);
      seen := seen + more;
      results := results + sub;
      i := i + 1;
    }
    if cap >= 1 {
      StoppingEarlyIsTaking(fs, SkillIn(fs, dir, provenance), entries, i, left, provenance, cap);
    }
  }

  /** Once the cap is reached or the entries run out, the rest of the traversal does not matter. */
  lemma StoppingEarlyIsTaking(fs: FileSystem, own: seq<LoadedSkill>, entries: seq<DirEntry>, i: nat,
                              depth: nat, provenance: Provenance, cap: nat)
    requires i <= |entries|
    requires i == |entries| || |own + SkillsBelow(fs, entries[..i], depth, provenance)| >= cap
    ensures Take(own + SkillsBelow(fs, entries, depth, provenance), cap)
         == Take(own + SkillsBelow(fs, entries[..i], depth, provenance), cap)
  {
    hide SkillsBelow;
    if i == |entries| {
      assert entries[..i] == entries;
    } else {
      BelowPrefix(fs, entries, i, depth, provenance);
      var below, whole := SkillsBelow(fs, entries[..i], depth, provenance), SkillsBelow(fs, entries, depth, provenance);
      TakeMore(own + below, whole[|below|..], cap);
      assert own + whole == (own + below) + whole[|below|..];
    }
  }

  lemma AllSkillsIs(fs: FileSystem, dir: Path, depth: nat, provenance: Provenance)
    ensures AllSkills(fs, dir, depth, provenance)
         == if dir !in fs.listings then []
            else SkillIn(fs, dir, provenance) + SkillsBelow(fs, fs.listings[dir], depth, provenance)
  {
  }

  /** The body of the loop: one directory entry. */
  method DiscoverEntry(fs: FileSystem, entry: DirEntry, cap: nat, depth: nat, maxDepth: nat, provenance: Provenance)
    returns (found: seq<LoadedSkill>)
    requires depth <= maxDepth && cap >= 1
    ensures found == Take(EntrySkills(fs, entry, maxDepth - depth, provenance), cap)
    decreases maxDepth - depth, 0
  {
    hide AllSkills;
    found := [];
    if IsVisibleDir(entry) {
      if entry.path in fs.skillFiles {
        if fs.skillFiles[entry.path].Some? {
          found := [LoadedSkill(fs.skillFiles[entry.path].value, provenance)];
        }
      } else if depth < maxDepth {
        found := DiscoverFromDir(fs, entry.path, cap, depth + 1, maxDepth, provenance);
      }
    }
  }

  lemma BelowNothing(fs: FileSystem, depth: nat, provenance: Provenance)
    ensures SkillsBelow(fs, [], depth, provenance) == []
  {
  }

  lemma BelowStep(fs: FileSystem, entries: seq<DirEntry>, i: nat, depth: nat, provenance: Provenance)
    requires i < |entries|
    ensures SkillsBelow(fs, entries[..i + 1], depth, provenance)
         == SkillsBelow(fs, entries[..i], depth, provenance) + EntrySkills(fs, entries[i], depth, provenance)
  {
    assert entries[..i + 1][..i] == entries[..i];
  }

  lemma {:induction false} BelowPrefix(fs: FileSystem, entries: seq<DirEntry>, i: nat, depth: nat, provenance: Provenance)
    requires i <= |entries|
    ensures SkillsBelow(fs, entries[..i], depth, provenance) <= SkillsBelow(fs, entries, depth, provenance)
    decreases |entries|
  {
    if i == |entries| {
      assert entries[..i] == entries;
    } else {
      BelowPrefix(fs, entries[..|entries| - 1], i, depth, provenance);
      assert entries[..|entries| - 1][..i] == entries[..i];
    }
  }

  // ---- Tiers ------------------------------------------------------------------------------------------------

  type Skills = map<string, LoadedSkill>

  /** Inserting in order, later ones replacing earlier ones of the same name. */
  function InsertAll(skills: Skills, found: seq<LoadedSkill>): Skills {
    if found == [] then skills
    else
      var s := found[|found| - 1];
      InsertAll(skills, found[..|found| - 1])[s.parsed.name := s]
  }

  /** The first tier's share: as many skills of its traversal as the cap leaves room for. */
  function FirstTier(fs: FileSystem, dirs: seq<(Path, Provenance)>, depth: nat, total: nat): (r: seq<LoadedSkill>)
    requires dirs != [] && total < MAX_DISCOVERED_SKILLS
    ensures |r| <= MAX_DISCOVERED_SKILLS - total
  {
    Take(AllSkills(fs, dirs[0].0, depth, dirs[0].1), MAX_DISCOVERED_SKILLS - total)
  }

  /** How many names of found are new. */
  function NewNames(skills: Skills, found: seq<LoadedSkill>): (n: nat)
    ensures n <= |found| && |InsertAll(skills, found)| == |skills| + n
  {
    InsertAllGrows(skills, found);
    |InsertAll(skills, found)| - |skills|
  }

  /** Everything discover inserts, in order: tier after tier, until 100 names are new. */
  function Scan(fs: FileSystem, dirs: seq<(Path, Provenance)>, depth: nat, skills: Skills, total: nat): seq<LoadedSkill> {
    if dirs == [] || total >= MAX_DISCOVERED_SKILLS then []
    else
      var found := FirstTier(fs, dirs, depth, total);
      found + Scan(fs, dirs[1..], depth, InsertAll(skills, found), total + NewNames(skills, found))
  }

  lemma ScanStep(fs: FileSystem, dirs: seq<(Path, Provenance)>, i: nat, depth: nat, skills: Skills, total: nat)
    requires i < |dirs| && total < MAX_DISCOVERED_SKILLS
    ensures var found := FirstTier(fs, dirs[i..], depth, total);
            Scan(fs, dirs[i..], depth, skills, total)
              == found + Scan(fs, dirs[i + 1..], depth, InsertAll(skills, found), total + NewNames(skills, found))
  {
    assert dirs[i..][1..] == dirs[i + 1..];
  }

  lemma ScanEnds(fs: FileSystem, dirs: seq<(Path, Provenance)>, depth: nat)
    ensures forall i, skills, total: nat | 0 <= i <= |dirs| && (i == |dirs| || total >= MAX_DISCOVERED_SKILLS) ::
              Scan(fs, dirs[i..], depth, skills, total) == []
    ensures dirs[0..] == dirs
  {
  }

  lemma {:induction false} InsertAllGrows(skills: Skills, found: seq<LoadedSkill>)
    ensures |skills| <= |InsertAll(skills, found)| <= |skills| + |found|
    ensures skills.Keys <= InsertAll(skills, found).Keys
  {
    if found != [] {
      InsertAllGrows(skills, found[..|found| - 1]);
      var before, name := InsertAll(skills, found[..|found| - 1]), found[|found| - 1].parsed.name;
      assert before[name := found[|found| - 1]].Keys == before.Keys + {name};
      assert |before.Keys + {name}| == |before.Keys| + if name in before then 0 else 1;
    }
  }

  lemma {:induction false} InsertAllConcat(skills: Skills, a: seq<LoadedSkill>, b: seq<LoadedSkill>)
    ensures InsertAll(skills, a + b) == InsertAll(InsertAll(skills, a), b)
  {
    if b == [] {
      assert a + b == a;
    } else {
      assert (a + b)[..|a + b| - 1] == a + b[..|b| - 1];
      InsertAllConcat(skills, a, b[..|b| - 1]);
    }
  }

  /** Each name ends up with its last occurrence. */
  lemma {:induction false} LastOccurrenceWins(skills: Skills, found: seq<LoadedSkill>, name: string)
    ensures name in InsertAll(skills, found) <==> name in skills || exists s | s in found :: s.parsed.name == name
    ensures forall i | 0 <= i < |found| && found[i].parsed.name == name
                     && (forall j | i < j < |found| :: found[j].parsed.name != name) ::
              name in InsertAll(skills, found) && InsertAll(skills, found)[name] == found[i]
  {
    if found != [] {
      var init, last := found[..|found| - 1], found[|found| - 1];
      LastOccurrenceWins(skills, init, name);
      assert found == init + [last];
    }
  }

  /** However large the tree, a scan adds at most the cap, counting what was new before it. */
  lemma {:induction false} ScanIsCapped(fs: FileSystem, dirs: seq<(Path, Provenance)>, depth: nat, skills: Skills, total: nat)
    requires total <= MAX_DISCOVERED_SKILLS
    ensures |InsertAll(skills, Scan(fs, dirs, depth, skills, total))| - |skills| <= MAX_DISCOVERED_SKILLS - total
  {
    hide FirstTier, InsertAll, NewNames;
    if dirs != [] && total < MAX_DISCOVERED_SKILLS {
      var found := FirstTier(fs, dirs, depth, total);
      var skills', total' := InsertAll(skills, found), total + NewNames(skills, found);
      ScanIsCapped(fs, dirs[1..], depth, skills', total');
      InsertAllConcat(skills, found, Scan(fs, dirs[1..], depth, skills', total'));
    } else {
      InsertNothing(skills);
    }
  }

  lemma InsertNothing(skills: Skills)
    ensures InsertAll(skills, []) == skills
  {
  }

  lemma {:induction false} TraversalProvenance(fs: FileSystem, dir: Path, depth: nat, provenance: Provenance)
    ensures forall s | s in AllSkills(fs, dir, depth, provenance) :: s.provenance == provenance
    decreases depth, 1, 0
  {
    if dir in fs.listings {
      BelowProvenance(fs, fs.listings[dir], depth, provenance);
    }
  }

  lemma {:induction false} BelowProvenance(fs: FileSystem, entries: seq<DirEntry>, depth: nat, provenance: Provenance)
    ensures forall s | s in SkillsBelow(fs, entries, depth, provenance) :: s.provenance == provenance
    decreases depth, 0, |entries|
  {
    if entries != [] {
      var e := entries[|entries| - 1];
      BelowProvenance(fs, entries[..|entries| - 1], depth, provenance);
      if depth > 0 {
        TraversalProvenance(fs, e.path, depth - 1, provenance);
      }
    }
  }

  // ---- What a traversal finds ---------------------------------------------------------------------------------

  /** The directory in which step k of a trail from root is listed; its end for k == |trail|. */
  function Holder(root: Path, trail: seq<DirEntry>, k: nat): Path
    requires k <= |trail|
  {
    if k == 0 then root else trail[k - 1].path
  }

  /** e is listed in the directory from and is itself a directory whose name is readable and does not start with a dot. */
  ghost predicate IsStep(fs: FileSystem, from: Path, e: DirEntry) {
    && from in fs.listings && e in fs.listings[from]
    && e.isDir && e.name.Some? && !("." <= e.name.value)
  }

  /** A way down from root, one step at a time; only the last directory may hold a skill file. */
  ghost predicate IsTrail(fs: FileSystem, root: Path, trail: seq<DirEntry>) {
    && root in fs.listings
    && (forall k | 0 <= k < |trail| :: IsStep(fs, Holder(root, trail, k), trail[k]))
    && (forall k | 0 <= k < |trail| - 1 :: trail[k].path !in fs.skillFiles)
  }

  ghost predicate LeadsTo(fs: FileSystem, root: Path, trail: seq<DirEntry>, skill: ParsedSkill) {
    && IsTrail(fs, root, trail)
    && Holder(root, trail, |trail|) in fs.skillFiles && fs.skillFiles[Holder(root, trail, |trail|)] == Some(skill)
  }

  /** Main result: a traversal finds exactly the skills that a trail of at most depth + 1 steps leads to. */
  lemma DiscoveryFindsExactly(fs: FileSystem, dir: Path, depth: nat, provenance: Provenance, s: LoadedSkill)
    ensures s in AllSkills(fs, dir, depth, provenance)
       <==> s.provenance == provenance && exists trail :: |trail| <= depth + 1 && LeadsTo(fs, dir, trail, s.parsed)
  {
    hide AllSkills, LeadsTo;
    TraversalProvenance(fs, dir, depth, provenance);
    if s in AllSkills(fs, dir, depth, provenance) {
      var trail := TrailOf(fs, dir, depth, provenance, s);
    }
    if s.provenance == provenance {
      forall trail | |trail| <= depth + 1 && LeadsTo(fs, dir, trail, s.parsed)
        ensures s in AllSkills(fs, dir, depth, provenance)
      {
        TrailIsFollowed(fs, dir, depth, trail, s);
      }
    }
  }

  lemma {:induction false} TrailOf(fs: FileSystem, dir: Path, depth: nat, provenance: Provenance, s: LoadedSkill)
    returns (trail: seq<DirEntry>)
    requires s in AllSkills(fs, dir, depth, provenance)
    ensures |trail| <= depth + 1 && LeadsTo(fs, dir, trail, s.parsed)
    decreases depth
  {
    hide AllSkills, SkillsBelow, LeadsTo, EntrySkills, SkillIn, IsVisibleDir;
    AllSkillsIs(fs, dir, depth, provenance);
    if s in SkillIn(fs, dir, provenance) {
      trail := [];
      LeadsNowhere(fs, dir, provenance, s);
    } else {
      var e := EntryWith(fs, fs.listings[dir], depth, provenance, s);
      EntrySkillsCases(fs, e, depth, provenance);
      if e.path in fs.skillFiles {
        trail := [e];
        LeadsOneStep(fs, dir, e, provenance, s);
      } else {
        var rest := TrailOf(fs, e.path, depth - 1, provenance, s);
        trail := [e] + rest;
        LeadsOneMore(fs, dir, e, rest, s.parsed);
      }
    }
  }

  lemma EntrySkillsCases(fs: FileSystem, e: DirEntry, depth: nat, provenance: Provenance)
    requires EntrySkills(fs, e, depth, provenance) != []
    ensures IsVisibleDir(e)
    ensures EntrySkills(fs, e, depth, provenance)
         == if e.path in fs.skillFiles then SkillIn(fs, e.path, provenance)
            else if depth > 0 then AllSkills(fs, e.path, depth - 1, provenance) else []
    ensures e.path !in fs.skillFiles ==> depth > 0
  {
    hide AllSkills;
  }

  lemma LeadsNowhere(fs: FileSystem, dir: Path, provenance: Provenance, s: LoadedSkill)
    requires dir in fs.listings
    ensures s in SkillIn(fs, dir, provenance) <==> s.provenance == provenance && LeadsTo(fs, dir, [], s.parsed)
  {
  }

  lemma LeadsOneStep(fs: FileSystem, dir: Path, e: DirEntry, provenance: Provenance, s: LoadedSkill)
    requires dir in fs.listings && e in fs.listings[dir] && IsVisibleDir(e)
    ensures s in SkillIn(fs, e.path, provenance) <==> s.provenance == provenance && LeadsTo(fs, dir, [e], s.parsed)
  {
  }

  lemma LeadsOneMore(fs: FileSystem, dir: Path, e: DirEntry, rest: seq<DirEntry>, skill: ParsedSkill)
    requires dir in fs.listings && e in fs.listings[dir] && IsVisibleDir(e) && e.path !in fs.skillFiles
    requires LeadsTo(fs, e.path, rest, skill)
    ensures LeadsTo(fs, dir, [e] + rest, skill)
  {
    hide IsStep, Holder;
    var trail := [e] + rest;
    StepsShift(dir, e, rest);
    StepListed(fs, dir, e);
    forall k | 0 <= k < |trail| ensures IsStep(fs, Holder(dir, trail, k), trail[k]) {
      assert k > 0 ==> IsStep(fs, Holder(e.path, rest, k - 1), rest[k - 1]);
    }
  }

  lemma StepListed(fs: FileSystem, from: Path, e: DirEntry)
    ensures IsStep(fs, from, e) <==> from in fs.listings && e in fs.listings[from] && IsVisibleDir(e)
  {
  }

  /** Seen from the first directory, every later step comes one later. */
  lemma StepsShift(dir: Path, e: DirEntry, rest: seq<DirEntry>)
    ensures var trail := [e] + rest;
            && Holder(dir, trail, 0) == dir && trail[0] == e
            && (forall k | 0 < k <= |trail| :: Holder(dir, trail, k) == Holder(e.path, rest, k - 1))
            && Holder(e.path, rest, 0) == e.path
            && (forall k | 0 < k < |trail| :: trail[k] == rest[k - 1])
  {
  }

  lemma LeadsOneLess(fs: FileSystem, dir: Path, trail: seq<DirEntry>, skill: ParsedSkill)
    requires LeadsTo(fs, dir, trail, skill) && |trail| >= 2
    ensures trail[0].path !in fs.skillFiles && LeadsTo(fs, trail[0].path, trail[1..], skill)
  {
    hide IsStep, Holder;
    var e, rest := trail[0], trail[1..];
    assert trail == [e] + rest;
    StepsShift(dir, e, rest);
    assert IsStep(fs, Holder(dir, trail, 1), trail[1]);
    StepListed(fs, Holder(dir, trail, 1), trail[1]);
    assert Holder(dir, trail, 1) == e.path;
    forall k | 0 <= k < |rest| ensures IsStep(fs, Holder(e.path, rest, k), rest[k]) {
      assert IsStep(fs, Holder(dir, trail, k + 1), trail[k + 1]);
    }
  }

  lemma LeadsThrough(fs: FileSystem, dir: Path, trail: seq<DirEntry>, skill: ParsedSkill)
    requires LeadsTo(fs, dir, trail, skill)
    ensures dir in fs.listings
    ensures trail != [] ==> trail[0] in fs.listings[dir] && IsVisibleDir(trail[0])
    ensures |trail| == 1 ==> trail == [trail[0]]
  {
    assert trail != [] ==> Holder(dir, trail, 0) == dir;
  }

  lemma {:induction false} EntryWith(fs: FileSystem, entries: seq<DirEntry>, depth: nat, provenance: Provenance, s: LoadedSkill)
    returns (e: DirEntry)
    requires s in SkillsBelow(fs, entries, depth, provenance)
    ensures e in entries && s in EntrySkills(fs, e, depth, provenance)
  {
    hide EntrySkills;
    e := entries[|entries| - 1];
    if s !in EntrySkills(fs, e, depth, provenance) {
      e := EntryWith(fs, entries[..|entries| - 1], depth, provenance, s);
    }
  }

  lemma {:induction false} TrailIsFollowed(fs: FileSystem, dir: Path, depth: nat, trail: seq<DirEntry>, s: LoadedSkill)
    requires |trail| <= depth + 1 && LeadsTo(fs, dir, trail, s.parsed)
    ensures s in AllSkills(fs, dir, depth, s.provenance)
    decreases depth
  {
    hide AllSkills, SkillsBelow, LeadsTo, SkillIn, EntrySkills, IsVisibleDir;
    AllSkillsIs(fs, dir, depth, s.provenance);
    LeadsThrough(fs, dir, trail, s.parsed);
    if trail == [] {
      LeadsNowhere(fs, dir, s.provenance, s);
    } else {
      var e := trail[0];
      if |trail| == 1 {
        LeadsOneStep(fs, dir, e, s.provenance, s);
        EntryHoldsSkill(fs, e, depth, s.provenance, s);
      } else {
        LeadsOneLess(fs, dir, trail, s.parsed);
        TrailIsFollowed(fs, e.path, depth - 1, trail[1..], s);
        EntrySkillsBelow(fs, e, depth, s.provenance);
      }
      EntryContributes(fs, fs.listings[dir], e, depth, s.provenance);
    }
  }

  lemma EntryHoldsSkill(fs: FileSystem, e: DirEntry, depth: nat, provenance: Provenance, s: LoadedSkill)
    requires IsVisibleDir(e) && s in SkillIn(fs, e.path, provenance)
    ensures s in EntrySkills(fs, e, depth, provenance)
  {
    hide AllSkills;
  }

  lemma EntrySkillsBelow(fs: FileSystem, e: DirEntry, depth: nat, provenance: Provenance)
    requires IsVisibleDir(e) && e.path !in fs.skillFiles && depth > 0
    ensures EntrySkills(fs, e, depth, provenance) == AllSkills(fs, e.path, depth - 1, provenance)
  {
    hide AllSkills;
  }

  lemma {:induction false} EntryContributes(fs: FileSystem, entries: seq<DirEntry>, e: DirEntry, depth: nat, provenance: Provenance)
    requires e in entries
    ensures forall s | s in EntrySkills(fs, e, depth, provenance) :: s in SkillsBelow(fs, entries, depth, provenance)
  {
    hide EntrySkills;
    if e != entries[|entries| - 1] {
      EntryContributes(fs, entries[..|entries| - 1], e, depth, provenance);
    }
  }

  /** Main result: every skill a scan inserts lies in the traversal of one scan directory and carries its provenance. */
  lemma {:induction false} ScanProvenance(fs: FileSystem, dirs: seq<(Path, Provenance)>, depth: nat, skills: Skills, total: nat)
    ensures forall s | s in Scan(fs, dirs, depth, skills, total) ::
              exists d | d in dirs :: s in AllSkills(fs, d.0, depth, d.1) && s.provenance == d.1
  {
    hide InsertAll, NewNames, AllSkills;
    if dirs != [] && total < MAX_DISCOVERED_SKILLS {
      var found := FirstTier(fs, dirs, depth, total);
      TraversalProvenance(fs, dirs[0].0, depth, dirs[0].1);
      ScanProvenance(fs, dirs[1..], depth, InsertAll(skills, found), total + NewNames(skills, found));
      assert forall s | s in found :: dirs[0] in dirs && s in AllSkills(fs, dirs[0].0, depth, dirs[0].1);
    }
  }

  // ---- Which skills a scan keeps ----------------------------------------------------------------------------

  /** How many skills of tier i a scan of an empty registry has room for: 100 less the names found before it. */
  ghost function Room(fs: FileSystem, dirs: seq<(Path, Provenance)>, depth: nat, i: nat): nat
    requires i < |dirs|
  {
    ScanIsCapped(fs, dirs[..i], depth, map[], 0);
    100 - NewNames(map[], Scan(fs, dirs[..i], depth, map[], 0))
  }

  ghost function Tier(fs: FileSystem, dirs: seq<(Path, Provenance)>, depth: nat, i: nat): seq<LoadedSkill>
    requires i < |dirs|
  {
    AllSkills(fs, dirs[i].0, depth, dirs[i].1)
  }

  /** What the scan takes of tier i. */
  ghost function Share(fs: FileSystem, dirs: seq<(Path, Provenance)>, depth: nat, i: nat): seq<LoadedSkill>
    requires i < |dirs|
  {
    Take(Tier(fs, dirs, depth, i), Room(fs, dirs, depth, i))
  }

  /** All tiers in full. */
  ghost function Whole(fs: FileSystem, dirs: seq<(Path, Provenance)>, depth: nat): seq<LoadedSkill> {
    if dirs == [] then [] else Whole(fs, dirs[..|dirs| - 1], depth) + Tier(fs, dirs, depth, |dirs| - 1)
  }

  /** A tier is cut exactly when it is longer than its room; shadowing skills use the room up like new ones. */
  ghost predicate EveryTierFits(fs: FileSystem, dirs: seq<(Path, Provenance)>, depth: nat) {
    forall i | 0 <= i < |dirs| :: |Tier(fs, dirs, depth, i)| <= Room(fs, dirs, depth, i)
  }

  lemma NewNamesConcat(skills: Skills, a: seq<LoadedSkill>, b: seq<LoadedSkill>)
    ensures NewNames(skills, a + b) == NewNames(skills, a) + NewNames(InsertAll(skills, a), b)
  {
    hide InsertAll;
    InsertAllConcat(skills, a, b);
  }

  /** The last tier adds as much of its traversal as the names found before it leave room for. */
  lemma {:induction false} ScanLast(fs: FileSystem, dirs: seq<(Path, Provenance)>, depth: nat, skills: Skills, total: nat)
    requires dirs != [] && total <= MAX_DISCOVERED_SKILLS
    ensures var init := Scan(fs, dirs[..|dirs| - 1], depth, skills, total);
            && total + NewNames(skills, init) <= MAX_DISCOVERED_SKILLS
            && Scan(fs, dirs, depth, skills, total)
            == init + Take(Tier(fs, dirs, depth, |dirs| - 1), MAX_DISCOVERED_SKILLS - total - NewNames(skills, init))
  {
    hide *;
    var n := |dirs|;
    if total >= MAX_DISCOVERED_SKILLS || n == 1 {
      ScanOfOne(fs, dirs, depth, skills, total);
    } else {
      var found := FirstTier(fs, dirs, depth, total);
      var skills', total' := InsertAll(skills, found), total + NewNames(skills, found);
      var rest := Scan(fs, dirs[1..][..n - 2], depth, skills', total');
      ScanLast(fs, dirs[1..], depth, skills', total');
      ScanCons(fs, dirs, depth, skills, total);
      ScanCons(fs, dirs[..n - 1], depth, skills, total);
      assert dirs[..n - 1][1..] == dirs[1..][..n - 2];
      SameFirstTier(fs, dirs, n - 1, depth, total);
      NewNamesConcat(skills, found, rest);
      var last := Take(Tier(fs, dirs[1..], depth, n - 2), MAX_DISCOVERED_SKILLS - total' - NewNames(skills', rest));
      SameLastTier(fs, dirs, depth);
      assert found + (rest + last) == (found + rest) + last;
    }
  }

  lemma ScanOfOne(fs: FileSystem, dirs: seq<(Path, Provenance)>, depth: nat, skills: Skills, total: nat)
    requires dirs != [] && total <= MAX_DISCOVERED_SKILLS && (total == MAX_DISCOVERED_SKILLS || |dirs| == 1)
    ensures Scan(fs, dirs[..|dirs| - 1], depth, skills, total) == [] && NewNames(skills, []) == 0
    ensures Scan(fs, dirs, depth, skills, total) == Take(Tier(fs, dirs, depth, |dirs| - 1), MAX_DISCOVERED_SKILLS - total)
  {
    hide AllSkills, InsertAll, NewNames;
    NoNewNames(skills);
  }

  lemma ScanCons(fs: FileSystem, dirs: seq<(Path, Provenance)>, depth: nat, skills: Skills, total: nat)
    requires dirs != [] && total < MAX_DISCOVERED_SKILLS
    ensures var found := FirstTier(fs, dirs, depth, total);
            && total + NewNames(skills, found) <= MAX_DISCOVERED_SKILLS
            && Scan(fs, dirs, depth, skills, total)
               == found + Scan(fs, dirs[1..], depth, InsertAll(skills, found), total + NewNames(skills, found))
  {
    hide AllSkills, InsertAll;
  }

  lemma SameFirstTier(fs: FileSystem, dirs: seq<(Path, Provenance)>, n: nat, depth: nat, total: nat)
    requires 0 < n <= |dirs| && total < MAX_DISCOVERED_SKILLS
    ensures FirstTier(fs, dirs[..n], depth, total) == FirstTier(fs, dirs, depth, total)
  {
    hide AllSkills;
  }

  lemma SameLastTier(fs: FileSystem, dirs: seq<(Path, Provenance)>, depth: nat)
    requires |dirs| >= 2
    ensures Tier(fs, dirs[1..], depth, |dirs| - 2) == Tier(fs, dirs, depth, |dirs| - 1)
  {
    hide AllSkills;
  }

  lemma NoNewNames(skills: Skills)
    ensures NewNames(skills, []) == 0
  {
  }

  /** Main result: a scan is the shares of its tiers, one after the other. */
  lemma ScanIsItsShares(fs: FileSystem, dirs: seq<(Path, Provenance)>, depth: nat, i: nat)
    requires i < |dirs|
    ensures Scan(fs, dirs[..i + 1], depth, map[], 0) == Scan(fs, dirs[..i], depth, map[], 0) + Share(fs, dirs, depth, i)
  {
    hide Scan, AllSkills, NewNames;
    ScanLast(fs, dirs[..i + 1], depth, map[], 0);
    assert dirs[..i + 1][..i] == dirs[..i];
  }

  /** Main result: a scan takes every tier in full exactly when each fits in its room. */
  lemma {:induction false} ScanIsWholeExactly(fs: FileSystem, dirs: seq<(Path, Provenance)>, depth: nat)
    ensures |Scan(fs, dirs, depth, map[], 0)| <= |Whole(fs, dirs, depth)|
    ensures Scan(fs, dirs, depth, map[], 0) == Whole(fs, dirs, depth) <==> EveryTierFits(fs, dirs, depth)
  {
    hide Scan, Room, Tier;
    if dirs == [] {
      ScanEnds(fs, dirs, depth);
    } else {
      var n := |dirs| - 1;
      var init := dirs[..n];
      ScanIsWholeExactly(fs, init, depth);
      ScanIsItsShares(fs, dirs, depth, n);
      assert dirs[..n + 1] == dirs;
      forall i | 0 <= i < n
        ensures Tier(fs, init, depth, i) == Tier(fs, dirs, depth, i) && Room(fs, init, depth, i) == Room(fs, dirs, depth, i)
      {
        SameInPrefix(fs, dirs, depth, n, i);
      }
      var a, b, x, y := Scan(fs, init, depth, map[], 0), Whole(fs, init, depth), Share(fs, dirs, depth, n), Tier(fs, dirs, depth, n);
      if a + x == b + y {
        assert a == (a + x)[..|a|] && b == (b + y)[..|b|];
        assert x == (a + x)[|a|..] && y == (b + y)[|b|..];
      }
    }
  }

  lemma SameInPrefix(fs: FileSystem, dirs: seq<(Path, Provenance)>, depth: nat, n: nat, i: nat)
    requires i < n <= |dirs|
    ensures Tier(fs, dirs[..n], depth, i) == Tier(fs, dirs, depth, i)
    ensures Room(fs, dirs[..n], depth, i) == Room(fs, dirs, depth, i)
    ensures Share(fs, dirs[..n], depth, i) == Share(fs, dirs, depth, i)
  {
    hide AllSkills, Scan, NewNames;
    assert dirs[..n][..i] == dirs[..i] && dirs[..n][i] == dirs[i];
  }

  /** Main result: when all tiers together hold at most 100 skills, none is cut. */
  lemma SmallTreesFit(fs: FileSystem, dirs: seq<(Path, Provenance)>, depth: nat)
    requires |Whole(fs, dirs, depth)| <= 100
    ensures EveryTierFits(fs, dirs, depth) && Scan(fs, dirs, depth, map[], 0) == Whole(fs, dirs, depth)
  {
    hide Scan, Tier, NewNames, Whole;
    forall i | 0 <= i < |dirs| ensures |Tier(fs, dirs, depth, i)| <= Room(fs, dirs, depth, i) {
      ScanIsWholeExactly(fs, dirs[..i], depth);
      WholeGrows(fs, dirs, depth, i);
    }
    ScanIsWholeExactly(fs, dirs, depth);
  }

  lemma {:induction false} WholeGrows(fs: FileSystem, dirs: seq<(Path, Provenance)>, depth: nat, i: nat)
    requires i < |dirs|
    ensures |Whole(fs, dirs[..i], depth)| + |Tier(fs, dirs, depth, i)| <= |Whole(fs, dirs, depth)|
  {
    hide AllSkills;
    if i < |dirs| - 1 {
      WholeGrows(fs, dirs[..|dirs| - 1], depth, i);
      assert dirs[..|dirs| - 1][..i] == dirs[..i];
    }
  }

  // ---- Which names end up registered --------------------------------------------------------------------------

  predicate HasName(found: seq<LoadedSkill>, name: string) {
    exists s | s in found :: s.parsed.name == name
  }

  /** An inserted name has one of the skills found under it; other names keep what they had. */
  lemma {:induction false} InsertedFrom(skills: Skills, found: seq<LoadedSkill>, name: string)
    ensures var all := InsertAll(skills, found);
            if HasName(found, name) then name in all && all[name] in found && all[name].parsed.name == name
            else (name in all <==> name in skills) && (name in skills ==> all[name] == skills[name])
  {
    if found != [] {
      var init, last := found[..|found| - 1], found[|found| - 1];
      InsertedFrom(skills, init, name);
      assert found == init + [last];
    }
  }

  /** The registry after scanning dirs from nothing. */
  ghost function Registered(fs: FileSystem, dirs: seq<(Path, Provenance)>, depth: nat): Skills {
    InsertAll(map[], Scan(fs, dirs, depth, map[], 0))
  }

  lemma RegisteredStep(fs: FileSystem, dirs: seq<(Path, Provenance)>, depth: nat)
    requires dirs != []
    ensures Registered(fs, dirs, depth)
         == InsertAll(Registered(fs, dirs[..|dirs| - 1], depth), Share(fs, dirs, depth, |dirs| - 1))
  {
    hide Scan, InsertAll, Share;
    ScanIsItsShares(fs, dirs, depth, |dirs| - 1);
    assert dirs[..|dirs|] == dirs;
    InsertAllConcat(map[], Scan(fs, dirs[..|dirs| - 1], depth, map[], 0), Share(fs, dirs, depth, |dirs| - 1));
  }

  /** Main result: exactly the names in some tier's share are registered, each from the last tier whose share has it. */
  lemma {:induction false} RegisteredExactly(fs: FileSystem, dirs: seq<(Path, Provenance)>, depth: nat, name: string)
    ensures name in Registered(fs, dirs, depth) <==> exists i :: 0 <= i < |dirs| && HasName(Share(fs, dirs, depth, i), name)
    ensures forall i | 0 <= i < |dirs| && HasName(Share(fs, dirs, depth, i), name)
                     && (forall j | i < j < |dirs| :: !HasName(Share(fs, dirs, depth, j), name)) ::
              Registered(fs, dirs, depth)[name] in Share(fs, dirs, depth, i)
  {
    hide Share, InsertAll, HasName, Registered;
    if dirs == [] {
      NothingRegistered(fs, dirs, depth);
    } else {
      var n := |dirs| - 1;
      RegisteredExactly(fs, dirs[..n], depth, name);
      RegisteredStep(fs, dirs, depth);
      InsertedFrom(Registered(fs, dirs[..n], depth), Share(fs, dirs, depth, n), name);
      forall i | 0 <= i < n ensures Share(fs, dirs[..n], depth, i) == Share(fs, dirs, depth, i) {
        SameInPrefix(fs, dirs, depth, n, i);
      }
    }
  }

  lemma NothingRegistered(fs: FileSystem, dirs: seq<(Path, Provenance)>, depth: nat)
    requires dirs == []
    ensures Registered(fs, dirs, depth) == map[]
  {
  }

  /** Some scan directory has a trail to a skill of this name. */
  ghost predicate OnDisk(fs: FileSystem, dirs: seq<(Path, Provenance)>, depth: nat, name: string) {
    exists i, trail, skill: ParsedSkill ::
      0 <= i < |dirs| && |trail| <= depth + 1 && LeadsTo(fs, dirs[i].0, trail, skill) && skill.name == name
  }

  lemma OnDiskIsInATier(fs: FileSystem, dirs: seq<(Path, Provenance)>, depth: nat, name: string)
    ensures OnDisk(fs, dirs, depth, name) <==> exists i :: 0 <= i < |dirs| && HasName(Tier(fs, dirs, depth, i), name)
  {
    hide AllSkills, LeadsTo;
    if OnDisk(fs, dirs, depth, name) {
      var i, trail, skill: ParsedSkill :|
        0 <= i < |dirs| && |trail| <= depth + 1 && LeadsTo(fs, dirs[i].0, trail, skill) && skill.name == name;
      var s := LoadedSkill(skill, dirs[i].1);
      DiscoveryFindsExactly(fs, dirs[i].0, depth, dirs[i].1, s);
      assert s in Tier(fs, dirs, depth, i) && HasName(Tier(fs, dirs, depth, i), name);
    }
    forall i | 0 <= i < |dirs| && HasName(Tier(fs, dirs, depth, i), name) ensures OnDisk(fs, dirs, depth, name) {
      var s :| s in Tier(fs, dirs, depth, i) && s.parsed.name == name;
      DiscoveryFindsExactly(fs, dirs[i].0, depth, dirs[i].1, s);
    }
  }

  /** Main result: what is registered is on disk, and when every tier fits, everything on disk is registered. */
  lemma RegisteredIsOnDisk(fs: FileSystem, dirs: seq<(Path, Provenance)>, depth: nat, name: string)
    ensures name in Registered(fs, dirs, depth) ==> OnDisk(fs, dirs, depth, name)
    ensures EveryTierFits(fs, dirs, depth) ==> (name in Registered(fs, dirs, depth) <==> OnDisk(fs, dirs, depth, name))
  {
    hide Registered, Tier, Room, OnDisk;
    RegisteredExactly(fs, dirs, depth, name);
    OnDiskIsInATier(fs, dirs, depth, name);
    if EveryTierFits(fs, dirs, depth) {
      assert forall i | 0 <= i < |dirs| :: Share(fs, dirs, depth, i) == Tier(fs, dirs, depth, i);
    }
  }

  ghost predicate DistinctNames(found: seq<LoadedSkill>) {
    forall i, j | 0 <= i < j < |found| :: found[i].parsed.name != found[j].parsed.name
  }

  /**
   Main result: the last tier shadows earlier ones, as documented, exactly when it fits in its
   room. A tier that adds no name at all can thus still lose part of its overrides.
   */
  lemma LastTierShadowsExactly(fs: FileSystem, dirs: seq<(Path, Provenance)>, depth: nat)
    requires dirs != [] && DistinctNames(Tier(fs, dirs, depth, |dirs| - 1))
    requires forall i | 0 <= i < |dirs| - 1 :: dirs[i].1 != dirs[|dirs| - 1].1
    ensures (forall s | s in Tier(fs, dirs, depth, |dirs| - 1) :: (s.parsed.name, s) in Registered(fs, dirs, depth).Items)
       <==> |Tier(fs, dirs, depth, |dirs| - 1)| <= Room(fs, dirs, depth, |dirs| - 1)
  {
    hide AllSkills, Room, Registered, InsertAll;
    var n := |dirs| - 1;
    var tier, share := Tier(fs, dirs, depth, n), Share(fs, dirs, depth, n);
    var before, after := Registered(fs, dirs[..n], depth), Registered(fs, dirs, depth);
    RegisteredStep(fs, dirs, depth);
    TraversalProvenance(fs, dirs[n].0, depth, dirs[n].1);
    if |tier| <= Room(fs, dirs, depth, n) {
      assert share == tier;
      forall s | s in tier ensures (s.parsed.name, s) in after.Items {
        InsertedFrom(before, tier, s.parsed.name);
        OnlyOneOfName(tier, s, after[s.parsed.name]);
      }
    } else {
      var s := tier[|share|];
      assert !HasName(share, s.parsed.name);
      InsertedFrom(before, share, s.parsed.name);
      if s.parsed.name in before {
        OthersProvenance(fs, dirs, depth, s.parsed.name);
      }
      assert s in tier && (s.parsed.name, s) !in after.Items;
    }
  }

  lemma OnlyOneOfName(found: seq<LoadedSkill>, s: LoadedSkill, t: LoadedSkill)
    requires DistinctNames(found) && s in found && t in found && s.parsed.name == t.parsed.name
    ensures s == t
  {
  }

  lemma OthersProvenance(fs: FileSystem, dirs: seq<(Path, Provenance)>, depth: nat, name: string)
    requires dirs != [] && name in Registered(fs, dirs[..|dirs| - 1], depth)
    ensures exists i | 0 <= i < |dirs| - 1 :: Registered(fs, dirs[..|dirs| - 1], depth)[name].provenance == dirs[i].1
  {
    hide AllSkills, Scan, InsertAll;
    var init := dirs[..|dirs| - 1];
    var found := Scan(fs, init, depth, map[], 0);
    InsertedFrom(map[], found, name);
    ScanProvenance(fs, init, depth, map[], 0);
    var d :| d in init && Registered(fs, init, depth)[name].provenance == d.1;
    var i :| 0 <= i < |init| && init[i] == d;
    assert dirs[i] == d;
  }

  // ---- Scoring --------------------------------------------------------------------------------------------------

  /** Lowercasing, Unicode alphanumerics and regular expressions, none of which is modelled. */
  datatype TextRules = TextRules(lower: string -> string, isAlphanumeric: char -> bool, matches: (string, string) -> bool)

  /** `split_whitespace`. */
  function Words(s: string): seq<string>
    decreases |s|
  {
    if s == "" then []
    else if IsWhitespace(s[0]) then Words(s[1..])
    else
      var n := WordLength(s);
      [s[..n]] + Words(s[n..])
  }

  function WordLength(s: string): (n: nat)
    ensures n <= |s| && (s != "" && !IsWhitespace(s[0]) ==> n > 0)
  {
    if s == "" || IsWhitespace(s[0]) then 0 else 1 + WordLength(s[1..])
  }

  function TrimMatches(s: string, p: char -> bool): string {
    TrimEndWhile(TrimStartWhile(s, p), p)
  }

  predicate ExactWord(rules: TextRules, lower: string, keyword: string) {
    exists w | w in Words(lower) :: TrimMatches(w, (c: char) => !rules.isAlphanumeric(c)) == keyword
  }

  function KeywordPoints(rules: TextRules, lower: string, keyword: string): nat {
    if ExactWord(rules, lower, keyword) then 10 else if Contains(lower, keyword) then 5 else 0
  }

  function Sum<T>(xs: seq<T>, points: T -> nat): nat {
    if xs == [] then 0 else Sum(xs[..|xs| - 1], points) + points(xs[|xs| - 1])
  }

  predicate Vetoed(rules: TextRules, s: ParsedSkill, message: string) {
    exists k | k in s.excludeKeywords :: Contains(rules.lower(message), k)
  }

  function Score(rules: TextRules, s: ParsedSkill, message: string): nat {
    var lower := rules.lower(message);
    if Vetoed(rules, s, message) then 0
    else
      Min(Sum(s.keywords, (k: string) => KeywordPoints(rules, lower, k)), 30)
      + Min(Sum(s.tags, (t: string) => if Contains(lower, t) then 3 else 0), 15)
      + Min(Sum(s.patterns, (p: string) => if rules.matches(p, message) then 20 else 0), 40)
  }

  method ScoreSkill(rules: TextRules, s: ParsedSkill, message: string) returns (score: nat)
    ensures score == Score(rules, s, message)
  {
    hide Contains, ExactWord;
    var lower := rules.lower(message);
    if exists k | k in s.excludeKeywords :: Contains(lower, k) {
      return 0;
    }
    score := 0;
    var keywordScore := 0;
    for i := 0 to |s.keywords|
      invariant keywordScore == Sum(s.keywords[..i], (k: string) => KeywordPoints(rules, lower, k))
    {
      assert s.keywords[..i + 1][..i] == s.keywords[..i];
      if ExactWord(rules, lower, s.keywords[i]) {
        keywordScore := keywordScore + 10;
      } else if Contains(lower, s.keywords[i]) {
        keywordScore := keywordScore + 5;
      }
    }
    assert s.keywords[..|s.keywords|] == s.keywords;
    score := score + Min(keywordScore, 30);
    var tagScore := 0;
    for i := 0 to |s.tags|
      invariant tagScore == Sum(s.tags[..i], (t: string) => if Contains(lower, t) then 3 else 0)
    {
      assert s.tags[..i + 1][..i] == s.tags[..i];
      if Contains(lower, s.tags[i]) {
        tagScore := tagScore + 3;
      }
    }
    assert s.tags[..|s.tags|] == s.tags;
    score := score + Min(tagScore, 15);
    var regexScore := 0;
    for i := 0 to |s.patterns|
      invariant regexScore == Sum(s.patterns[..i], (p: string) => if rules.matches(p, message) then 20 else 0)
    {
      assert s.patterns[..i + 1][..i] == s.patterns[..i];
      if rules.matches(s.patterns[i], message) {
        regexScore := regexScore + 20;
      }
    }
    assert s.patterns[..|s.patterns|] == s.patterns;
    score := score + Min(regexScore, 40);
  }

  lemma {:induction false} SumPositive<T>(xs: seq<T>, points: T -> nat)
    ensures Sum(xs, points) > 0 <==> exists x | x in xs :: points(x) > 0
  {
    if xs != [] {
      SumPositive(xs[..|xs| - 1], points);
      assert xs == xs[..|xs| - 1] + [xs[|xs| - 1]];
    }
  }

  ghost predicate SubstringAt(s: string, i: nat, t: string) {
    i + |t| <= |s| && s[i..i + |t|] == t
  }

  lemma SubstringIsContained(s: string, i: nat, t: string)
    requires SubstringAt(s, i, t)
    ensures Contains(s, t)
  {
    assert IsPrefix(t, s[i..]);
  }

  lemma {:induction false} WordsAreSubstrings(s: string, w: string) returns (i: nat)
    requires w in Words(s)
    ensures SubstringAt(s, i, w)
    decreases |s|
  {
    if IsWhitespace(s[0]) {
      var j := WordsAreSubstrings(s[1..], w);
      i := j + 1;
    } else {
      var n := WordLength(s);
      if w == s[..n] {
        i := 0;
      } else {
        assert w in Words(s[n..]);
        var j := WordsAreSubstrings(s[n..], w);
        i := j + n;
        assert s[n..][j..j + |w|] == s[i..i + |w|];
      }
    }
  }

  /** An exact word match is in particular an occurrence of the keyword. */
  lemma ExactWordIsContained(rules: TextRules, lower: string, keyword: string)
    ensures ExactWord(rules, lower, keyword) ==> Contains(lower, keyword)
  {
    hide Contains, Words, TrimMatches;
    if ExactWord(rules, lower, keyword) {
      var p := (c: char) => !rules.isAlphanumeric(c);
      var w :| w in Words(lower) && TrimMatches(w, p) == keyword;
      var i := WordsAreSubstrings(lower, w);
      var j := TrimmedIsSubstring(w, p);
      NestedSubstring(lower, i, w, j, keyword);
      SubstringIsContained(lower, i + j, keyword);
    }
  }

  lemma NestedSubstring(s: string, i: nat, w: string, j: nat, t: string)
    requires SubstringAt(s, i, w) && SubstringAt(w, j, t)
    ensures SubstringAt(s, i + j, t)
  {
    var u := s[i + j..i + j + |t|];
    forall k | 0 <= k < |t| ensures u[k] == t[k] {
      assert t[k] == w[j..j + |t|][k] == w[j + k];
      assert w[j + k] == s[i..i + |w|][j + k] == s[i + (j + k)];
    }
    assert u == t;
  }

  lemma TrimmedIsSubstring(w: string, p: char -> bool) returns (j: nat)
    ensures SubstringAt(w, j, TrimMatches(w, p))
  {
    hide TrimStartWhile, TrimEndWhile;
    var inner := TrimStartWhile(w, p);
    j := |w| - |inner|;
    PrefixOfSuffix(w, j, inner, TrimEndWhile(inner, p));
  }

  lemma PrefixOfSuffix(w: string, j: nat, inner: string, t: string)
    requires j <= |w| && inner == w[j..] && |t| <= |inner| && t == inner[..|t|]
    ensures SubstringAt(w, j, t)
  {
    assert w[j..j + |t|] == w[j..][..|t|];
  }

  /** Main result: a score is at most 85, and positive exactly for an unvetoed keyword, tag or pattern hit. */
  lemma ScoreSpec(rules: TextRules, s: ParsedSkill, message: string)
    ensures Score(rules, s, message) <= 85
    ensures Vetoed(rules, s, message) ==> Score(rules, s, message) == 0
    ensures Score(rules, s, message) > 0 <==>
              && !Vetoed(rules, s, message)
              && (|| (exists k | k in s.keywords :: Contains(rules.lower(message), k))
                  || (exists t | t in s.tags :: Contains(rules.lower(message), t))
                  || (exists p | p in s.patterns :: rules.matches(p, message)))
  {
    hide Contains, ExactWord, Vetoed;
    var lower := rules.lower(message);
    SumPositive(s.keywords, (k: string) => KeywordPoints(rules, lower, k));
    SumPositive(s.tags, (t: string) => if Contains(lower, t) then 3 else 0);
    SumPositive(s.patterns, (p: string) => if rules.matches(p, message) then 20 else 0);
    forall k ensures KeywordPoints(rules, lower, k) > 0 <==> Contains(lower, k) {
      ExactWordIsContained(rules, lower, k);
    }
  }

  // ---- Selection --------------------------------------------------------------------------------------------------

  /** The declared budget, or a quarter of the prompt's bytes when that is more than twice as large; never zero. */
  function TokenCost(s: LoadedSkill): (n: nat)
    ensures n >= 1
  {
    var declared, approx := s.parsed.maxContextTokens, ByteLen(s.parsed.prompt) / 4;
    var cost := if approx > declared * 2 then approx else declared;
    if cost >= 1 then cost else 1
  }

  datatype Scored = Scored(skill: LoadedSkill, score: nat)

  predicate HigherScore(a: Scored, b: Scored) {
    a.score >= b.score
  }

  function TotalCost(picked: seq<Scored>): nat {
    if picked == [] then 0 else TokenCost(picked[0].skill) + TotalCost(picked[1..])
  }

  function Greedy(sorted: seq<Scored>, slots: nat, budget: nat): seq<Scored> {
    if sorted == [] || slots == 0 then []
    else if TokenCost(sorted[0].skill) <= budget
    then [sorted[0]] + Greedy(sorted[1..], slots - 1, budget - TokenCost(sorted[0].skill))
    else Greedy(sorted[1..], slots, budget)
  }

  /** Main result: within count and budget, best first, and nothing left out that still fits. */
  lemma {:induction false} GreedySpec(sorted: seq<Scored>, slots: nat, budget: nat)
    requires SortedBy(sorted, HigherScore)
    ensures var r := Greedy(sorted, slots, budget);
            && |r| <= slots && TotalCost(r) <= budget && SortedBy(r, HigherScore)
            && (forall s | s in r :: s in sorted)
            && (forall s | s in sorted && s !in r :: |r| == slots || TokenCost(s.skill) > budget - TotalCost(r))
  {
    hide TokenCost, TotalCost, HigherScore;
    NoCost();
    if sorted != [] && slots > 0 {
      var first, tail := sorted[0], sorted[1..];
      var cost := TokenCost(first.skill);
      SortedTail(sorted, HigherScore);
      assert sorted == [first] + tail;
      if cost <= budget {
        var rest := Greedy(tail, slots - 1, budget - cost);
        GreedySpec(tail, slots - 1, budget - cost);
        HeadIsHighest(first, tail, rest);
        CostOfCons(first, rest);
        assert Greedy(sorted, slots, budget) == [first] + rest;
      } else {
        GreedySpec(tail, slots, budget);
      }
    }
  }

  /**
   x is left out of what was picked: the picks before it score no less, those after it no more, and
   when its turn came the slots were taken or it cost more than was left.
   */
  ghost predicate LeftOut(picked: seq<Scored>, x: Scored, m: nat, slots: nat, budget: nat) {
    && m <= |picked|
    && (forall i | 0 <= i < m :: picked[i].score >= x.score)
    && (forall i | m <= i < |picked| :: x.score >= picked[i].score)
    && (m == slots || TokenCost(x.skill) > budget - TotalCost(picked[..m]))
  }

  /** Main result: nothing is passed over for a lower score. */
  lemma {:induction false} GreedyLeavesOut(sorted: seq<Scored>, slots: nat, budget: nat, x: Scored) returns (m: nat)
    requires SortedBy(sorted, HigherScore) && x in sorted && x !in Greedy(sorted, slots, budget)
    ensures LeftOut(Greedy(sorted, slots, budget), x, m, slots, budget)
  {
    hide TokenCost, TotalCost;
    NoCost();
    if slots == 0 {
      m := 0;
    } else {
      var first, tail := sorted[0], sorted[1..];
      var cost := TokenCost(first.skill);
      SortedTail(sorted, HigherScore);
      HeadScores(sorted);
      assert sorted == [first] + tail;
      if cost <= budget {
        var rest := Greedy(tail, slots - 1, budget - cost);
        assert Greedy(sorted, slots, budget) == [first] + rest;
        var m' := GreedyLeavesOut(tail, slots - 1, budget - cost, x);
        m := m' + 1;
        CostOfCons(first, rest[..m']);
        assert ([first] + rest)[..m] == [first] + rest[..m'];
      } else if x == first {
        m := 0;
        GreedySpec(tail, slots, budget);
        var picked := Greedy(tail, slots, budget);
        assert picked[..0] == [];
        assert forall i | 0 <= i < |picked| :: picked[i] in picked;
      } else {
        m := GreedyLeavesOut(tail, slots, budget, x);
      }
    }
  }

  lemma HeadScores(sorted: seq<Scored>)
    requires SortedBy(sorted, HigherScore) && sorted != []
    ensures forall x | x in sorted :: sorted[0].score >= x.score
  {
    forall i | 0 < i < |sorted| ensures sorted[0].score >= sorted[i].score {
      assert HigherScore(sorted[0], sorted[i]);
    }
  }

  lemma NoCost()
    ensures TotalCost([]) == 0
  {
  }

  lemma CostOfCons(first: Scored, rest: seq<Scored>)
    ensures TotalCost([first] + rest) == TokenCost(first.skill) + TotalCost(rest)
  {
    assert ([first] + rest)[1..] == rest;
  }

  lemma HeadIsHighest(first: Scored, tail: seq<Scored>, rest: seq<Scored>)
    requires SortedBy([first] + tail, HigherScore) && SortedBy(rest, HigherScore) && forall s | s in rest :: s in tail
    ensures SortedBy([first] + rest, HigherScore)
  {
    var all := [first] + tail;
    forall i | 0 <= i < |rest| ensures HigherScore(first, rest[i]) {
      assert rest[i] in tail;
      var k :| 0 <= k < |tail| && tail[k] == rest[i];
      assert all[0] == first && all[k + 1] == rest[i];
    }
  }

  /** Enabled skills with a positive score, in the hash map's order. */
  function Matching(rules: TextRules, order: seq<LoadedSkill>, disabled: set<string>, message: string): seq<Scored> {
    if order == [] then []
    else
      var s := order[|order| - 1];
      Matching(rules, order[..|order| - 1], disabled, message)
      + (if s.parsed.name !in disabled && Score(rules, s.parsed, message) > 0
         then [Scored(s, Score(rules, s.parsed, message))] else [])
  }

  lemma {:induction false} MatchingMembers(rules: TextRules, order: seq<LoadedSkill>, disabled: set<string>,
                                           message: string, x: Scored)
    ensures x in Matching(rules, order, disabled, message)
       <==> x.skill in order && x.skill.parsed.name !in disabled && x.score == Score(rules, x.skill.parsed, message) > 0
  {
    hide Score;
    if order != [] {
      MatchingMembers(rules, order[..|order| - 1], disabled, message, x);
      assert order == order[..|order| - 1] + [order[|order| - 1]];
    }
  }

  lemma {:induction false} MatchingDistinct(rules: TextRules, order: seq<LoadedSkill>, disabled: set<string>, message: string)
    requires NoDuplicates(order)
    ensures NoDuplicates(Matching(rules, order, disabled, message))
  {
    hide Score;
    if order != [] {
      var init, s := order[..|order| - 1], order[|order| - 1];
      MatchingDistinct(rules, init, disabled, message);
      var x := Scored(s, Score(rules, s.parsed, message));
      assert s !in init;
      MatchingMembers(rules, init, disabled, message, x);
    }
  }

  lemma {:induction false} GreedyDistinct(sorted: seq<Scored>, slots: nat, budget: nat)
    requires NoDuplicates(sorted)
    ensures NoDuplicates(Greedy(sorted, slots, budget))
    ensures forall x | x in Greedy(sorted, slots, budget) :: x in sorted
  {
    hide TokenCost;
    if sorted != [] && slots > 0 {
      var cost := TokenCost(sorted[0].skill);
      assert sorted[0] !in sorted[1..];
      if cost <= budget {
        GreedyDistinct(sorted[1..], slots - 1, budget - cost);
      } else {
        GreedyDistinct(sorted[1..], slots, budget);
      }
    }
  }

  /** What the selection amounts to, whatever the order in which the skills are listed. */
  function Picked(rules: TextRules, order: seq<LoadedSkill>, disabled: set<string>, message: string,
                  slots: nat, budget: nat): seq<Scored> {
    Greedy(StableSort(Matching(rules, order, disabled, message), HigherScore), slots, budget)
  }

  predicate IsMatch(rules: TextRules, order: seq<LoadedSkill>, disabled: set<string>, message: string, x: Scored) {
    x.skill in order && x.skill.parsed.name !in disabled && x.score == Score(rules, x.skill.parsed, message) > 0
  }

  lemma HigherScoreIsTotal()
    ensures TotalPreorder(HigherScore)
  {
  }

  lemma SortedMatches(rules: TextRules, order: seq<LoadedSkill>, disabled: set<string>, message: string)
    ensures var sorted := StableSort(Matching(rules, order, disabled, message), HigherScore);
            && SortedBy(sorted, HigherScore)
            && (forall x :: x in sorted <==> IsMatch(rules, order, disabled, message, x))
            && (NoDuplicates(order) ==> NoDuplicates(sorted))
  {
    hide Score, StableSort, Matching, HigherScore, IsMatch;
    var scored := Matching(rules, order, disabled, message);
    var sorted := StableSort(scored, HigherScore);
    HigherScoreIsTotal();
    StableSortSpec(scored, HigherScore);
    if NoDuplicates(order) {
      MatchingDistinct(rules, order, disabled, message);
      PermutationKeepsDistinct(scored, sorted);
    }
    forall x ensures x in sorted <==> IsMatch(rules, order, disabled, message, x) {
      MatchIs(rules, order, disabled, message, x);
      assert x in sorted <==> x in multiset(sorted);
      assert x in scored <==> x in multiset(scored);
    }
  }

  lemma MatchIs(rules: TextRules, order: seq<LoadedSkill>, disabled: set<string>, message: string, x: Scored)
    ensures x in Matching(rules, order, disabled, message) <==> IsMatch(rules, order, disabled, message, x)
  {
    hide Score, Matching;
    MatchingMembers(rules, order, disabled, message, x);
  }

  /** Within count and budget, best first, each match once, and nothing left out that still fits. */
  lemma PickedSpec(rules: TextRules, order: seq<LoadedSkill>, disabled: set<string>, message: string, slots: nat, budget: nat)
    requires NoDuplicates(order)
    ensures var picked := Picked(rules, order, disabled, message, slots, budget);
            && |picked| <= slots && TotalCost(picked) <= budget && SortedBy(picked, HigherScore) && NoDuplicates(picked)
            && (forall x | x in picked :: IsMatch(rules, order, disabled, message, x))
            && (forall x | IsMatch(rules, order, disabled, message, x) && x !in picked ::
                  |picked| == slots || TokenCost(x.skill) > budget - TotalCost(picked))
            && (forall x | IsMatch(rules, order, disabled, message, x) && x !in picked ::
                  exists m :: LeftOut(picked, x, m, slots, budget))
  {
    hide Score, StableSort, Matching, Greedy, HigherScore, IsMatch, TokenCost, TotalCost, LeftOut;
    var sorted := StableSort(Matching(rules, order, disabled, message), HigherScore);
    SortedMatches(rules, order, disabled, message);
    GreedySpec(sorted, slots, budget);
    GreedyDistinct(sorted, slots, budget);
    forall x | IsMatch(rules, order, disabled, message, x) && x !in Greedy(sorted, slots, budget)
      ensures exists m :: LeftOut(Greedy(sorted, slots, budget), x, m, slots, budget)
    {
      var m := GreedyLeavesOut(sorted, slots, budget, x);
    }
  }

  lemma PickedScores(picked: seq<Scored>)
    requires SortedBy(picked, HigherScore)
    ensures forall i, j | 0 <= i < j < |picked| :: picked[i].score >= picked[j].score
  {
    assert forall i, j | 0 <= i < j < |picked| :: HigherScore(picked[i], picked[j]);
  }

  class SkillsRegistry {
    var skills: Skills
    var disabled: set<string>
    var scanDirs: seq<(Path, Provenance)>
    const maxScanDepth: nat := DEFAULT_MAX_SCAN_DEPTH
    const maxActiveSkills: nat := 3
    const maxTotalContextTokens: nat := 4000

    /** Skills are filed under their own names. */
    ghost predicate Valid()
      reads this
    {
      forall name | name in skills :: skills[name].parsed.name == name
    }

    constructor ()
      ensures Valid() && skills == map[] && disabled == {} && scanDirs == []
    {
      skills, disabled, scanDirs := map[], {}, [];
    }

    predicate IsEnabled(name: string)
      reads this
    {
      name in skills && name !in disabled
    }

    method AddScanDir(dir: Path, provenance: Provenance)
      modifies this`scanDirs
      ensures scanDirs == if exists p | p in old(scanDirs) :: p.0 == dir then old(scanDirs)
                          else old(scanDirs) + [(dir, provenance)]
    {
      if !(exists p | p in scanDirs :: p.0 == dir) {
        scanDirs := scanDirs + [(dir, provenance)];
      }
    }

    method Enable(name: string) returns (found: bool)
      modifies this`disabled
      ensures found <==> name in skills
      ensures disabled == if found then old(disabled) - {name} else old(disabled)
    {
      found := name in skills;
      if found {
        disabled := disabled - {name};
      }
    }

    method Disable(name: string) returns (found: bool)
      modifies this`disabled
      ensures found <==> name in skills
      ensures disabled == if found then old(disabled) + {name} else old(disabled)
    {
      found := name in skills;
      if found {
        disabled := disabled + {name};
      }
    }

    /** discover: inserts what the scan finds, tier by tier; `found` is what it inserted. */
    method Discover(fs: FileSystem) returns (names: seq<string>, ghost found: seq<LoadedSkill>)
      requires Valid()
      modifies this`skills
      ensures Valid() && found == Scan(fs, scanDirs, maxScanDepth, old(skills), 0)
      ensures skills == InsertAll(old(skills), found)
      ensures |names| == |found| && forall i | 0 <= i < |names| :: names[i] == found[i].parsed.name
    {
      hide AllSkills, InsertAll, Scan;
      names, found := [], [];
      ScanEnds(fs, scanDirs, maxScanDepth);
      InsertNothing(skills);
      var totalCount: nat := 0;
      var i := 0;
      while i < |scanDirs| && totalCount < MAX_DISCOVERED_SKILLS
        invariant 0 <= i <= |scanDirs| && Valid()
        invariant found + Scan(fs, scanDirs[i..], maxScanDepth, skills, totalCount)
               == Scan(fs, scanDirs, maxScanDepth, old(skills), 0)
        invariant skills == InsertAll(old(skills), found)
        invariant |names| == |found| && forall k | 0 <= k < |names| :: names[k] == found[k].parsed.name
      {
        var batch := DiscoverFromDir(fs, scanDirs[i].0, MAX_DISCOVERED_SKILLS - totalCount, 0, maxScanDepth, scanDirs[i].1);
        assert batch == FirstTier(fs, scanDirs[i..], maxScanDepth, totalCount);
        ScanStep(fs, scanDirs, i, maxScanDepth, skills, totalCount);
        InsertAllConcat(old(skills), found, batch);
        ghost var rest := Scan(fs, scanDirs[i + 1..], maxScanDepth, InsertAll(skills, batch),
                               totalCount + NewNames(skills, batch));
        assert found + (batch + rest) == (found + batch) + rest;
        var newOnes := InsertFound(batch);
        found := found + batch;
        names := names + NamesOf(batch);
        totalCount := totalCount + newOnes;
        i := i + 1;
      }
    }

    /** The inner loop of discover: inserts one tier's skills and counts the names that were new. */
    method InsertFound(batch: seq<LoadedSkill>) returns (newOnes: nat)
      requires Valid()
      modifies this`skills
      ensures Valid() && skills == InsertAll(old(skills), batch) && newOnes == |skills| - |old(skills)|
    {
      newOnes := 0;
      for i := 0 to |batch|
        invariant Valid() && skills == InsertAll(old(skills), batch[..i]) && newOnes == |skills| - |old(skills)|
      {
        assert batch[..i + 1][..i] == batch[..i];
        var name := batch[i].parsed.name;
        var isNew := name !in skills;
        assert skills[name := batch[i]].Keys == skills.Keys + {name};
        assert |skills[name := batch[i]]| == |skills| + if isNew then 1 else 0;
        skills := skills[name := batch[i]];
        if isNew {
          newOnes := newOnes + 1;
        }
      }
      assert batch[..|batch|] == batch;
    }

    /**
     Main result: after a reload the registry holds at most 100 skills, each name with its last
     occurrence in the scan; a name is enabled iff it was found and was not disabled before. Names
     registered are on disk, and if every tier fits in its room, all names on disk are registered.
     */
    method Reload(fs: FileSystem) returns (names: seq<string>, ghost found: seq<LoadedSkill>)
      requires Valid()
      modifies this`skills, this`disabled
      ensures Valid() && |skills| <= 100
      ensures found == Scan(fs, scanDirs, maxScanDepth, map[], 0) && skills == InsertAll(map[], found)
      ensures disabled == old(disabled)
      ensures forall name :: IsEnabled(name) <==> name !in old(disabled) && exists s | s in found :: s.parsed.name == name
      ensures |names| == |found| && forall i | 0 <= i < |names| :: names[i] == found[i].parsed.name
      ensures forall name | name in skills :: OnDisk(fs, scanDirs, 3, name)
      ensures EveryTierFits(fs, scanDirs, 3) ==>
                forall name :: IsEnabled(name) <==> name !in old(disabled) && OnDisk(fs, scanDirs, 3, name)
    {
      hide OnDisk, EveryTierFits, Scan, InsertAll;
      var keep := disabled;
      skills := map[];
      names, found := Discover(fs);
      disabled := keep;
      ScanIsCapped(fs, scanDirs, maxScanDepth, map[], 0);
      forall name ensures IsEnabled(name) <==> name !in old(disabled) && exists s | s in found :: s.parsed.name == name {
        LastOccurrenceWins(map[], found, name);
      }
      assert skills == Registered(fs, scanDirs, maxScanDepth);
      forall name
        ensures name in skills ==> OnDisk(fs, scanDirs, maxScanDepth, name)
        ensures EveryTierFits(fs, scanDirs, maxScanDepth) ==> (name in skills <==> OnDisk(fs, scanDirs, maxScanDepth, name))
      {
        RegisteredIsOnDisk(fs, scanDirs, maxScanDepth, name);
      }
    }

    /** match_skills, for any order in which the hash map may list its skills. */
    method MatchSkills(rules: TextRules, message: string, order: seq<LoadedSkill>) returns (result: seq<Scored>)
      requires Valid()
      requires NoDuplicates(order) && forall s :: s in order <==> s.parsed.name in skills && skills[s.parsed.name] == s
      ensures forall i, j | 0 <= i < j < |result| :: result[i].skill.parsed.name != result[j].skill.parsed.name
      ensures message == "" ==> result == []
      ensures |result| <= 3 && TotalCost(result) <= 4000
      ensures forall i, j | 0 <= i < j < |result| :: result[i].score >= result[j].score
      ensures forall x | x in result :: IsEnabled(x.skill.parsed.name) && skills[x.skill.parsed.name] == x.skill
                                     && x.score == Score(rules, x.skill.parsed, message) > 0
      ensures message != "" ==> forall name | IsEnabled(name) && Score(rules, skills[name].parsed, message) > 0
                                           && (forall x | x in result :: x.skill != skills[name]) ::
                && (|result| == 3 || TokenCost(skills[name]) > 4000 - TotalCost(result))
                && exists m :: LeftOut(result, Scored(skills[name], Score(rules, skills[name].parsed, message)), m, 3, 4000)
    {
      if message == "" {
        return [];
      }
      hide Score, StableSort, TokenCost, TotalCost, HigherScore, Matching, Greedy, LeftOut;
      var scored := ScoreAll(rules, order, message);
      var sorted := StableSort(scored, HigherScore);
      result := PickWithinBudget(sorted, maxActiveSkills, maxTotalContextTokens);
      assert result == Picked(rules, order, disabled, message, maxActiveSkills, maxTotalContextTokens);
      PickedSpec(rules, order, disabled, message, maxActiveSkills, maxTotalContextTokens);
      PickedScores(result);
      forall i, j | 0 <= i < j < |result| ensures result[i].skill.parsed.name != result[j].skill.parsed.name {
        assert result[i] in result && result[j] in result;
      }
      forall name | IsEnabled(name) && Score(rules, skills[name].parsed, message) > 0
                    && (forall x | x in result :: x.skill != skills[name])
        ensures |result| == 3 || TokenCost(skills[name]) > 4000 - TotalCost(result)
        ensures exists m :: LeftOut(result, Scored(skills[name], Score(rules, skills[name].parsed, message)), m, 3, 4000)
      {
        var x := Scored(skills[name], Score(rules, skills[name].parsed, message));
        assert IsMatch(rules, order, disabled, message, x);
      }
    }

    method ScoreAll(rules: TextRules, order: seq<LoadedSkill>, message: string) returns (scored: seq<Scored>)
      ensures scored == Matching(rules, order, disabled, message)
    {
      hide Score;
      scored := [];
      for i := 0 to |order|
        invariant scored == Matching(rules, order[..i], disabled, message)
      {
        assert order[..i + 1][..i] == order[..i];
        if order[i].parsed.name !in disabled {
          var score := ScoreSkill(rules, order[i].parsed, message);
          if score > 0 {
            scored := scored + [Scored(order[i], score)];
          }
        }
      }
      assert order[..|order|] == order;
    }
  }

  function NamesOf(found: seq<LoadedSkill>): (r: seq<string>)
    ensures |r| == |found| && forall i | 0 <= i < |r| :: r[i] == found[i].parsed.name
  {
    seq(|found|, i requires 0 <= i < |found| => found[i].parsed.name)
  }

  /** The selection loop: skips what no longer fits, stops at the count limit. */
  method PickWithinBudget(sorted: seq<Scored>, slots: nat, budget: nat) returns (result: seq<Scored>)
    ensures result == Greedy(sorted, slots, budget)
  {
    hide ByteLen;
    result := [];
    var remaining := budget;
    var i := 0;
    while i < |sorted| && |result| < slots
      invariant 0 <= i <= |sorted| && |result| <= slots && remaining >= 0
      invariant result + Greedy(sorted[i..], slots - |result|, remaining) == Greedy(sorted, slots, budget)
    {
      assert sorted[i..][1..] == sorted[i + 1..];
      var declared := sorted[i].skill.parsed.maxContextTokens;
      var approx := ByteLen(sorted[i].skill.parsed.prompt) / 4;
      var cost := if approx > declared * 2 then approx else declared;
      if cost < 1 {
        cost := 1;
      }
      if cost <= remaining {
        remaining := remaining - cost;
        result := result + [sorted[i]];
      }
      i := i + 1;
    }
  }
}
