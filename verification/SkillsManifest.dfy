/**
 Selection and rendering of the skills manifest (src-tauri/src/skills_manifest.rs). Bonuses are
 counted in quarters, lengths in bytes of UTF-8.
 */
module SkillsManifest {
  import opened Base
  import opened Sorting
  import opened Text

  datatype StrategyBias = Balanced | Repair | Optimize | Innovate

  datatype Provenance = Builtin | Learned

  datatype ManifestEntry = ManifestEntry(
    name: string, summary: string, provenance: Provenance, citedCount: nat, nodeId: Option<string>)

  /** A registered skill; `available` is false for a managed Playwright skill that is not usable. */
  datatype BuiltinSkill = BuiltinSkill(name: string, description: string, tags: seq<string>, available: bool)

  /** A promoted learned skill with the metadata the manifest reads. */
  datatype LearnedSkill = LearnedSkill(
    id: string, title: string, summary: Option<string>, tags: seq<string>, category: Option<string>, citedCount: nat)

  // ---- Filtering ------------------------------------------------------------------------------------------

  predicate SkillMatchesWorkspace(skillTags: seq<string>, workspaceTags: Option<seq<string>>) {
    workspaceTags.None? || workspaceTags.value == [] || skillTags == [] || exists t | t in skillTags :: t in workspaceTags.value
  }

  /** A skill is left out exactly when both sides have tags and share none; one more workspace tag only admits more. */
  lemma WorkspaceFilterSpec(skillTags: seq<string>, workspaceTags: seq<string>, tag: string)
    ensures SkillMatchesWorkspace(skillTags, None)
    ensures var mine, theirs := (set t | t in skillTags), (set t | t in workspaceTags);
            !SkillMatchesWorkspace(skillTags, Some(workspaceTags)) <==> mine != {} && theirs != {} && mine !! theirs
    ensures workspaceTags != [] && SkillMatchesWorkspace(skillTags, Some(workspaceTags)) ==>
              SkillMatchesWorkspace(skillTags, Some(workspaceTags + [tag]))
  {
    var mine, theirs := (set t | t in skillTags), (set t | t in workspaceTags);
    assert skillTags != [] ==> skillTags[0] in mine;
    assert workspaceTags != [] ==> workspaceTags[0] in theirs;
    if SkillMatchesWorkspace(skillTags, Some(workspaceTags)) && skillTags != [] && workspaceTags != [] {
      var t :| t in skillTags && t in workspaceTags;
      assert t in mine && t in theirs;
      assert t in workspaceTags + [tag];
    }
  }

  /** Position of the last whitespace character. */
  function LastWhitespace(s: string): (r: Option<nat>)
    ensures r.Some? ==> r.value < |s| && IsWhitespace(s[r.value])
  {
    if s == "" then None
    else if IsWhitespace(s[|s| - 1]) then Some(|s| - 1)
    else LastWhitespace(s[..|s| - 1])
  }

  function TruncateSummary(s: string, maxChars: nat): string {
    var t := Trim(s);
    if |t| <= maxChars then t
    else
      var cut := t[..maxChars];
      (match LastWhitespace(cut) case Some(i) => cut[..i] case None => cut) + "…"
  }

  /** A long summary is cut at the last whitespace within the limit, or at the limit if there is none. */
  lemma TruncateSummarySpec(s: string, maxChars: nat)
    ensures var t, r := Trim(s), TruncateSummary(s, maxChars);
            if |t| <= maxChars then r == t
            else exists k | 0 <= k <= maxChars :: r == t[..k] + "…"
                   && (k < maxChars ==> IsWhitespace(t[k]))
                   && (forall i | k < i < maxChars :: !IsWhitespace(t[i]))
                   && (k == maxChars ==> forall i | 0 <= i < maxChars :: !IsWhitespace(t[i]))
  {
    hide Trim;
    var t := Trim(s);
    if |t| > maxChars {
      LastWhitespaceIsLast(t[..maxChars]);
      var k := match LastWhitespace(t[..maxChars]) { case Some(i) => i case None => maxChars };
      assert t[..maxChars][..k] == t[..k];
      assert forall i | 0 <= i < maxChars :: t[..maxChars][i] == t[i];
      assert TruncateSummary(s, maxChars) == t[..k] + "…";
    }
  }

  lemma {:induction false} LastWhitespaceIsLast(s: string)
    ensures match LastWhitespace(s)
            case Some(k) => forall i | k < i < |s| :: !IsWhitespace(s[i])
            case None => forall i | 0 <= i < |s| :: !IsWhitespace(s[i])
  {
    if s != "" {
      LastWhitespaceIsLast(s[..|s| - 1]);
    }
  }

  function BuiltinEntry(b: BuiltinSkill): ManifestEntry {
    ManifestEntry(b.name, TruncateSummary(b.description, 100), Builtin, 0, None)
  }

  predicate Listed(b: BuiltinSkill, workspaceTags: Option<seq<string>>) {
    b.available && SkillMatchesWorkspace(b.tags, workspaceTags)
  }

  // ---- Ranking --------------------------------------------------------------------------------------------

  /** The signals of one call; `lower` is `to_lowercase`. */
  datatype Signals = Signals(bias: StrategyBias, queryTerms: seq<string>, boosts: seq<string>, lower: string -> string)

  function BiasCategory(bias: StrategyBias): Option<string> {
    match bias
    case Balanced => None
    case Repair => Some("repair")
    case Optimize => Some("optimize")
    case Innovate => Some("innovate")
  }

  function SummaryOf(d: LearnedSkill): string {
    match d.summary case Some(s) => s case None => d.title
  }

  function BiasBonus(d: LearnedSkill, sig: Signals): nat {
    if BiasCategory(sig.bias).Some? && d.category == BiasCategory(sig.bias) then 12 else 0
  }

  function RelevanceBonus(d: LearnedSkill, sig: Signals): nat {
    var hay := sig.lower(d.title + " " + SummaryOf(d));
    Min(6 * |Filter(sig.queryTerms, FoundIn(hay))|, 24)
  }

  function FoundIn(hay: string): string -> bool {
    t => Contains(hay, t)
  }

  function SemanticBonus(d: LearnedSkill, sig: Signals): nat {
    match FindFirst(sig.boosts, (id: string) => id == d.id)
    case Some(pos) => 3 * (|sig.boosts| - pos)
    case None => 0
  }

  /** An earlier boost weighs more, any boost weighs something, and nothing else does. */
  lemma SemanticBonusSpec(d: LearnedSkill, e: LearnedSkill, sig: Signals)
    ensures SemanticBonus(d, sig) > 0 <==> d.id in sig.boosts
    ensures SemanticBonus(d, sig) <= 3 * |sig.boosts| && SemanticBonus(d, sig) % 3 == 0
    ensures forall i | 0 <= i < |sig.boosts| && sig.boosts[i] == d.id && e.id !in sig.boosts[..i + 1] ::
              SemanticBonus(d, sig) > SemanticBonus(e, sig)
  {
    var p := FindFirst(sig.boosts, (id: string) => id == d.id);
    var q := FindFirst(sig.boosts, (id: string) => id == e.id);
    forall i | 0 <= i < |sig.boosts| && sig.boosts[i] == d.id && e.id !in sig.boosts[..i + 1]
      ensures SemanticBonus(d, sig) > SemanticBonus(e, sig)
    {
      assert p.Some? && p.value <= i;
      assert forall j | 0 <= j <= i :: sig.boosts[..i + 1][j] == sig.boosts[j];
    }
  }

  /** The query terms found in a skill's title and summary. */
  ghost function MatchedTerms(d: LearnedSkill, sig: Signals): set<string> {
    set t | t in sig.queryTerms && Contains(sig.lower(d.title + " " + SummaryOf(d)), t)
  }

  ghost predicate InBiasCategory(d: LearnedSkill, bias: StrategyBias) {
    && d.category.Some?
    && match bias
       case Balanced => false
       case Repair => d.category.value == "repair"
       case Optimize => d.category.value == "optimize"
       case Innovate => d.category.value == "innovate"
  }

  ghost function Merit(d: LearnedSkill, sig: Signals): int {
    Min(|MatchedTerms(d, sig)|, 4) + (if InBiasCategory(d, sig.bias) then 2 else 0)
  }

  /** Main result: without boosts, skills rank by matched terms, at most four counting, the bias category worth two. */
  lemma BonusOrder(d: LearnedSkill, e: LearnedSkill, sig: Signals)
    requires NoDuplicates(sig.queryTerms) && d.id !in sig.boosts && e.id !in sig.boosts
    ensures MakeCandidate(d, sig).bonus >= MakeCandidate(e, sig).bonus
       <==> Merit(d, sig) >= Merit(e, sig)
  {
    hide Contains, Filter, SemanticBonus, TruncateSummary;
    RelevanceCountsTerms(d, sig);
    RelevanceCountsTerms(e, sig);
    SemanticBonusSpec(d, e, sig);
    SemanticBonusSpec(e, d, sig);
  }

  /** Main result: the bonus in quarters: 12 for the category, 6 for each of up to four terms, 3 for each place left in the boosts. */
  lemma BonusCounts(d: LearnedSkill, sig: Signals)
    requires NoDuplicates(sig.queryTerms)
    ensures var base := (if InBiasCategory(d, sig.bias) then 12 else 0) + 6 * Min(|MatchedTerms(d, sig)|, 4);
            && (d.id !in sig.boosts ==> MakeCandidate(d, sig).bonus == base)
            && forall i | 0 <= i < |sig.boosts| && sig.boosts[i] == d.id && d.id !in sig.boosts[..i] ::
                 MakeCandidate(d, sig).bonus == base + 3 * (|sig.boosts| - i)
  {
    hide Contains, Filter, TruncateSummary;
    RelevanceCountsTerms(d, sig);
    var p := FindFirst(sig.boosts, (id: string) => id == d.id);
    forall i | 0 <= i < |sig.boosts| && sig.boosts[i] == d.id && d.id !in sig.boosts[..i] ensures p == Some(i) {
      assert p.Some? && p.value <= i;
      assert forall j | 0 <= j < i :: sig.boosts[..i][j] == sig.boosts[j];
    }
  }

  lemma RelevanceCountsTerms(d: LearnedSkill, sig: Signals)
    requires NoDuplicates(sig.queryTerms)
    ensures RelevanceBonus(d, sig) == 6 * Min(|MatchedTerms(d, sig)|, 4)
  {
    hide Contains, Filter;
    var hay := sig.lower(d.title + " " + SummaryOf(d));
    FilterCountsMembers(sig.queryTerms, FoundIn(hay));
    assert MatchedTerms(d, sig) == Satisfying(sig.queryTerms, FoundIn(hay));
  }

  ghost function Satisfying<T>(xs: seq<T>, p: T -> bool): set<T> {
    set x | x in xs && p(x)
  }

  lemma {:induction false} FilterCountsMembers<T>(xs: seq<T>, p: T -> bool)
    requires NoDuplicates(xs)
    ensures |Filter(xs, p)| == |Satisfying(xs, p)|
  {
    if xs != [] {
      hide NoDuplicates, Satisfying;
      HeadIsFresh(xs);
      FilterCountsMembers(xs[1..], p);
      SatisfyingStep(xs, p);
    } else {
      assert Satisfying(xs, p) == {};
    }
  }

  lemma SatisfyingStep<T>(xs: seq<T>, p: T -> bool)
    requires xs != [] && xs[0] !in xs[1..]
    ensures |Satisfying(xs, p)| == (if p(xs[0]) then 1 else 0) + |Satisfying(xs[1..], p)|
  {
    var found: set<T> := if p(xs[0]) then {xs[0]} else {};
    assert forall x :: x in xs <==> x == xs[0] || x in xs[1..];
    assert Satisfying(xs, p) == found + Satisfying(xs[1..], p);
    assert found !! Satisfying(xs[1..], p);
  }

  lemma HeadIsFresh<T>(xs: seq<T>)
    requires NoDuplicates(xs) && xs != []
    ensures NoDuplicates(xs[1..]) && xs[0] !in xs[1..]
  {
  }

  datatype Candidate = Candidate(entry: ManifestEntry, bonus: nat)

  function MakeCandidate(d: LearnedSkill, sig: Signals): Candidate {
    Candidate(ManifestEntry(d.title, TruncateSummary(SummaryOf(d), 100), Learned, d.citedCount, Some(d.id)),
              BiasBonus(d, sig) + RelevanceBonus(d, sig) + SemanticBonus(d, sig))
  }

  predicate MoreBonus(a: Candidate, b: Candidate) {
    a.bonus >= b.bonus
  }

  function Candidates(learned: seq<LearnedSkill>, workspaceTags: Option<seq<string>>, sig: Signals): seq<Candidate> {
    if learned == [] then []
    else
      Candidates(learned[..|learned| - 1], workspaceTags, sig)
      + (var d := learned[|learned| - 1];
         if SkillMatchesWorkspace(d.tags, workspaceTags) then [MakeCandidate(d, sig)] else [])
  }

  predicate HasSignal(sig: Signals) {
    sig.bias != Balanced || sig.queryTerms != [] || sig.boosts != []
  }

  /** Without a signal every bonus is zero. */
  lemma {:induction false} NoSignalNoBonus(learned: seq<LearnedSkill>, workspaceTags: Option<seq<string>>, sig: Signals)
    requires !HasSignal(sig)
    ensures forall c | c in Candidates(learned, workspaceTags, sig) :: c.bonus == 0
  {
    hide MakeCandidate, SkillMatchesWorkspace;
    if learned != [] {
      NoSignalNoBonus(learned[..|learned| - 1], workspaceTags, sig);
      NoSignalCandidate(learned[|learned| - 1], sig);
    }
  }

  lemma NoSignalCandidate(d: LearnedSkill, sig: Signals)
    requires !HasSignal(sig)
    ensures MakeCandidate(d, sig).bonus == 0
  {
    hide TruncateSummary, Contains;
    assert RelevanceBonus(d, sig) == 0;
  }

  /** Main result: skipping the sort when there is no bias, query or boost gives what sorting would. */
  lemma SkippingTheSortIsSorting(learned: seq<LearnedSkill>, workspaceTags: Option<seq<string>>, sig: Signals)
    requires !HasSignal(sig)
    ensures StableSort(Candidates(learned, workspaceTags, sig), MoreBonus) == Candidates(learned, workspaceTags, sig)
  {
    var cs := Candidates(learned, workspaceTags, sig);
    NoSignalNoBonus(learned, workspaceTags, sig);
    assert forall i | 0 <= i < |cs| :: cs[i] in cs;
    SortingSortedIsIdentity(cs, MoreBonus);
  }

  // ---- collect_entries ----------------------------------------------------------------------------------------

  predicate ByName(a: BuiltinSkill, b: BuiltinSkill) {
    StrLe(a.name, b.name)
  }

  /** Rows for the registered, enabled skills in name order, those the filters let through. */
  function BuiltinRows(enabled: seq<BuiltinSkill>, workspaceTags: Option<seq<string>>): seq<ManifestEntry> {
    Rows(StableSort(enabled, ByName), workspaceTags)
  }

  function Rows(sorted: seq<BuiltinSkill>, workspaceTags: Option<seq<string>>): seq<ManifestEntry> {
    if sorted == [] then []
    else
      var b := sorted[|sorted| - 1];
      Rows(sorted[..|sorted| - 1], workspaceTags) + (if Listed(b, workspaceTags) then [BuiltinEntry(b)] else [])
  }

  function EntriesOf(cs: seq<Candidate>): (r: seq<ManifestEntry>)
    ensures |r| == |cs|
    ensures forall i | 0 <= i < |cs| :: r[i] == cs[i].entry
  {
    seq(|cs|, i requires 0 <= i < |cs| => cs[i].entry)
  }

  function FetchLimit(bias: StrategyBias, limit: nat): nat {
    if bias == Balanced then limit else Min(limit * 2, 200)
  }

  /** The learned rows: a prefix of the stable sort of the fetched window's candidates by bonus. */
  function LearnedRows(ranked: seq<LearnedSkill>, limit: nat,
                       workspaceTags: Option<seq<string>>, sig: Signals): seq<ManifestEntry> {
    Take(EntriesOf(StableSort(Candidates(Take(ranked, FetchLimit(sig.bias, limit)), workspaceTags, sig), MoreBonus)), limit)
  }

  /** The manifest's rows: builtins first, then learned rows in the space left. */
  function Selection(enabled: seq<BuiltinSkill>, ranked: seq<LearnedSkill>, maxEntries: nat,
                     workspaceTags: Option<seq<string>>, sig: Signals): seq<ManifestEntry> {
    var builtin := BuiltinRows(enabled, workspaceTags);
    if |builtin| >= maxEntries then Take(builtin, maxEntries)
    else builtin + LearnedRows(ranked, maxEntries - |builtin|, workspaceTags, sig)
  }

  /** With a cap of zero the cap is only looked at after the first row. */
  function Collected(enabled: seq<BuiltinSkill>, ranked: seq<LearnedSkill>, maxEntries: nat,
                     workspaceTags: Option<seq<string>>, sig: Signals): seq<ManifestEntry> {
    if maxEntries == 0 then Take(BuiltinRows(enabled, workspaceTags), 1)
    else Selection(enabled, ranked, maxEntries, workspaceTags, sig)
  }

  /**
   collect_entries: `enabled` are the enabled registered skills in hash order, `ranked` the
   promoted learned skills in the store's order (empty when the store fails).
   */
  method CollectEntries(enabled: seq<BuiltinSkill>, ranked: seq<LearnedSkill>, maxEntries: nat,
                        workspaceTags: Option<seq<string>>, sig: Signals)
    returns (entries: seq<ManifestEntry>, ghost listing: seq<BuiltinSkill>, ghost picks: seq<nat>)
    ensures entries == Collected(enabled, ranked, maxEntries, workspaceTags, sig)
    ensures IsManifest(entries, enabled, ranked, maxEntries, workspaceTags, sig, listing, picks)
  {
    hide StableSort, Rows, LearnedRows, ByName, IsManifest;
    listing, picks := CollectedSpec(enabled, ranked, maxEntries, workspaceTags, sig);
    var full;
    entries, full := ListBuiltin(StableSort(enabled, ByName), maxEntries, workspaceTags);
    if full || maxEntries <= |entries| {
      return entries, listing, picks;
    }
    var learnedLimit := maxEntries - |entries|;
    var taken := RankLearned(ranked, learnedLimit, workspaceTags, sig);
    ghost var before := entries;
    for i := 0 to |taken|
      invariant entries == before + EntriesOf(taken)[..i]
    {
      entries := entries + [taken[i].entry];
      if |entries| >= maxEntries {
        break;
      }
    }
    assert entries == before + EntriesOf(taken);
  }

  /** The builtin half of collect_entries; full when it returned early. */
  method ListBuiltin(sorted: seq<BuiltinSkill>, maxEntries: nat, workspaceTags: Option<seq<string>>)
    returns (entries: seq<ManifestEntry>, full: bool)
    ensures full ==> && |entries| >= maxEntries
                     && entries == Take(Rows(sorted, workspaceTags), if maxEntries == 0 then 1 else maxEntries)
    ensures !full ==> entries == Rows(sorted, workspaceTags) && (|entries| < maxEntries || entries == [])
  {
    hide TruncateSummary, SkillMatchesWorkspace;
    entries, full := [], false;
    for i := 0 to |sorted|
      invariant entries == Rows(sorted[..i], workspaceTags)
      invariant |entries| < maxEntries || entries == []
    {
      assert sorted[..i + 1][..i] == sorted[..i];
      var loaded := sorted[i];
      if loaded.available && SkillMatchesWorkspace(loaded.tags, workspaceTags) {
        entries := entries + [BuiltinEntry(loaded)];
        if |entries| >= maxEntries {
          RowsPrefix(sorted, i + 1, workspaceTags);
          return entries, true;
        }
      }
    }
    assert sorted[..|sorted|] == sorted;
  }

  /** The learned half of collect_entries: fetch, filter, score, sort if anything can change, cut. */
  method RankLearned(ranked: seq<LearnedSkill>, limit: nat, workspaceTags: Option<seq<string>>, sig: Signals)
    returns (taken: seq<Candidate>)
    ensures |taken| <= limit && EntriesOf(taken) == LearnedRows(ranked, limit, workspaceTags, sig)
  {
    hide TruncateSummary, BiasBonus, RelevanceBonus, SemanticBonus, MakeCandidate, SkillMatchesWorkspace, StableSort;
    var learned := Take(ranked, FetchLimit(sig.bias, limit));
    var candidates := [];
    for i := 0 to |learned|
      invariant candidates == Candidates(learned[..i], workspaceTags, sig)
    {
      assert learned[..i + 1][..i] == learned[..i];
      if SkillMatchesWorkspace(learned[i].tags, workspaceTags) {
        candidates := candidates + [MakeCandidate(learned[i], sig)];
      }
    }
    assert learned[..|learned|] == learned;
    if HasSignal(sig) {
      candidates := StableSort(candidates, MoreBonus);
    } else {
      SkippingTheSortIsSorting(learned, workspaceTags, sig);
    }
    taken := Take(candidates, limit);
    assert EntriesOf(taken) == Take(EntriesOf(candidates), limit);
  }

  lemma {:induction false} RowsPrefix(sorted: seq<BuiltinSkill>, n: nat, workspaceTags: Option<seq<string>>)
    requires n <= |sorted|
    ensures Rows(sorted[..n], workspaceTags) <= Rows(sorted, workspaceTags)
    decreases |sorted|
  {
    if n == |sorted| {
      assert sorted[..n] == sorted;
    } else {
      RowsPrefix(sorted[..|sorted| - 1], n, workspaceTags);
      assert sorted[..|sorted| - 1][..n] == sorted[..n];
    }
  }

  // ---- What the selection guarantees -----------------------------------------------------------------------------

  /** Main result: the cap is respected exactly when it is at least one, or no builtin row exists. */
  lemma CapRespectedExactly(enabled: seq<BuiltinSkill>, ranked: seq<LearnedSkill>, maxEntries: nat,
                            workspaceTags: Option<seq<string>>, sig: Signals)
    ensures |Collected(enabled, ranked, maxEntries, workspaceTags, sig)| <= maxEntries
       <==> maxEntries >= 1 || BuiltinRows(enabled, workspaceTags) == []
  {
    hide BuiltinRows, StableSort, Candidates;
  }

  lemma {:induction false} RowsAreListed(sorted: seq<BuiltinSkill>, workspaceTags: Option<seq<string>>)
    ensures forall e | e in Rows(sorted, workspaceTags) ::
              exists b | b in sorted :: Listed(b, workspaceTags) && e == BuiltinEntry(b)
    ensures forall b | b in sorted && Listed(b, workspaceTags) :: BuiltinEntry(b) in Rows(sorted, workspaceTags)
  {
    hide Listed, BuiltinEntry;
    if sorted != [] {
      var init, b := sorted[..|sorted| - 1], sorted[|sorted| - 1];
      RowsAreListed(init, workspaceTags);
      assert sorted == init + [b];
    }
  }

  predicate EntryByName(a: ManifestEntry, b: ManifestEntry) {
    StrLe(a.name, b.name)
  }

  lemma {:induction false} RowsAreInNameOrder(sorted: seq<BuiltinSkill>, workspaceTags: Option<seq<string>>)
    requires SortedBy(sorted, ByName)
    ensures SortedBy(Rows(sorted, workspaceTags), EntryByName)
  {
    hide Listed, TruncateSummary;
    if sorted != [] {
      var init, last := sorted[..|sorted| - 1], sorted[|sorted| - 1];
      RowsAreInNameOrder(init, workspaceTags);
      RowsAreListed(init, workspaceTags);
      var rows := Rows(init, workspaceTags);
      forall i | 0 <= i < |rows| ensures EntryByName(rows[i], BuiltinEntry(last)) {
        assert rows[i] in rows;
        var b :| b in init && Listed(b, workspaceTags) && rows[i] == BuiltinEntry(b);
        var k :| 0 <= k < |init| && init[k] == b;
        assert sorted[k] == b && ByName(sorted[k], sorted[|sorted| - 1]);
      }
      assert Rows(sorted, workspaceTags) == rows || Rows(sorted, workspaceTags) == rows + [BuiltinEntry(last)];
    }
  }

  ghost predicate ShowsBuiltin(e: ManifestEntry, b: BuiltinSkill) {
    && e.name == b.name && e.provenance == Builtin && e.citedCount == 0 && e.nodeId == None
    && e.summary == TruncateSummary(b.description, 100)
  }

  /** Main result: the builtin rows are exactly the enabled skills the filters admit, in name order. */
  lemma BuiltinRowsSpec(enabled: seq<BuiltinSkill>, workspaceTags: Option<seq<string>>)
    ensures var rows := BuiltinRows(enabled, workspaceTags);
            && (forall e | e in rows :: exists b | b in enabled :: Listed(b, workspaceTags) && ShowsBuiltin(e, b))
            && (forall b | b in enabled && Listed(b, workspaceTags) :: exists e | e in rows :: ShowsBuiltin(e, b))
            && SortedBy(rows, EntryByName)
  {
    hide Listed, BuiltinEntry, StableSort, Rows;
    ByNameIsTotal();
    StableSortSpec(enabled, ByName);
    var sorted := StableSort(enabled, ByName);
    SameMembers(enabled, sorted);
    RowsAreListed(sorted, workspaceTags);
    RowsAreInNameOrder(sorted, workspaceTags);
    assert BuiltinRows(enabled, workspaceTags) == Rows(sorted, workspaceTags);
    forall b ensures ShowsBuiltin(BuiltinEntry(b), b) {
      BuiltinEntryShows(b);
    }
  }

  lemma BuiltinEntryShows(b: BuiltinSkill)
    ensures ShowsBuiltin(BuiltinEntry(b), b)
  {
    hide TruncateSummary;
  }

  lemma ByNameIsTotal()
    ensures TotalPreorder(ByName)
  {
    hide StrLe;
    StrLeIsTotalOrder();
  }

  lemma SameMembers<T>(a: seq<T>, b: seq<T>)
    requires multiset(a) == multiset(b)
    ensures forall x :: x in a <==> x in b
  {
    forall x ensures x in a <==> x in b {
      assert x in a <==> x in multiset(a);
      assert x in b <==> x in multiset(b);
    }
  }

  /** Main result: names being distinct, the hash map's enumeration order does not show in the rows. */
  lemma HashOrderDoesNotShow(a: seq<BuiltinSkill>, b: seq<BuiltinSkill>, workspaceTags: Option<seq<string>>)
    requires multiset(a) == multiset(b)
    requires forall x, y | x in a && y in a && x.name == y.name :: x == y
    ensures BuiltinRows(a, workspaceTags) == BuiltinRows(b, workspaceTags)
  {
    hide StrLe, StableSort, Rows;
    StrLeIsTotalOrder();
    ByNameIsTotal();
    StableSortSpec(a, ByName);
    StableSortSpec(b, ByName);
    SameMembers(a, StableSort(a, ByName));
    StrictlySortedUnique(StableSort(a, ByName), StableSort(b, ByName), ByName);
  }

  lemma {:induction false} CandidatesPass(learned: seq<LearnedSkill>, workspaceTags: Option<seq<string>>, sig: Signals)
    ensures forall c | c in Candidates(learned, workspaceTags, sig) ::
              exists d | d in learned :: SkillMatchesWorkspace(d.tags, workspaceTags) && c == MakeCandidate(d, sig)
  {
    hide SkillMatchesWorkspace, MakeCandidate;
    if learned != [] {
      CandidatesPass(learned[..|learned| - 1], workspaceTags, sig);
      assert learned == learned[..|learned| - 1] + [learned[|learned| - 1]];
    }
  }

  /** The row of a learned skill; without a summary the title stands in for it. */
  ghost predicate ShowsLearned(e: ManifestEntry, d: LearnedSkill) {
    && e.name == d.title && e.provenance == Learned && e.citedCount == d.citedCount && e.nodeId == Some(d.id)
    && (d.summary.None? ==> e.summary == TruncateSummary(d.title, 100))
    && (d.summary.Some? ==> e.summary == TruncateSummary(d.summary.value, 100))
  }

  function Passing(workspaceTags: Option<seq<string>>): LearnedSkill -> bool {
    (d: LearnedSkill) => SkillMatchesWorkspace(d.tags, workspaceTags)
  }

  /** The skills fetched for the space left. */
  function Window(ranked: seq<LearnedSkill>, limit: nat, sig: Signals): seq<LearnedSkill> {
    Take(ranked, FetchLimit(sig.bias, limit))
  }

  /** A larger bonus, or the same bonus and an earlier place in the store's order. */
  ghost predicate Outranks(window: seq<LearnedSkill>, sig: Signals, v: nat, w: nat)
    requires v < |window| && w < |window|
  {
    var a, b := MakeCandidate(window[v], sig).bonus, MakeCandidate(window[w], sig).bonus;
    a > b || (a == b && v < w)
  }

  /** The rows show limit skills of the window that pass, all of them if fewer, at the positions picks, best first. */
  ghost predicate ShowsBest(rows: seq<ManifestEntry>, window: seq<LearnedSkill>, limit: nat, workspaceTags: Option<seq<string>>,
                            sig: Signals, picks: seq<nat>)
  {
    && |picks| == |rows| == Min(limit, |Filter(window, Passing(workspaceTags))|)
    && NoDuplicates(picks)
    && (forall i | 0 <= i < |rows| :: picks[i] < |window| && Passing(workspaceTags)(window[picks[i]])
                                    && ShowsLearned(rows[i], window[picks[i]]))
    && (forall i, j | 0 <= i < j < |rows| :: Outranks(window, sig, picks[i], picks[j]))
    && (forall i, w: nat | 0 <= i < |rows| && w < |window| && Passing(workspaceTags)(window[w]) && w !in picks ::
          Outranks(window, sig, picks[i], w))
  }

  /**
   Main result: the learned rows show as many of the fetched skills passing the workspace filter
   as the space allows, each once, every one outranking those after it and those left out.
   */
  lemma LearnedRowsSpec(ranked: seq<LearnedSkill>, limit: nat, workspaceTags: Option<seq<string>>, sig: Signals)
    returns (picks: seq<nat>)
    ensures ShowsBest(LearnedRows(ranked, limit, workspaceTags, sig), Window(ranked, limit, sig), limit, workspaceTags, sig, picks)
  {
    hide *;
    var window := Window(ranked, limit, sig);
    var cs := Candidates(window, workspaceTags, sig);
    var sorted := StableSort(cs, MoreBonus);
    var q := CandidatePositions(window, workspaceTags, sig);
    MoreBonusIsTotal();
    var p := SortingPositions(cs, MoreBonus);
    var all := RankedPositions(window, workspaceTags, sig, sorted, q, p);
    picks := Take<nat>(all, limit);
    LearnedRowsAre(ranked, limit, workspaceTags, sig);
    PicksOutrank(window, workspaceTags, sig, all, limit);
    RowsShow(window, workspaceTags, sig, sorted, all, limit);
    BestIs(LearnedRows(ranked, limit, workspaceTags, sig), window, limit, workspaceTags, sig, picks);
  }

  lemma BestIs(rows: seq<ManifestEntry>, window: seq<LearnedSkill>, limit: nat, workspaceTags: Option<seq<string>>,
               sig: Signals, picks: seq<nat>)
    requires |picks| == |rows| == Min(limit, |Filter(window, Passing(workspaceTags))|) && NoDuplicates(picks)
    requires forall i | 0 <= i < |picks| :: picks[i] < |window| && Passing(workspaceTags)(window[picks[i]])
    requires forall i | 0 <= i < |rows| :: ShowsLearned(rows[i], window[picks[i]])
    requires forall i, j | 0 <= i < j < |picks| :: Outranks(window, sig, picks[i], picks[j])
    requires forall i, w: nat | 0 <= i < |picks| && w < |window| && Passing(workspaceTags)(window[w]) && w !in picks ::
               Outranks(window, sig, picks[i], w)
    ensures ShowsBest(rows, window, limit, workspaceTags, sig, picks)
  {
    hide Filter, Passing, Outranks, ShowsLearned, NoDuplicates;
  }

  // ---- What the manifest's rows are ----------------------------------------------------------------------------

  /** listing is the enabled skills that are available and pass the workspace filter, in name order. */
  ghost predicate IsListing(listing: seq<BuiltinSkill>, enabled: seq<BuiltinSkill>, workspaceTags: Option<seq<string>>) {
    && multiset(listing)
       == multiset(Filter(enabled, (b: BuiltinSkill) => b.available && SkillMatchesWorkspace(b.tags, workspaceTags)))
    && forall i, j | 0 <= i < j < |listing| :: StrLe(listing[i].name, listing[j].name)
  }

  /** The rows of a cap: builtins in name order first, then learned skills in the space they leave. */
  ghost predicate IsManifest(entries: seq<ManifestEntry>, enabled: seq<BuiltinSkill>, ranked: seq<LearnedSkill>, cap: nat,
                             workspaceTags: Option<seq<string>>, sig: Signals, listing: seq<BuiltinSkill>, picks: seq<nat>)
  {
    && IsListing(listing, enabled, workspaceTags)
    && var b := Min(if cap == 0 then 1 else cap, |listing|);
       && b <= |entries|
       && (forall i | 0 <= i < b :: ShowsBuiltin(entries[i], listing[i]))
       && if b >= cap then |entries| == b
          else ShowsBest(entries[b..], Window(ranked, cap - b, sig), cap - b, workspaceTags, sig, picks)
  }

  /** Main result: what collect_entries returns is the listed builtins up to the cap, then the best learned skills in the rest. */
  lemma CollectedSpec(enabled: seq<BuiltinSkill>, ranked: seq<LearnedSkill>, maxEntries: nat,
                      workspaceTags: Option<seq<string>>, sig: Signals) returns (listing: seq<BuiltinSkill>, picks: seq<nat>)
    ensures IsManifest(Collected(enabled, ranked, maxEntries, workspaceTags, sig), enabled, ranked, maxEntries, workspaceTags, sig,
                       listing, picks)
  {
    hide StableSort, Rows, LearnedRows, ShowsBest, IsListing, Window, ShowsBuiltin;
    listing := ListingOf(enabled, workspaceTags);
    var rows := BuiltinRows(enabled, workspaceTags);
    picks := [];
    if |rows| < maxEntries {
      picks := LearnedRowsSpec(ranked, maxEntries - |rows|, workspaceTags, sig);
      var all := Collected(enabled, ranked, maxEntries, workspaceTags, sig);
      assert all[|rows|..] == LearnedRows(ranked, maxEntries - |rows|, workspaceTags, sig);
    }
  }

  lemma ListingOf(enabled: seq<BuiltinSkill>, workspaceTags: Option<seq<string>>) returns (listing: seq<BuiltinSkill>)
    ensures IsListing(listing, enabled, workspaceTags)
    ensures var rows := BuiltinRows(enabled, workspaceTags);
            |listing| == |rows| && forall i | 0 <= i < |rows| :: ShowsBuiltin(rows[i], listing[i])
  {
    hide StableSort, StrLe, SkillMatchesWorkspace, TruncateSummary, Rows, ByName;
    var passes := (b: BuiltinSkill) => b.available && SkillMatchesWorkspace(b.tags, workspaceTags);
    var sorted := StableSort(enabled, ByName);
    listing := Filter(sorted, passes);
    ByNameIsTotal();
    StableSortSpec(enabled, ByName);
    FilterOfPermutation(enabled, sorted, passes);
    FilterKeepsSorted(sorted, passes, ByName);
    RowsOfListing(sorted, workspaceTags);
    SortedByNameMeans(listing);
  }

  lemma SortedByNameMeans(listing: seq<BuiltinSkill>)
    requires SortedBy(listing, ByName)
    ensures forall i, j | 0 <= i < j < |listing| :: StrLe(listing[i].name, listing[j].name)
  {
    hide StrLe;
    assert forall i, j | 0 <= i < j < |listing| :: ByName(listing[i], listing[j]);
  }

  lemma {:induction false} RowsOfListing(sorted: seq<BuiltinSkill>, workspaceTags: Option<seq<string>>)
    ensures var listing := Filter(sorted, (b: BuiltinSkill) => b.available && SkillMatchesWorkspace(b.tags, workspaceTags));
            var rows := Rows(sorted, workspaceTags);
            |listing| == |rows| && forall i | 0 <= i < |rows| :: ShowsBuiltin(rows[i], listing[i])
  {
    hide SkillMatchesWorkspace, ShowsBuiltin, BuiltinEntry;
    if sorted != [] {
      var init, last := sorted[..|sorted| - 1], sorted[|sorted| - 1];
      RowsOfListing(init, workspaceTags);
      assert sorted == init + [last];
      FilterConcat(init, [last], (b: BuiltinSkill) => b.available && SkillMatchesWorkspace(b.tags, workspaceTags));
      BuiltinEntryShows(last);
    }
  }

  lemma {:induction false} FilterOfPermutation<T(!new)>(a: seq<T>, b: seq<T>, p: T -> bool)
    requires multiset(a) == multiset(b)
    ensures multiset(Filter(a, p)) == multiset(Filter(b, p))
  {
    var ma, mb := multiset(Filter(a, p)), multiset(Filter(b, p));
    forall x ensures ma[x] == mb[x] {
      FilterMultiplicity(a, p, x);
      FilterMultiplicity(b, p, x);
    }
    assert ma == mb;
  }

  lemma {:induction false} FilterMultiplicity<T>(xs: seq<T>, p: T -> bool, x: T)
    ensures multiset(Filter(xs, p))[x] == if p(x) then multiset(xs)[x] else 0
  {
    if xs != [] {
      FilterMultiplicity(xs[1..], p, x);
      assert xs == [xs[0]] + xs[1..];
    }
  }

  lemma {:induction false} FilterKeepsSorted<T>(xs: seq<T>, p: T -> bool, le: (T, T) -> bool)
    requires SortedBy(xs, le)
    ensures SortedBy(Filter(xs, p), le)
  {
    if xs != [] {
      FilterKeepsSorted(xs[1..], p, le);
      var rest := Filter(xs[1..], p);
      forall i | 0 <= i < |rest| ensures le(xs[0], rest[i]) {
        assert rest[i] in rest;
        var k :| 0 <= k < |xs[1..]| && xs[1..][k] == rest[i];
        assert xs[k + 1] == rest[i];
      }
    }
  }

  /** all lists the passing positions of the window, each outranking those after it. */
  ghost predicate IsRanking(window: seq<LearnedSkill>, workspaceTags: Option<seq<string>>, sig: Signals, all: seq<nat>) {
    && |all| == |Filter(window, Passing(workspaceTags))|
    && (forall i | 0 <= i < |all| :: all[i] < |window| && Passing(workspaceTags)(window[all[i]]))
    && (forall i, j | 0 <= i < j < |all| :: Outranks(window, sig, all[i], all[j]))
    && (forall w: nat | w < |window| && Passing(workspaceTags)(window[w]) :: w in all)
  }

  ghost predicate Shows(window: seq<LearnedSkill>, sig: Signals, cs: seq<Candidate>, all: seq<nat>) {
    && |cs| == |all|
    && forall i | 0 <= i < |all| :: all[i] < |window| && cs[i] == MakeCandidate(window[all[i]], sig)
  }

  lemma RankedPositions(window: seq<LearnedSkill>, workspaceTags: Option<seq<string>>, sig: Signals,
                        sorted: seq<Candidate>, q: seq<nat>, p: seq<nat>) returns (all: seq<nat>)
    requires ComesFrom(window, workspaceTags, sig, q)
    requires var cs := Candidates(window, workspaceTags, sig);
             |p| == |cs| && TakenFrom(cs, sorted, p) && InSortingOrder(cs, MoreBonus, p) && Covers(|cs|, p)
    ensures IsRanking(window, workspaceTags, sig, all) && Shows(window, sig, sorted, all)
  {
    hide MakeCandidate, Candidates, Passing, Outranks, Filter, InSortingOrder, Covers;
    InOrderMeansBounds(Candidates(window, workspaceTags, sig), p);
    all := seq(|p|, i requires 0 <= i < |p| => q[p[i]]);
    forall i, j | 0 <= i < j < |p| ensures Outranks(window, sig, all[i], all[j]) {
      PositionsOutrank(window, workspaceTags, sig, q, p, i, j);
    }
    forall w: nat | w < |window| && Passing(workspaceTags)(window[w]) ensures w in all {
      CoveredThrough(q, p, all, w);
    }
  }

  lemma InOrderMeansBounds(cs: seq<Candidate>, p: seq<nat>)
    requires InSortingOrder(cs, MoreBonus, p)
    ensures forall i | 0 <= i < |p| :: p[i] < |cs|
  {
  }

  /** Whatever q lists is still listed when q is read in the order p. */
  lemma CoveredThrough(q: seq<nat>, p: seq<nat>, all: seq<nat>, w: nat)
    requires Covers(|q|, p) && w in q && |all| == |p|
    requires forall i | 0 <= i < |p| :: p[i] < |q| && all[i] == q[p[i]]
    ensures w in all
  {
    var k: nat :| k < |q| && q[k] == w;
    assert k in p;
    var i :| 0 <= i < |p| && p[i] == k;
    assert all[i] == w;
  }

  lemma LearnedRowsAre(ranked: seq<LearnedSkill>, limit: nat, workspaceTags: Option<seq<string>>, sig: Signals)
    ensures LearnedRows(ranked, limit, workspaceTags, sig)
         == Take(EntriesOf(StableSort(Candidates(Window(ranked, limit, sig), workspaceTags, sig), MoreBonus)), limit)
  {
    hide StableSort, Candidates, FetchLimit;
  }

  lemma MoreBonusIsTotal()
    ensures TotalPreorder(MoreBonus)
  {
  }

  lemma PicksOutrank(window: seq<LearnedSkill>, workspaceTags: Option<seq<string>>, sig: Signals, all: seq<nat>, limit: nat)
    requires IsRanking(window, workspaceTags, sig, all)
    ensures var picks := Take<nat>(all, limit);
            && NoDuplicates(picks) && |picks| == Min(limit, |Filter(window, Passing(workspaceTags))|)
            && (forall i | 0 <= i < |picks| :: picks[i] < |window| && Passing(workspaceTags)(window[picks[i]]))
            && (forall i, j | 0 <= i < j < |picks| :: Outranks(window, sig, picks[i], picks[j]))
            && (forall i, w: nat | 0 <= i < |picks| && w < |window| && Passing(workspaceTags)(window[w]) && w !in picks ::
                  Outranks(window, sig, picks[i], w))
  {
    hide Outranks, Passing, Filter;
    var picks := Take<nat>(all, limit);
    forall i, w: nat | 0 <= i < |picks| && w < |window| && Passing(workspaceTags)(window[w]) && w !in picks
      ensures Outranks(window, sig, picks[i], w)
    {
      assert w in all;
      var j :| 0 <= j < |all| && all[j] == w;
      assert forall m | 0 <= m < |picks| :: picks[m] == all[m] && picks[m] in picks;
    }
    forall i, j | 0 <= i < j < |picks| ensures picks[i] != picks[j] {
      OutranksIsStrict(window, sig, picks[i], picks[j]);
    }
  }

  lemma RowsShow(window: seq<LearnedSkill>, workspaceTags: Option<seq<string>>, sig: Signals,
                 sorted: seq<Candidate>, all: seq<nat>, limit: nat)
    requires Shows(window, sig, sorted, all)
    ensures var rows, picks := Take(EntriesOf(sorted), limit), Take<nat>(all, limit);
            |rows| == |picks| && forall i | 0 <= i < |rows| :: picks[i] < |window| && ShowsLearned(rows[i], window[picks[i]])
  {
    hide MakeCandidate, ShowsLearned;
    var picks := Take<nat>(all, limit);
    forall i | 0 <= i < |picks| ensures picks[i] < |window| && ShowsLearned(sorted[i].entry, window[picks[i]]) {
      CandidateShows(window[picks[i]], sig);
    }
  }

  lemma OutranksIsStrict(window: seq<LearnedSkill>, sig: Signals, v: nat, w: nat)
    requires v < |window| && w < |window| && Outranks(window, sig, v, w)
    ensures v != w
  {
  }

  /** q lists, in order, where the candidates come from. */
  ghost predicate ComesFrom(learned: seq<LearnedSkill>, workspaceTags: Option<seq<string>>, sig: Signals, q: seq<nat>) {
    var cs := Candidates(learned, workspaceTags, sig);
    && |q| == |cs| == |Filter(learned, Passing(workspaceTags))|
    && (forall k | 0 <= k < |q| :: q[k] < |learned| && Passing(workspaceTags)(learned[q[k]])
                                && cs[k] == MakeCandidate(learned[q[k]], sig))
    && (forall k, l | 0 <= k < l < |q| :: q[k] < q[l])
    && (forall w: nat | w < |learned| && Passing(workspaceTags)(learned[w]) :: w in q)
  }

  lemma {:induction false} CandidatePositions(learned: seq<LearnedSkill>, workspaceTags: Option<seq<string>>, sig: Signals)
    returns (q: seq<nat>)
    ensures ComesFrom(learned, workspaceTags, sig, q)
  {
    hide SkillMatchesWorkspace, MakeCandidate;
    if learned == [] {
      q := [];
    } else {
      var n := |learned| - 1;
      var init, d := learned[..n], learned[n];
      var q' := CandidatePositions(init, workspaceTags, sig);
      q := q' + (if Passing(workspaceTags)(d) then [n] else []);
      assert learned == init + [d];
      OneMorePosition(init, d, workspaceTags, sig, q', q);
    }
  }

  lemma OneMorePosition(init: seq<LearnedSkill>, d: LearnedSkill, workspaceTags: Option<seq<string>>, sig: Signals,
                        q': seq<nat>, q: seq<nat>)
    requires ComesFrom(init, workspaceTags, sig, q')
    requires q == q' + (if Passing(workspaceTags)(d) then [|init|] else [])
    ensures ComesFrom(init + [d], workspaceTags, sig, q)
  {
    hide Passing, MakeCandidate, Candidates, Filter;
    CandidatesAppend(init, d, workspaceTags, sig);
    CountAppend(init, d, Passing(workspaceTags));
    var learned := init + [d];
    assert forall k | 0 <= k < |init| :: learned[k] == init[k];
    forall w: nat | w < |learned| && Passing(workspaceTags)(learned[w]) ensures w in q {
      if w < |init| {
        assert w in q';
      }
    }
  }

  lemma CandidatesAppend(init: seq<LearnedSkill>, d: LearnedSkill, workspaceTags: Option<seq<string>>, sig: Signals)
    ensures Candidates(init + [d], workspaceTags, sig)
         == Candidates(init, workspaceTags, sig) + (if Passing(workspaceTags)(d) then [MakeCandidate(d, sig)] else [])
  {
    hide SkillMatchesWorkspace, MakeCandidate;
    assert (init + [d])[..|init|] == init;
  }

  lemma PositionsOutrank(window: seq<LearnedSkill>, workspaceTags: Option<seq<string>>, sig: Signals,
                         q: seq<nat>, p: seq<nat>, i: nat, j: nat)
    requires ComesFrom(window, workspaceTags, sig, q) && |p| == |q|
    requires InSortingOrder(Candidates(window, workspaceTags, sig), MoreBonus, p) && 0 <= i < j < |p|
    ensures Outranks(window, sig, q[p[i]], q[p[j]])
  {
    hide Candidates, MakeCandidate, Filter;
    assert Precedes(Candidates(window, workspaceTags, sig), MoreBonus, p[i], p[j]);
  }

  lemma CandidateShows(d: LearnedSkill, sig: Signals)
    ensures ShowsLearned(MakeCandidate(d, sig).entry, d)
  {
    hide TruncateSummary, BiasBonus, RelevanceBonus, SemanticBonus;
  }

  /**
   Main result: the space left is always used up, matching skills permitting, exactly when there
   is no space, or no workspace filter and a Balanced bias or a space of at most 200. Otherwise
   matching skills beyond the fetched ones are missed.
   */
  lemma WindowSufficesExactly(limit: nat, workspaceTags: Option<seq<string>>, sig: Signals)
    ensures (forall ranked :: |LearnedRows(ranked, limit, workspaceTags, sig)| == Min(limit, |Filter(ranked, Passing(workspaceTags))|))
       <==> limit == 0 || (workspaceTags in {None, Some([])} && (sig.bias == Balanced || limit <= 200))
  {
    hide Filter, LearnedRows, Window, Passing;
    forall ranked
      ensures |LearnedRows(ranked, limit, workspaceTags, sig)|
           == Min(limit, |Filter(Window(ranked, limit, sig), Passing(workspaceTags))|)
    {
      var picks := LearnedRowsSpec(ranked, limit, workspaceTags, sig);
    }
    if limit == 0 {
    } else if workspaceTags in {None, Some([])} {
      WindowWithoutFilter(limit, workspaceTags, sig);
    } else {
      var ranked := MissedBeyondWindow(limit, workspaceTags, sig);
    }
  }

  lemma WindowWithoutFilter(limit: nat, workspaceTags: Option<seq<string>>, sig: Signals)
    requires workspaceTags in {None, Some([])} && limit > 0
    ensures (forall ranked ::
               Min(limit, |Filter(Window(ranked, limit, sig), Passing(workspaceTags))|) == Min(limit, |Filter(ranked, Passing(workspaceTags))|))
       <==> sig.bias == Balanced || limit <= 200
  {
    hide Filter, LearnedRows;
    forall ranked: seq<LearnedSkill> ensures |Filter(ranked, Passing(workspaceTags))| == |ranked| {
      FilterOfAll(ranked, Passing(workspaceTags));
    }
    var many := seq(limit, i => LearnedSkill("", "", None, [], None, 0));
    assert |Filter(Window(many, limit, sig), Passing(workspaceTags))| == Min(FetchLimit(sig.bias, limit), limit);
    assert |Filter(many, Passing(workspaceTags))| == limit;
  }

  lemma {:induction false} FilterOfAll<T>(xs: seq<T>, p: T -> bool)
    requires forall x | x in xs :: p(x)
    ensures |Filter(xs, p)| == |xs|
  {
    if xs != [] {
      FilterOfAll(xs[1..], p);
    }
  }

  lemma {:induction false} FilterOfNone<T>(xs: seq<T>, p: T -> bool)
    requires forall x | x in xs :: !p(x)
    ensures Filter(xs, p) == []
  {
    if xs != [] {
      FilterOfNone(xs[1..], p);
    }
  }

  /** A matching skill right behind a window full of others. */
  lemma MissedBeyondWindow(limit: nat, workspaceTags: Option<seq<string>>, sig: Signals) returns (ranked: seq<LearnedSkill>)
    requires workspaceTags.Some? && workspaceTags.value != []
    ensures Filter(Window(ranked, limit, sig), Passing(workspaceTags)) == []
    ensures |Filter(ranked, Passing(workspaceTags))| > 0
  {
    var fetched := FetchLimit(sig.bias, limit);
    var tag := FreshString(workspaceTags.value);
    var foreign, global := LearnedSkill("", "", None, [tag], None, 0), LearnedSkill("", "", None, [], None, 0);
    assert tag !in workspaceTags.value;
    assert Passing(workspaceTags)(global) && !Passing(workspaceTags)(foreign);
    hide SkillMatchesWorkspace, Filter, FetchLimit, Passing;
    ranked := seq(fetched, i => foreign) + [global];
    var window := Window(ranked, limit, sig);
    assert forall i | 0 <= i < |window| :: window[i] == foreign;
    FilterOfNone(window, Passing(workspaceTags));
    assert ranked[fetched] == global && global in ranked;
    assert global in Filter(ranked, Passing(workspaceTags));
  }

  /** The learned rows read no more than the space left, or twice that up to 200 with a bias, of the store's order. */
  lemma RowsReadTheWindow(a: seq<LearnedSkill>, b: seq<LearnedSkill>, limit: nat, workspaceTags: Option<seq<string>>, sig: Signals)
    requires var n := if sig.bias == Balanced then limit else Min(2 * limit, 200); Take(a, n) == Take(b, n)
    ensures LearnedRows(a, limit, workspaceTags, sig) == LearnedRows(b, limit, workspaceTags, sig)
  {
    hide StableSort, Candidates;
  }

  /** A bias can lift a skill to the top from anywhere among the first 200 within twice the space left. */
  lemma BiasReachesTwiceTheSpace(ranked: seq<LearnedSkill>, i: nat, limit: nat, workspaceTags: Option<seq<string>>, sig: Signals)
    requires i < |ranked| && i < (if sig.bias == Balanced then limit else 2 * limit) && (sig.bias != Balanced ==> i < 200)
    requires HasSignal(sig) && SkillMatchesWorkspace(ranked[i].tags, workspaceTags)
    requires forall d | d in ranked && d != ranked[i] :: MakeCandidate(d, sig).bonus < MakeCandidate(ranked[i], sig).bonus
    ensures var rows := LearnedRows(ranked, limit, workspaceTags, sig);
            rows != [] && rows[0] == MakeCandidate(ranked[i], sig).entry
  {
    hide StableSort, Candidates, MakeCandidate, SkillMatchesWorkspace;
    var window := Take(ranked, FetchLimit(sig.bias, limit));
    var cs := Candidates(window, workspaceTags, sig);
    var sorted := StableSort(cs, MoreBonus);
    StableSortSpec(cs, MoreBonus);
    SameMembers(cs, sorted);
    assert window[i] == ranked[i];
    MatchesAreCandidates(window, workspaceTags, sig);
    var best := MakeCandidate(ranked[i], sig);
    assert best in sorted;
    var k :| 0 <= k < |sorted| && sorted[k] == best;
    assert k > 0 ==> MoreBonus(sorted[0], sorted[k]);
    CandidatesPass(window, workspaceTags, sig);
    assert sorted[0] in sorted;
    var d :| d in window && sorted[0] == MakeCandidate(d, sig);
    assert d in ranked;
  }

  lemma {:induction false} MatchesAreCandidates(learned: seq<LearnedSkill>, workspaceTags: Option<seq<string>>, sig: Signals)
    ensures forall d | d in learned && SkillMatchesWorkspace(d.tags, workspaceTags) ::
              MakeCandidate(d, sig) in Candidates(learned, workspaceTags, sig)
  {
    hide SkillMatchesWorkspace, MakeCandidate;
    if learned != [] {
      MatchesAreCandidates(learned[..|learned| - 1], workspaceTags, sig);
      assert learned == learned[..|learned| - 1] + [learned[|learned| - 1]];
    }
  }

  // ---- format_manifest ---------------------------------------------------------------------------------------------

  function Digits(n: nat): string {
    if n < 10 then [('0' as int + n) as char] else Digits(n / 10) + [('0' as int + n % 10) as char]
  }

  function DigitsValue(s: string): nat
    requires forall i | 0 <= i < |s| :: '0' <= s[i] <= '9'
  {
    if s == "" then 0 else 10 * DigitsValue(s[..|s| - 1]) + (s[|s| - 1] as int - '0' as int)
  }

  /** The citation count is printed in decimal. */
  lemma {:induction false} DigitsReadBack(n: nat)
    ensures forall i | 0 <= i < |Digits(n)| :: '0' <= Digits(n)[i] <= '9'
    ensures Digits(n) != "" && DigitsValue(Digits(n)) == n
  {
    if n >= 10 {
      DigitsReadBack(n / 10);
      var d := [('0' as int + n % 10) as char];
      assert (Digits(n / 10) + d)[..|Digits(n / 10)|] == Digits(n / 10);
    } else {
      assert Digits(n)[..0] == "";
    }
  }

  function ProvenanceName(p: Provenance): string {
    match p case Builtin => "builtin" case Learned => "learned"
  }

  function Line(e: ManifestEntry): (r: string)
    ensures r != ""
  {
    "- **" + e.name + "** [" + ProvenanceName(e.provenance)
    + (if e.citedCount > 0 then " · cited " + Digits(e.citedCount) else "") + "] — " + e.summary + "\n"
  }

  /** The shape of a line, with and without citations. */
  lemma LineExample(name: string, summary: string)
    ensures Line(ManifestEntry(name, summary, Learned, 7, None)) == "- **" + name + "** [" + "learned" + " · cited 7" + "] — " + summary + "\n"
    ensures Line(ManifestEntry(name, summary, Builtin, 0, None)) == "- **" + name + "** [" + "builtin" + "] — " + summary + "\n"
  {
    assert Digits(7) == "7";
    assert " · cited 7" == " · cited " + "7";
    assert "builtin" + "" == "builtin";
  }

  /** Main result: names being free of `*`, a line determines name, provenance, citation count and summary. */
  lemma LineDeterminesEntry(a: ManifestEntry, b: ManifestEntry)
    requires '*' !in a.name && '*' !in b.name && Line(a) == Line(b)
    ensures a.name == b.name && a.provenance == b.provenance && a.citedCount == b.citedCount && a.summary == b.summary
  {
    hide LineTag, Line;
    LineParts(a);
    LineParts(b);
    SamePrefix("- **", a.name + ("** [" + TagAndSummary(a)), b.name + ("** [" + TagAndSummary(b)));
    SplitAtMark(a.name, "** [" + TagAndSummary(a), b.name, "** [" + TagAndSummary(b), '*');
    SamePrefix("** [", TagAndSummary(a), TagAndSummary(b));
    TagsHaveNoBracket(a);
    TagsHaveNoBracket(b);
    SplitAtMark(LineTag(a), "] — " + (a.summary + "\n"), LineTag(b), "] — " + (b.summary + "\n"), ']');
    SamePrefix("] — ", a.summary + "\n", b.summary + "\n");
    assert (a.summary + "\n")[..|a.summary|] == a.summary && (b.summary + "\n")[..|b.summary|] == b.summary;
    TagsDetermine(a, b);
  }

  function TagAndSummary(e: ManifestEntry): string {
    LineTag(e) + ("] — " + (e.summary + "\n"))
  }

  lemma LineParts(e: ManifestEntry)
    ensures Line(e) == "- **" + (e.name + ("** [" + TagAndSummary(e)))
  {
    hide Digits;
    var count := if e.citedCount > 0 then " · cited " + Digits(e.citedCount) else "";
    ConcatReassociated("- **", e.name, "** [", ProvenanceName(e.provenance), count, "] — ", e.summary, "\n");
  }

  lemma ConcatReassociated(a: string, b: string, c: string, d: string, e: string, f: string, g: string, h: string)
    ensures a + b + c + d + e + f + g + h == a + (b + (c + ((d + e) + (f + (g + h)))))
  {
  }

  function LineTag(e: ManifestEntry): string {
    ProvenanceName(e.provenance) + (if e.citedCount > 0 then " · cited " + Digits(e.citedCount) else "")
  }

  lemma TagsHaveNoBracket(e: ManifestEntry)
    ensures ']' !in LineTag(e)
  {
    hide Digits;
    DigitsReadBack(e.citedCount);
  }

  lemma TagsDetermine(a: ManifestEntry, b: ManifestEntry)
    requires LineTag(a) == LineTag(b)
    ensures a.provenance == b.provenance && a.citedCount == b.citedCount
  {
    hide Digits, DigitsValue;
    assert LineTag(a)[0] == LineTag(b)[0];
    assert |"builtin"| == |"learned"|;
    SamePrefix(ProvenanceName(a.provenance), LineTag(a)[7..], LineTag(b)[7..]);
    if a.citedCount > 0 && b.citedCount > 0 {
      SamePrefix(" · cited ", Digits(a.citedCount), Digits(b.citedCount));
      DigitsReadBack(a.citedCount);
      DigitsReadBack(b.citedCount);
    }
  }

  lemma SamePrefix(p: string, a: string, b: string)
    requires p + a == p + b
    ensures a == b
  {
    assert (p + a)[|p|..] == a && (p + b)[|p|..] == b;
  }

  lemma SplitAtMark(a: string, x: string, b: string, y: string, mark: char)
    requires mark !in a && mark !in b && x != "" && y != "" && x[0] == mark && y[0] == mark && a + x == b + y
    ensures a == b && x == y
  {
    var s := a + x;
    assert s[|a|] == mark && s[|b|] == mark;
    assert forall i | 0 <= i < |a| :: s[i] == a[i];
    assert forall i | 0 <= i < |b| :: s[i] == b[i];
    assert s[..|a|] == a && s[..|b|] == b && s[|a|..] == x && s[|b|..] == y;
  }

  function Lines(es: seq<ManifestEntry>): (r: seq<string>)
    ensures |r| == |es| && forall i | 0 <= i < |es| :: r[i] == Line(es[i])
  {
    seq(|es|, i requires 0 <= i < |es| => Line(es[i]))
  }

  function ModeLabel(bias: StrategyBias): string {
    match bias
    case Balanced => ""
    case Repair => "修 bug"
    case Optimize => "优化"
    case Innovate => "探索"
  }

  const TAGGED_FIRST := "-tagged skills ranked first.\n"

  function ModeHint(bias: StrategyBias): string {
    match BiasCategory(bias)
    case None => ""
    case Some(category) => "Current mode: " + ModeLabel(bias) + " — " + category + TAGGED_FIRST
  }

  function HeaderStart(): string {
    "\n\n---\n\n## 你已学习到的技能 (Learned Skills)\n\n"
  }

  function HeaderText(): string {
    "下面是你过往会话中沉淀的技能清单。当遇到相关问题时，先用 `skill_search` 查询，再用 `load_skill` 加载完整内容。**不强制使用**——只有当技能确实匹配当前任务时再调用。\n\n"
  }

  function Header(bias: StrategyBias): string {
    HeaderStart() + ModeHint(bias) + HeaderText()
  }

  const FOOTER := "\n\n**使用流程**：\n1. `skill_search(query: \"...\", top_k: 3)` → 看摘要决定\n2. `load_skill(name: \"...\", reason: \"...\")` → 拿完整指引\n3. 应用后，在回复末尾用 `> 应用技能：name — 简短原因` 标注（供未来检索）\n\n---\n"

  /** Bytes left for the body: four per token, less header and footer, never negative. */
  function BodyBudget(header: string, footer: string, maxTokens: nat): nat {
    var frame := ByteLen(header) + ByteLen(footer);
    if 4 * maxTokens >= frame then 4 * maxTokens - frame else 0
  }

  /** How many of the first lines fit in the budget. */
  function FitCount(lines: seq<string>, budget: nat): (k: nat)
    ensures k <= |lines|
  {
    if lines == [] || ByteLen(lines[0]) > budget then 0 else 1 + FitCount(lines[1..], budget - ByteLen(lines[0]))
  }

  /** Main result: the count is the longest prefix that fits, and no longer one does. */
  lemma {:induction false} FitCountIsLongest(lines: seq<string>, budget: nat, j: nat)
    requires j <= |lines|
    ensures ByteLen(Flatten(lines[..j])) <= budget <==> j <= FitCount(lines, budget)
  {
    if j == 0 {
      assert lines[..0] == [];
    } else {
      var rest := lines[1..];
      assert lines[..j][1..] == rest[..j - 1] && lines[..j][0] == lines[0];
      ByteLenConcat(lines[0], Flatten(rest[..j - 1]));
      if ByteLen(lines[0]) <= budget {
        FitCountIsLongest(rest, budget - ByteLen(lines[0]), j - 1);
      }
    }
  }

  function Rendered(header: string, footer: string, lines: seq<string>, maxTokens: nat): string {
    var k := FitCount(lines, BodyBudget(header, footer, maxTokens));
    if k == 0 then "" else header + Flatten(lines[..k]) + footer
  }

  /** Main result: the text is nothing, or header, the first k lines and footer, k being as many as fit in four bytes per token. */
  method FormatManifest(entries: seq<ManifestEntry>, maxTokens: nat, bias: StrategyBias) returns (r: string, ghost k: nat)
    ensures r == Rendered(Header(bias), FOOTER, Lines(entries), maxTokens)
    ensures k <= |entries| && r == if k == 0 then "" else Header(bias) + Flatten(Lines(entries)[..k]) + FOOTER
    ensures forall j | 1 <= j <= |entries| ::
              j <= k <==> ByteLen(Header(bias)) + ByteLen(Flatten(Lines(entries)[..j])) + ByteLen(FOOTER) <= 4 * maxTokens
  {
    hide Line, Header, ByteLen, BodyBudget;
    var header, footer := Header(bias), FOOTER;
    ghost var lines := Lines(entries);
    var body := "";
    var budget := BodyBudget(header, footer, maxTokens);
    var remaining: nat := budget;
    var n := 0;
    while n < |entries|
      invariant 0 <= n <= |entries|
      invariant body == Flatten(lines[..n]) && (body == "" <==> n == 0)
      invariant FitCount(lines, budget) == n + FitCount(lines[n..], remaining)
    {
      var line := Line(entries[n]);
      if ByteLen(line) > remaining {
        break;
      }
      remaining := remaining - ByteLen(line);
      body := body + line;
      assert lines[..n + 1] == lines[..n] + [lines[n]];
      FlattenAppend(lines[..n], lines[n]);
      assert lines[n..][1..] == lines[n + 1..];
      n := n + 1;
    }
    assert n == FitCount(lines, budget);
    k := n;
    EmittedExactly(header, footer, lines, maxTokens);
    if body == "" {
      return "", k;
    }
    r := header + body + footer;
  }

  /** A prefix of the lines is emitted exactly when it fits with header and footer. */
  lemma EmittedExactly(header: string, footer: string, lines: seq<string>, maxTokens: nat)
    requires forall line | line in lines :: line != ""
    ensures forall j | 1 <= j <= |lines| ::
              j <= FitCount(lines, BodyBudget(header, footer, maxTokens))
              <==> ByteLen(header) + ByteLen(Flatten(lines[..j])) + ByteLen(footer) <= 4 * maxTokens
  {
    hide ByteLen, Flatten, FitCount;
    forall j | 1 <= j <= |lines|
      ensures j <= FitCount(lines, BodyBudget(header, footer, maxTokens))
              <==> ByteLen(header) + ByteLen(Flatten(lines[..j])) + ByteLen(footer) <= 4 * maxTokens
    {
      FitCountIsLongest(lines, BodyBudget(header, footer, maxTokens), j);
      SomeBytes(lines, j);
    }
  }

  lemma SomeBytes(lines: seq<string>, j: nat)
    requires 1 <= j <= |lines| && forall line | line in lines :: line != ""
    ensures ByteLen(Flatten(lines[..j])) > 0
  {
    assert lines[..j][0] == lines[0] && lines[0] in lines;
    assert |Flatten(lines[..j])| >= |lines[0]|;
  }

  /** A bias names its category in the header. */
  lemma HeaderTellsBias(bias: StrategyBias)
    ensures BiasCategory(bias).Some? ==> Contains(Header(bias), BiasCategory(bias).value + TAGGED_FIRST)
  {
    hide HeaderStart, HeaderText, ModeLabel, Contains, BiasCategory;
    if BiasCategory(bias).Some? {
      HintInside(HeaderStart(), "Current mode: ", ModeLabel(bias), " — ", BiasCategory(bias).value, TAGGED_FIRST, HeaderText());
    }
  }

  lemma HintInside(start: string, lead: string, mode: string, dash: string, category: string, tagged: string, text: string)
    ensures Contains(start + (lead + mode + dash + category + tagged) + text, category + tagged)
  {
    hide Contains;
    ContainsBetween(start + (lead + mode + dash), category + tagged, text);
    assert start + (lead + mode + dash) + ((category + tagged) + text) == start + (lead + mode + dash + category + tagged) + text;
  }

  lemma ContainsBetween(a: string, b: string, c: string)
    ensures Contains(a + (b + c), b)
  {
    var s := a + (b + c);
    assert s[|a|..] == b + c;
    assert IsPrefix(b, s[|a|..]);
  }

  /** Main result: never over four bytes per token. */
  lemma RenderedFits(header: string, footer: string, lines: seq<string>, maxTokens: nat)
    requires forall line | line in lines :: line != ""
    ensures ByteLen(Rendered(header, footer, lines, maxTokens)) <= 4 * maxTokens
  {
    hide ByteLen;
    var budget := BodyBudget(header, footer, maxTokens);
    var k := FitCount(lines, budget);
    EmptyIsNoBytes();
    if k > 0 {
      FitCountIsLongest(lines, budget, k);
      NonemptyFirst(lines, budget);
      assert lines[0] in lines && ByteLen(lines[0]) >= |lines[0]|;
      assert budget > 0;
      ByteLenConcat(header, Flatten(lines[..k]));
      ByteLenConcat(header + Flatten(lines[..k]), footer);
    }
  }

  lemma EmptyIsNoBytes()
    ensures ByteLen("") == 0
  {
  }

  lemma NonemptyFirst(lines: seq<string>, budget: nat)
    ensures FitCount(lines, budget) > 0 ==> lines != [] && ByteLen(lines[0]) <= budget
  {
  }

  /** Main result: a larger budget only extends the emitted prefix. */
  lemma LargerBudgetExtends(header: string, footer: string, lines: seq<string>, small: nat, large: nat)
    requires small <= large
    ensures FitCount(lines, BodyBudget(header, footer, small)) <= FitCount(lines, BodyBudget(header, footer, large))
    ensures Rendered(header, footer, lines, small) == ""
         || exists more :: Rendered(header, footer, lines, large)
              == header + (Flatten(lines[..FitCount(lines, BodyBudget(header, footer, small))]) + more) + footer
  {
    hide ByteLen;
    var b1, b2 := BodyBudget(header, footer, small), BodyBudget(header, footer, large);
    var k1, k2 := FitCount(lines, b1), FitCount(lines, b2);
    FitCountIsLongest(lines, b1, k1);
    FitCountIsLongest(lines, b2, k1);
    var more := Flatten(lines[k1..k2]);
    FlattenSplit(lines[..k2], k1);
    assert lines[..k2][..k1] == lines[..k1] && lines[..k2][k1..] == lines[k1..k2];
    assert Flatten(lines[..k2]) == Flatten(lines[..k1]) + more;
  }

  lemma {:induction false} FlattenSplit(xss: seq<string>, k: nat)
    requires k <= |xss|
    ensures Flatten(xss) == Flatten(xss[..k]) + Flatten(xss[k..])
  {
    if k == 0 {
      assert xss[..0] == [] && xss[0..] == xss;
    } else {
      FlattenSplit(xss[1..], k - 1);
      assert xss[..k][1..] == xss[1..][..k - 1] && xss[1..][k - 1..] == xss[k..];
    }
  }
}
