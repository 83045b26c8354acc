/**
 The `memories` table of src-tauri/src/memory.rs: rows in table order, what each statement does
 to them and what the reads select. Clock readings are the texts the statements compare.
 */
module MemoryTable {
  import opened Base
  import opened Sorting
  import opened Text

  datatype Key = Key(space: string, ns: string, key: string)

  /** value and metadata are JSON texts. expiresAt is the text stored with the row. */
  datatype Row = Row(
    id: string,
    key: Key,
    value: string,
    kind: string,
    tags: string,
    metadata: Option<string>,
    createdAt: string,
    updatedAt: string,
    expiresAt: Option<string>)

  datatype Entry = Entry(
    id: string,
    key: Key,
    value: string,
    kind: string,
    tags: seq<string>,
    metadata: Option<string>,
    createdAt: string,
    updatedAt: string,
    expiresAt: Option<string>)

  datatype SetOpts = SetOpts(key: Key, value: string, kind: string, tags: seq<string>, metadata: Option<string>)

  type Table = seq<Row>

  // ---- Statements --------------------------------------------------------------------------------------

  /** freshId, now and expiresAt are the uuid and clock readings the call makes. */
  datatype Op =
    | Set(opts: SetOpts, freshId: string, now: string, expiresAt: Option<string>)
    | UpdateValue(key: Key, value: string, now: string)
    | Delete(key: Key)
    | DeleteById(id: string)
    | Prune(now: string)
    | ClearNamespace(ns: string, space: Option<string>)
    | ClearSpace(inSpace: string)

  /** UNIQUE(space_id, namespace, key). */
  ghost predicate UniqueKeys(t: Table) {
    forall i, j | 0 <= i < j < |t| :: t[i].key != t[j].key
  }

  function Find(t: Table, k: Key): Option<nat> {
    FindFirst(t, (r: Row) => r.key == k)
  }

  function Lookup(t: Table, k: Key): Option<Row> {
    match Find(t, k) case None => None case Some(i) => Some(t[i])
  }

  function JoinTags(tags: seq<string>): string {
    if tags == [] then "" else if |tags| == 1 then tags[0] else tags[0] + "," + JoinTags(tags[1..])
  }

  /** The row an upsert leaves: id and creation time of the row it replaces, if there is one. */
  function UpsertedRow(existing: Option<Row>, op: Op): (r: Row)
    requires op.Set?
    ensures r.key == op.opts.key
  {
    var o := op.opts;
    Row(if existing.Some? then existing.value.id else op.freshId,
        o.key, o.value, o.kind, JoinTags(o.tags), o.metadata,
        if existing.Some? then existing.value.createdAt else op.now, op.now, op.expiresAt)
  }

  /** `expires_at <= datetime('now')`, a comparison of texts. */
  predicate Expired(r: Row, now: string) {
    r.expiresAt.Some? && StrLe(r.expiresAt.value, now)
  }

  predicate Removes(op: Op, r: Row) {
    match op
    case Delete(k) => r.key == k
    case DeleteById(id) => r.id == id
    case Prune(now) => Expired(r, now)
    case ClearNamespace(ns, space) => r.key.ns == ns && (space.Some? ==> r.key.space == space.value)
    case ClearSpace(space) => r.key.space == space
    case _ => false
  }

  function WithValue(r: Row, op: Op): (r': Row)
    requires op.UpdateValue?
    ensures r'.key == r.key && r'.id == r.id
  {
    r.(value := op.value, updatedAt := op.now)
  }

  function Apply(t: Table, op: Op): Table {
    match op
    case Set(opts, _, _, _) =>
      (match Find(t, opts.key)
       case Some(i) => t[i := UpsertedRow(Some(t[i]), op)]
       case None => t + [UpsertedRow(None, op)])
    case UpdateValue(k, _, _) =>
      (match Find(t, k)
       case Some(i) => t[i := WithValue(t[i], op)]
       case None => t)
    case _ => Filter(t, (r: Row) => !Removes(op, r))
  }

  function Run(ops: seq<Op>): Table {
    if ops == [] then [] else Apply(Run(ops[..|ops| - 1]), ops[|ops| - 1])
  }

  // ---- The plain map it refines -------------------------------------------------------------------------

  function MapApply(m: map<Key, Row>, op: Op): map<Key, Row> {
    match op
    case Set(opts, _, _, _) => m[opts.key := UpsertedRow(if opts.key in m then Some(m[opts.key]) else None, op)]
    case UpdateValue(k, _, _) => if k in m then m[k := WithValue(m[k], op)] else m
    case _ => map k | k in m && !Removes(op, m[k]) :: m[k]
  }

  function MapRun(ops: seq<Op>): map<Key, Row> {
    if ops == [] then map[] else MapApply(MapRun(ops[..|ops| - 1]), ops[|ops| - 1])
  }

  ghost predicate Represents(t: Table, m: map<Key, Row>) {
    UniqueKeys(t) && forall k :: Lookup(t, k) == if k in m then Some(m[k]) else None
  }

  lemma LookupIs(t: Table, k: Key, i: nat)
    requires UniqueKeys(t) && i < |t| && t[i].key == k
    ensures Find(t, k) == Some(i) && Lookup(t, k) == Some(t[i])
  {
    FindFirstIs(t, (r: Row) => r.key == k, i);
  }

  /** Replacing or appending the row of one key. */
  lemma StoreRow(t: Table, r: Row)
    requires UniqueKeys(t)
    ensures var t' := match Find(t, r.key) { case Some(i) => t[i := r] case None => t + [r] };
            UniqueKeys(t') && forall k :: Lookup(t', k) == if k == r.key then Some(r) else Lookup(t, k)
  {
    var t' := match Find(t, r.key) { case Some(i) => t[i := r] case None => t + [r] };
    assert UniqueKeys(t');
    forall k ensures Lookup(t', k) == if k == r.key then Some(r) else Lookup(t, k) {
      if k == r.key {
        LookupIs(t', k, match Find(t, r.key) { case Some(i) => i case None => |t| });
      } else if Find(t, k).Some? {
        var i := Find(t, k).value;
        LookupIs(t', k, i);
      }
    }
  }

  lemma {:induction false} DeletedKeys(t: Table, p: Row -> bool)
    requires UniqueKeys(t)
    ensures UniqueKeys(Filter(t, p))
  {
    if t != [] {
      DeletedKeys(t[1..], p);
      forall r | r in Filter(t[1..], p) ensures r.key != t[0].key {
        var i :| 0 <= i < |t[1..]| && t[1..][i] == r;
        assert t[i + 1] == r;
      }
    }
  }

  lemma {:induction false} DeletedLookup(t: Table, p: Row -> bool, k: Key)
    requires UniqueKeys(t)
    ensures Lookup(Filter(t, p), k) == if Lookup(t, k).Some? && p(Lookup(t, k).value) then Lookup(t, k) else None
  {
    hide Lookup;
    if t != [] {
      var r, rest := t[0], t[1..];
      assert t == [r] + rest;
      DeletedLookup(rest, p, k);
      LookupCons(r, rest, k);
      if p(r) {
        LookupCons(r, Filter(rest, p), k);
      } else {
        assert Filter(t, p) == [] + Filter(rest, p) == Filter(rest, p);
      }
      if r.key == k {
        KeyAbsent(rest, k);
      }
    } else {
      LookupNothing(k);
    }
  }

  lemma KeyAbsent(t: Table, k: Key)
    requires forall r | r in t :: r.key != k
    ensures Lookup(t, k) == None
  {
  }

  lemma LookupNothing(k: Key)
    ensures Lookup([], k) == None
  {
  }

  lemma LookupCons(r: Row, t: Table, k: Key)
    ensures Lookup([r] + t, k) == if r.key == k then Some(r) else Lookup(t, k)
    ensures Lookup(t, k).Some? ==> Lookup(t, k).value in t && Lookup(t, k).value.key == k
  {
    assert ([r] + t)[1..] == t;
  }

  lemma StepRefines(t: Table, m: map<Key, Row>, op: Op)
    requires Represents(t, m)
    ensures Represents(Apply(t, op), MapApply(m, op))
  {
    hide *;
    match op {
      case Set(_, _, _, _) => SetRefines(t, m, op);
      case UpdateValue(_, _, _) => UpdateRefines(t, m, op);
      case _ => DeleteRefines(t, m, op);
    }
  }

  lemma SetRefines(t: Table, m: map<Key, Row>, op: Op)
    requires Represents(t, m) && op.Set?
    ensures Represents(Apply(t, op), MapApply(m, op))
  {
    hide UpsertedRow, UniqueKeys;
    StoreRow(t, UpsertedRow(Lookup(t, op.opts.key), op));
    assert Lookup(t, op.opts.key) == if op.opts.key in m then Some(m[op.opts.key]) else None;
  }

  lemma UpdateRefines(t: Table, m: map<Key, Row>, op: Op)
    requires Represents(t, m) && op.UpdateValue?
    ensures Represents(Apply(t, op), MapApply(m, op))
  {
    hide WithValue, UniqueKeys;
    assert Lookup(t, op.key) == if op.key in m then Some(m[op.key]) else None;
    if op.key in m {
      KeyOfLookup(t, op.key);
      StoreRow(t, WithValue(m[op.key], op));
    }
  }

  lemma KeyOfLookup(t: Table, k: Key)
    ensures Lookup(t, k).Some? ==> Lookup(t, k).value.key == k
  {
  }

  lemma DeleteRefines(t: Table, m: map<Key, Row>, op: Op)
    requires Represents(t, m) && !op.Set? && !op.UpdateValue?
    ensures Represents(Apply(t, op), MapApply(m, op))
  {
    hide Removes, Lookup;
    var keep := (r: Row) => !Removes(op, r);
    DeletedKeys(t, keep);
    forall k ensures Lookup(Filter(t, keep), k) == if k in m && keep(m[k]) then Some(m[k]) else None {
      DeletedLookup(t, keep, k);
    }
  }

  /** Main result: after any run of statements the table is exactly the plain map run alongside. */
  lemma {:induction false} RunsRefineMap(ops: seq<Op>)
    ensures Represents(Run(ops), MapRun(ops))
  {
    if ops == [] {
      assert forall k :: Lookup([], k) == None;
    } else {
      RunsRefineMap(ops[..|ops| - 1]);
      StepRefines(Run(ops[..|ops| - 1]), MapRun(ops[..|ops| - 1]), ops[|ops| - 1]);
    }
  }

  /** Main result: as long as a key stays present, its id and creation time are those of its first insertion. */
  lemma {:induction false} PresenceKeepsIdentity(ops: seq<Op>, from: nat, k: Key)
    requires from <= |ops|
    requires (forall n | from <= n < |ops| :: k in MapRun(ops[..n])) && k in MapRun(ops)
    ensures k in MapRun(ops[..from])
    ensures MapRun(ops)[k].id == MapRun(ops[..from])[k].id && MapRun(ops)[k].createdAt == MapRun(ops[..from])[k].createdAt
    decreases |ops| - from
  {
    hide MapApply;
    if from == |ops| {
      assert ops[..|ops|] == ops;
    } else {
      assert from + 1 == |ops| ==> ops[..from + 1] == ops;
      PresenceKeepsIdentity(ops, from + 1, k);
      assert ops[..from + 1][..from] == ops[..from];
      StepKeepsIdentity(MapRun(ops[..from]), ops[from], k);
    }
  }

  lemma StepKeepsIdentity(m: map<Key, Row>, op: Op, k: Key)
    requires k in m && k in MapApply(m, op)
    ensures MapApply(m, op)[k].id == m[k].id && MapApply(m, op)[k].createdAt == m[k].createdAt
  {
  }

  /** Only a set inserts a key, and then with its own fresh id and time. */
  lemma InsertionIsFresh(m: map<Key, Row>, op: Op, k: Key)
    requires k !in m && k in MapApply(m, op)
    ensures SetsKey(op, k)
    ensures MapApply(m, op)[k] == Row(op.freshId, k, op.opts.value, op.opts.kind, JoinTags(op.opts.tags), op.opts.metadata,
                                      op.now, op.now, op.expiresAt)
  {
    hide JoinTags;
  }

  predicate SetsKey(op: Op, k: Key) {
    op.Set? && op.opts.key == k
  }

  predicate WritesKey(op: Op, k: Key) {
    SetsKey(op, k) || (op.UpdateValue? && op.key == k)
  }

  /** k was inserted by statement n and has been present ever since. */
  ghost predicate PresentSince(ops: seq<Op>, k: Key, n: nat) {
    n < |ops| && SetsKey(ops[n], k) && k !in MapRun(ops[..n]) && forall m | n < m <= |ops| :: k in MapRun(ops[..m])
  }

  ghost predicate IsLastSet(ops: seq<Op>, k: Key, n: nat) {
    n < |ops| && SetsKey(ops[n], k) && forall m | n < m < |ops| :: !SetsKey(ops[m], k)
  }

  ghost predicate IsLastWrite(ops: seq<Op>, k: Key, n: nat) {
    n < |ops| && WritesKey(ops[n], k) && forall m | n < m < |ops| :: !WritesKey(ops[m], k)
  }

  /** The row has its identity from one set, its value and update time from a write, the rest from another set. */
  ghost predicate MadeBy(k: Key, row: Row, inserted: Op, set_: Op, write: Op)
    requires inserted.Set? && set_.Set? && (write.Set? || write.UpdateValue?)
  {
    && row.id == inserted.freshId && row.createdAt == inserted.now && row.key == k
    && row.kind == set_.opts.kind && row.tags == JoinTags(set_.opts.tags)
    && row.metadata == set_.opts.metadata && row.expiresAt == set_.expiresAt
    && row.value == (if write.Set? then write.opts.value else write.value) && row.updatedAt == write.now
  }

  /**
   Main result: after any run of statements the row of a present key has the id and creation time
   of the set that inserted it, the kind, tags, metadata and expiry of the last set, and the value
   and update time of the last set or value update.
   */
  lemma {:induction false} RowByHistory(ops: seq<Op>, k: Key) returns (inserted: nat, lastSet: nat, lastWrite: nat)
    requires k in MapRun(ops)
    ensures PresentSince(ops, k, inserted) && IsLastSet(ops, k, lastSet) && IsLastWrite(ops, k, lastWrite)
    ensures inserted <= lastSet <= lastWrite
    ensures MadeBy(k, MapRun(ops)[k], ops[inserted], ops[lastSet], ops[lastWrite])
  {
    var before, op := ops[..|ops| - 1], ops[|ops| - 1];
    var last := |before|;
    assert ops == before + [op];
    MapRunStep(before, op);
    hide MapRun, MapApply, MadeBy, PresentSince, IsLastSet, IsLastWrite, JoinTags;
    if k in MapRun(before) {
      inserted, lastSet, lastWrite := RowByHistory(before, k);
      StillPresent(before, op, k, inserted);
      NextLastSet(before, op, k, lastSet);
      NextLastWrite(before, op, k, lastWrite);
      StepChangesRow(MapRun(before), op, k);
      InBounds(before, k, inserted, lastSet, lastWrite);
      NextMadeBy(k, MapRun(before)[k], MapRun(ops)[k], op, before[inserted], before[lastSet], before[lastWrite]);
      if SetsKey(op, k) {
        lastSet, lastWrite := last, last;
      } else if WritesKey(op, k) {
        lastWrite := last;
      }
    } else {
      InsertionIsFresh(MapRun(before), op, k);
      inserted, lastSet, lastWrite := last, last, last;
      JustInserted(before, op, k);
      FreshlyMade(k, MapRun(ops)[k], op);
    }
  }

  lemma MapRunStep(before: seq<Op>, op: Op)
    ensures MapRun(before + [op]) == MapApply(MapRun(before), op)
  {
    assert (before + [op])[..|before|] == before;
  }

  lemma InBounds(ops: seq<Op>, k: Key, inserted: nat, lastSet: nat, lastWrite: nat)
    requires PresentSince(ops, k, inserted) && IsLastSet(ops, k, lastSet) && IsLastWrite(ops, k, lastWrite)
    ensures inserted < |ops| && lastSet < |ops| && lastWrite < |ops|
    ensures SetsKey(ops[inserted], k) && SetsKey(ops[lastSet], k) && WritesKey(ops[lastWrite], k)
  {
    hide MapRun;
  }

  lemma StillPresent(before: seq<Op>, op: Op, k: Key, n: nat)
    requires PresentSince(before, k, n) && k in MapRun(before + [op])
    ensures PresentSince(before + [op], k, n)
  {
    hide MapRun;
    var ops := before + [op];
    assert ops[..|ops|] == ops && forall m | 0 <= m <= |before| :: ops[..m] == before[..m];
  }

  lemma NextLastSet(before: seq<Op>, op: Op, k: Key, n: nat)
    requires IsLastSet(before, k, n)
    ensures IsLastSet(before + [op], k, if SetsKey(op, k) then |before| else n)
  {
  }

  lemma NextLastWrite(before: seq<Op>, op: Op, k: Key, n: nat)
    requires IsLastWrite(before, k, n)
    ensures IsLastWrite(before + [op], k, if WritesKey(op, k) then |before| else n)
  {
  }

  lemma NextMadeBy(k: Key, r: Row, r': Row, op: Op, inserted: Op, set_: Op, write: Op)
    requires SetsKey(inserted, k) && SetsKey(set_, k) && WritesKey(write, k) && MadeBy(k, r, inserted, set_, write)
    requires ChangesRow(k, r, r', op)
    ensures MadeBy(k, r', inserted, if SetsKey(op, k) then op else set_, if WritesKey(op, k) then op else write)
  {
    hide JoinTags;
  }

  lemma JustInserted(before: seq<Op>, op: Op, k: Key)
    requires SetsKey(op, k) && k !in MapRun(before) && k in MapRun(before + [op])
    ensures var ops, n := before + [op], |before|;
            PresentSince(ops, k, n) && IsLastSet(ops, k, n) && IsLastWrite(ops, k, n)
  {
    hide MapRun;
    var ops := before + [op];
    assert ops[..|before|] == before && ops[..|ops|] == ops;
  }

  lemma FreshlyMade(k: Key, r: Row, op: Op)
    requires SetsKey(op, k)
    requires r == Row(op.freshId, k, op.opts.value, op.opts.kind, JoinTags(op.opts.tags), op.opts.metadata, op.now, op.now, op.expiresAt)
    ensures MadeBy(k, r, op, op, op)
  {
    hide JoinTags;
  }

  /** A set keeps the row's identity only, a value update all but value and update time, anything else the whole row. */
  ghost predicate ChangesRow(k: Key, r: Row, r': Row, op: Op) {
    && (!WritesKey(op, k) ==> r' == r)
    && (SetsKey(op, k) ==> r' == Row(r.id, k, op.opts.value, op.opts.kind, JoinTags(op.opts.tags), op.opts.metadata,
                                     r.createdAt, op.now, op.expiresAt))
    && (WritesKey(op, k) && !SetsKey(op, k) ==>
          r' == Row(r.id, r.key, op.value, r.kind, r.tags, r.metadata, r.createdAt, op.now, r.expiresAt))
  }

  lemma StepChangesRow(m: map<Key, Row>, op: Op, k: Key)
    requires k in m && k in MapApply(m, op)
    ensures ChangesRow(k, m[k], MapApply(m, op)[k], op)
  {
    hide JoinTags;
  }

  // ---- Reads -----------------------------------------------------------------------------------------

  function DecodeTags(text: string): seq<string> {
    if text == "" then []
    else
      var pieces := SplitOn(text, ',');
      Filter(seq(|pieces|, i requires 0 <= i < |pieces| => Trim(pieces[i])), (s: string) => s != "")
  }

  function RowToEntry(r: Row): Entry {
    Entry(r.id, r.key, r.value, r.kind, DecodeTags(r.tags), r.metadata, r.createdAt, r.updatedAt, r.expiresAt)
  }

  /** `expires_at IS NULL OR expires_at > datetime('now')`. */
  predicate Live(r: Row, now: string) {
    !Expired(r, now)
  }

  function GetFull(t: Table, k: Key, now: string): Option<Entry> {
    match Lookup(t, k)
    case Some(r) => if Live(r, now) then Some(RowToEntry(r)) else None
    case None => None
  }

  predicate NewestFirst(a: Row, b: Row) {
    StrLe(b.updatedAt, a.updatedAt)
  }

  function Page<T>(xs: seq<T>, offset: nat, limit: nat): seq<T> {
    var from := Min(offset, |xs|);
    xs[from..][..Min(limit, |xs| - from)]
  }

  /** A SELECT on this table: the rows to keep, newest first, one page of them. */
  function SelectRows(t: Table, keep: Row -> bool, offset: nat, limit: nat): seq<Row> {
    Page(StableSort(Filter(t, keep), NewestFirst), offset, limit)
  }

  /** What search_full and list_filtered return: the live rows meeting the condition, decoded. */
  function Select(t: Table, now: string, condition: Row -> bool, offset: nat, limit: nat): seq<Entry> {
    var rows := SelectRows(t, (r: Row) => Live(r, now) && condition(r), offset, limit);
    seq(|rows|, i requires 0 <= i < |rows| => RowToEntry(rows[i]))
  }

  /** `like(text, query)` is SQLite's `text LIKE '%query%'`. */
  type Like = (string, string) -> bool

  /** What a searched row has to meet. */
  function SearchCondition(like: Like, query: string, ns: Option<string>, space: Option<string>, kind: Option<string>): Row -> bool {
    (r: Row) =>
      && (query != "" ==> like(r.key.key, query) || like(r.value, query) || like(r.tags, query))
      && (ns.Some? ==> r.key.ns == ns.value)
      && (space.Some? ==> r.key.space == space.value)
      && (kind.Some? ==> r.kind == kind.value)
  }

  function SearchFull(t: Table, now: string, like: Like, query: string,
                      ns: Option<string>, space: Option<string>, kind: Option<string>, limit: nat): seq<Entry> {
    Select(t, now, SearchCondition(like, query, ns, space, kind), 0, limit)
  }

  datatype ListFilter = ListFilter(
    space: Option<string>, ns: Option<string>, kind: Option<string>, tag: Option<string>,
    limit: Option<nat>, offset: Option<nat>)

  function ListCondition(like: Like, f: ListFilter): Row -> bool {
    (r: Row) =>
      && (f.space.Some? ==> r.key.space == f.space.value)
      && (f.ns.Some? ==> r.key.ns == f.ns.value)
      && (f.kind.Some? ==> r.kind == f.kind.value)
      && (f.tag.Some? ==> like(r.tags, f.tag.value))
  }

  function ListFiltered(t: Table, now: string, like: Like, f: ListFilter): seq<Entry> {
    Select(t, now, ListCondition(like, f),
      if f.offset.Some? then f.offset.value else 0, if f.limit.Some? then f.limit.value else 100)
  }

  predicate MeetsAll(conditions: seq<Row -> bool>, r: Row) {
    forall i | 0 <= i < |conditions| :: conditions[i](r)
  }

  lemma MeetsOneMore(conditions: seq<Row -> bool>, c: Row -> bool)
    ensures forall r :: MeetsAll(conditions + [c], r) <==> MeetsAll(conditions, r) && c(r)
  {
    assert (conditions + [c])[|conditions|] == c;
    assert forall i | 0 <= i < |conditions| :: (conditions + [c])[i] == conditions[i];
  }

  /** Conditions that amount to being live and meeting one condition select what Select does. */
  lemma SelectByConditions(t: Table, now: string, conditions: seq<Row -> bool>, condition: Row -> bool, offset: nat, limit: nat)
    requires forall r :: MeetsAll(conditions, r) <==> Live(r, now) && condition(r)
    ensures var r, rows := Select(t, now, condition, offset, limit),
                           SelectRows(t, (r: Row) => MeetsAll(conditions, r), offset, limit);
            |r| == |rows| && forall i | 0 <= i < |r| :: r[i] == RowToEntry(rows[i])
  {
    hide StableSort, Page, RowToEntry, Live, MeetsAll;
    FilterSame(t, (r: Row) => MeetsAll(conditions, r), (r: Row) => Live(r, now) && condition(r));
  }

  lemma {:induction false} FilterSame<T>(xs: seq<T>, p: T -> bool, q: T -> bool)
    requires forall x :: p(x) == q(x)
    ensures Filter(xs, p) == Filter(xs, q)
  {
    if xs != [] {
      FilterSame(xs[1..], p, q);
    }
  }

  lemma NewestFirstIsTotal()
    ensures TotalPreorder(NewestFirst)
  {
    hide StrLe;
    StrLeIsTotalOrder();
  }

  /** Main result: a page lists only live matching rows, newest first, and a wide enough page lists all of them. */
  lemma SelectSpec(t: Table, now: string, condition: Row -> bool, offset: nat, limit: nat) returns (rows: seq<Row>)
    ensures var r := Select(t, now, condition, offset, limit);
            && |rows| == |r| <= limit
            && (forall i | 0 <= i < |r| :: r[i] == RowToEntry(rows[i]))
            && (forall row | row in rows :: row in t && Live(row, now) && condition(row))
            && (forall i, j | 0 <= i < j < |rows| :: StrLe(rows[j].updatedAt, rows[i].updatedAt))
            && (offset == 0 && limit >= |t| ==> forall row | row in t && Live(row, now) && condition(row) :: row in rows)
  {
    hide *;
    var live := (r: Row) => Live(r, now) && condition(r);
    var chosen := Filter(t, live);
    var sorted := StableSort(chosen, NewestFirst);
    ChosenSorted(chosen);
    FilterIsShorter(t, live);
    rows := PageOfSelection(sorted, offset, limit);
    SelectIs(t, now, condition, offset, limit);
  }

  lemma SelectIs(t: Table, now: string, condition: Row -> bool, offset: nat, limit: nat)
    ensures var r, rows := Select(t, now, condition, offset, limit),
                           Page(StableSort(Filter(t, (r: Row) => Live(r, now) && condition(r)), NewestFirst), offset, limit);
            |r| == |rows| && forall i | 0 <= i < |r| :: r[i] == RowToEntry(rows[i])
  {
    hide StableSort, StrLe, RowToEntry, Live, Page;
  }

  lemma ChosenSorted(chosen: seq<Row>)
    ensures var sorted := StableSort(chosen, NewestFirst);
            && (forall row :: row in sorted <==> row in chosen) && |sorted| == |chosen|
            && forall i, j | 0 <= i < j < |sorted| :: StrLe(sorted[j].updatedAt, sorted[i].updatedAt)
  {
    hide StableSort, StrLe;
    NewestFirstIsTotal();
    StableSortSpec(chosen, NewestFirst);
    var sorted := StableSort(chosen, NewestFirst);
    forall row ensures row in sorted <==> row in chosen {
      assert row in sorted <==> row in multiset(sorted);
      assert row in chosen <==> row in multiset(chosen);
    }
    assert |multiset(sorted)| == |sorted| && |multiset(chosen)| == |chosen|;
    forall i, j | 0 <= i < j < |sorted| ensures StrLe(sorted[j].updatedAt, sorted[i].updatedAt) {
      assert NewestFirst(sorted[i], sorted[j]);
    }
  }

  lemma PageOfSelection(sorted: seq<Row>, offset: nat, limit: nat) returns (rows: seq<Row>)
    requires forall i, j | 0 <= i < j < |sorted| :: StrLe(sorted[j].updatedAt, sorted[i].updatedAt)
    ensures rows == Page(sorted, offset, limit) && |rows| <= limit
    ensures forall row | row in rows :: row in sorted
    ensures forall i, j | 0 <= i < j < |rows| :: StrLe(rows[j].updatedAt, rows[i].updatedAt)
    ensures offset == 0 && limit >= |sorted| ==> rows == sorted
  {
    hide StrLe;
    rows := Page(sorted, offset, limit);
    assert forall i | 0 <= i < |rows| :: rows[i] == sorted[Min(offset, |sorted|) + i];
  }

  /** A read selects an entry exactly when `get_full` answers with it and its row meets the condition. */
  lemma SelectAgreesWithGet(t: Table, now: string, condition: Row -> bool, limit: nat, e: Entry)
    requires UniqueKeys(t) && limit >= |t|
    ensures e in Select(t, now, condition, 0, limit)
       <==> GetFull(t, e.key, now) == Some(e) && condition(Lookup(t, e.key).value)
  {
    hide Select, Live, UniqueKeys, Lookup;
    var r := Select(t, now, condition, 0, limit);
    var rows := SelectSpec(t, now, condition, 0, limit);
    if e in r {
      var i :| 0 <= i < |r| && r[i] == e;
      assert rows[i] in rows;
      var j :| 0 <= j < |t| && t[j] == rows[i];
      LookupIs(t, e.key, j);
    }
    if GetFull(t, e.key, now) == Some(e) && condition(Lookup(t, e.key).value) {
      var row := Lookup(t, e.key).value;
      LookedUpIsInTable(t, e.key);
      assert row in rows;
      var i :| 0 <= i < |rows| && rows[i] == row;
      assert r[i] == e;
    }
  }

  lemma LookedUpIsInTable(t: Table, k: Key)
    requires Lookup(t, k).Some?
    ensures Lookup(t, k).value in t && Lookup(t, k).value.key == k
  {
  }

  /** Main result: a search finds exactly what `get_full` answers and whose key, value or tags match, within the scope asked for. */
  lemma SearchAgreesWithGet(t: Table, now: string, like: Like, query: string,
                            ns: Option<string>, space: Option<string>, kind: Option<string>, limit: nat, e: Entry)
    requires UniqueKeys(t) && limit >= |t|
    ensures e in SearchFull(t, now, like, query, ns, space, kind, limit)
       <==> && GetFull(t, e.key, now) == Some(e)
            && (query == "" || like(e.key.key, query) || like(e.value, query) || like(Lookup(t, e.key).value.tags, query))
            && ns in {None, Some(e.key.ns)} && space in {None, Some(e.key.space)} && kind in {None, Some(e.kind)}
  {
    hide Select, Live, UniqueKeys, Lookup;
    var condition := SearchCondition(like, query, ns, space, kind);
    SelectAgreesWithGet(t, now, condition, limit, e);
    assert SearchFull(t, now, like, query, ns, space, kind, limit) == Select(t, now, condition, 0, limit);
    if GetFull(t, e.key, now) == Some(e) {
      LookedUpIsInTable(t, e.key);
    }
  }

  /**
   Main result: a listing has at most as many entries as its limit, by default 100; one from the
   start that has room for the whole table lists exactly what `get_full` answers and the filter admits.
   */
  lemma ListAgreesWithGet(t: Table, now: string, like: Like, f: ListFilter, e: Entry)
    requires UniqueKeys(t)
    ensures var limit := if f.limit.Some? then f.limit.value else 100;
            && |ListFiltered(t, now, like, f)| <= limit
            && (f.offset in {None, Some(0)} && |t| <= limit ==>
                  (e in ListFiltered(t, now, like, f)
                   <==> && GetFull(t, e.key, now) == Some(e)
                        && f.space in {None, Some(e.key.space)} && f.ns in {None, Some(e.key.ns)} && f.kind in {None, Some(e.kind)}
                        && (f.tag.Some? ==> like(Lookup(t, e.key).value.tags, f.tag.value))))
  {
    hide Select, Live, UniqueKeys, Lookup;
    var condition := ListCondition(like, f);
    var limit, offset := if f.limit.Some? then f.limit.value else 100, if f.offset.Some? then f.offset.value else 0;
    var rows := SelectSpec(t, now, condition, offset, limit);
    if offset == 0 && |t| <= limit {
      SelectAgreesWithGet(t, now, condition, limit, e);
      if GetFull(t, e.key, now) == Some(e) {
        LookedUpIsInTable(t, e.key);
      }
    }
  }

  /** Main result: a listing is read in pages without loss or overlap. */
  lemma PagesJoin(t: Table, now: string, condition: Row -> bool, from: nat, a: nat, b: nat)
    ensures Select(t, now, condition, from, a + b) == Select(t, now, condition, from, a) + Select(t, now, condition, from + a, b)
  {
    hide StableSort, RowToEntry, Live;
  }

  lemma {:induction false} FilterIsShorter<T>(xs: seq<T>, p: T -> bool)
    ensures |Filter(xs, p)| <= |xs|
  {
    if xs != [] {
      FilterIsShorter(xs[1..], p);
    }
  }

  /** Rows pruned at t are already invisible at any later reading of the clock. */
  lemma {:induction false} PrunedAreInvisible(rows: Table, t: string, later: string, condition: Row -> bool)
    requires StrLe(t, later)
    ensures Filter(Filter(rows, (r: Row) => !Removes(Prune(t), r)), (r: Row) => Live(r, later) && condition(r))
         == Filter(rows, (r: Row) => Live(r, later) && condition(r))
  {
    if rows != [] {
      PrunedAreInvisible(rows[1..], t, later, condition);
      var keep := (r: Row) => !Removes(Prune(t), r);
      var f := Filter(rows[1..], keep);
      if keep(rows[0]) {
        assert ([rows[0]] + f)[1..] == f;
      } else {
        StrLeTransitive(rows[0].expiresAt.value, t, later);
        assert Filter(rows, keep) == [] + f == f;
        assert !Live(rows[0], later);
      }
    }
  }

  lemma PruneKeepsGet(rows: Table, t: string, later: string, k: Key)
    requires UniqueKeys(rows) && StrLe(t, later)
    ensures GetFull(Apply(rows, Prune(t)), k, later) == GetFull(rows, k, later)
  {
    hide Lookup, RowToEntry;
    DeletedLookup(rows, (r: Row) => !Removes(Prune(t), r), k);
    if Lookup(rows, k).Some? && Expired(Lookup(rows, k).value, t) {
      StrLeTransitive(Lookup(rows, k).value.expiresAt.value, t, later);
    }
  }

  /** Main result: pruning at t changes no read made at t or later, until the next write. */
  lemma PruneIsInvisible(rows: Table, t: string, later: string, like: Like, query: string,
                         ns: Option<string>, space: Option<string>, kind: Option<string>, limit: nat, f: ListFilter, k: Key)
    requires UniqueKeys(rows) && StrLe(t, later)
    ensures var pruned := Apply(rows, Prune(t));
            && GetFull(pruned, k, later) == GetFull(rows, k, later)
            && SearchFull(pruned, later, like, query, ns, space, kind, limit)
                 == SearchFull(rows, later, like, query, ns, space, kind, limit)
            && ListFiltered(pruned, later, like, f) == ListFiltered(rows, later, like, f)
  {
    hide StrLe, UniqueKeys, StableSort, Page, DecodeTags, Lookup;
    PruneKeepsGet(rows, t, later, k);
    PrunedAreInvisible(rows, t, later, SearchCondition(like, query, ns, space, kind));
    PrunedAreInvisible(rows, t, later, ListCondition(like, f));
  }
}
