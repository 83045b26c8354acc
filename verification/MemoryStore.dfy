/**
 MemoryStore (src-tauri/src/memory.rs): the store's operations over its table, the tag text
 encoding, and what the text comparison of expiry times amounts to.
 */
module MemoryStore {
  import opened Base
  import opened Text
  import S = Sorting
  import M = MemoryTable

  // ---- Tags through their text column ---------------------------------------------------------------------

  predicate CleanTag(tag: string) {
    tag != "" && Trim(tag) == tag && ',' !in tag
  }

  lemma {:induction false} SplitWithoutComma(s: string)
    requires ',' !in s
    ensures SplitOn(s, ',') == [s]
  {
    if s != "" {
      SplitWithoutComma(s[1..]);
      assert s == [s[0]] + s[1..];
    }
  }

  lemma {:induction false} SplitAtComma(a: string, b: string)
    requires ',' !in a
    ensures SplitOn(a + "," + b, ',') == [a] + SplitOn(b, ',')
  {
    var s := a + "," + b;
    if a == "" {
      assert s == [','] + b && s[1..] == b;
    } else {
      assert s[1..] == a[1..] + "," + b;
      SplitAtComma(a[1..], b);
      assert a == [a[0]] + a[1..];
      assert ([a[1..]] + SplitOn(b, ','))[1..] == SplitOn(b, ',');
    }
  }

  lemma {:induction false} SplitJoined(tags: seq<string>)
    requires tags != [] && forall t | t in tags :: ',' !in t
    ensures SplitOn(M.JoinTags(tags), ',') == tags
  {
    if |tags| == 1 {
      SplitWithoutComma(tags[0]);
    } else {
      SplitJoined(tags[1..]);
      SplitAtComma(tags[0], M.JoinTags(tags[1..]));
      assert tags == [tags[0]] + tags[1..];
    }
  }

  lemma {:induction false} FilterAll<T>(xs: seq<T>, p: T -> bool)
    requires forall x | x in xs :: p(x)
    ensures Filter(xs, p) == xs
  {
    if xs != [] {
      FilterAll(xs[1..], p);
    }
  }

  lemma {:induction false} PiecesLackComma(s: string)
    ensures forall p | p in SplitOn(s, ',') :: ',' !in p
  {
    if s != "" {
      PiecesLackComma(s[1..]);
    }
  }

  /** Whatever is decoded is clean. */
  lemma DecodedTagsAreClean(text: string)
    ensures forall t | t in M.DecodeTags(text) :: CleanTag(t)
  {
    hide Trim, SplitOn;
    if text != "" {
      var pieces := SplitOn(text, ',');
      PiecesLackComma(text);
      forall t | t in M.DecodeTags(text) ensures CleanTag(t) {
        var i :| 0 <= i < |pieces| && t == Trim(pieces[i]);
        TrimIsTrimmed(pieces[i]);
        TrimIsPart(pieces[i]);
      }
    }
  }

  lemma TrimIsPart(s: string)
    ensures forall c | c in Trim(s) :: c in s
  {
    var l := TrimStartWhile(s, IsWhitespace);
    assert forall c | c in l :: c in s;
    assert forall c | c in Trim(s) :: c in l;
  }

  lemma {:induction false} JoinNonempty(tags: seq<string>)
    requires tags != [] && forall t | t in tags :: t != ""
    ensures M.JoinTags(tags) != ""
  {
    assert tags[0] in tags;
  }

  lemma CleanTagsDecode(tags: seq<string>)
    requires forall t | t in tags :: CleanTag(t)
    ensures M.DecodeTags(M.JoinTags(tags)) == tags
  {
    hide Trim, SplitOn;
    if tags != [] {
      JoinNonempty(tags);
      SplitJoined(tags);
      var trimmed := seq(|tags|, i requires 0 <= i < |tags| => Trim(tags[i]));
      forall i | 0 <= i < |tags| ensures trimmed[i] == tags[i] {
        assert tags[i] in tags;
      }
      assert trimmed == tags;
      FilterAll(tags, (s: string) => s != "");
    }
  }

  /** Main result: tags survive the text column exactly when all are non-empty, trimmed and comma-free. */
  lemma TagsRoundTrip(tags: seq<string>)
    ensures M.DecodeTags(M.JoinTags(tags)) == tags <==> forall t | t in tags :: CleanTag(t)
  {
    hide M.DecodeTags, M.JoinTags, CleanTag;
    DecodedTagsAreClean(M.JoinTags(tags));
    if forall t | t in tags :: CleanTag(t) {
      CleanTagsDecode(tags);
    }
  }

  // ---- When an entry expires --------------------------------------------------------------------------------

  lemma {:induction false} StrLeByPrefix(a: string, x: string, b: string, y: string)
    requires |a| == |b|
    ensures StrLe(a + x, b + y) <==> (if a == b then StrLe(x, y) else StrLe(a, b))
  {
    if a == "" {
      assert a + x == x && b + y == y;
    } else {
      assert (a + x)[1..] == a[1..] + x && (b + y)[1..] == b[1..] + y;
      assert a == [a[0]] + a[1..] && b == [b[0]] + b[1..];
      StrLeByPrefix(a[1..], x, b[1..], y);
    }
  }

  /**
   Main result: expiry is stored as RFC 3339 text (date, `T`, time) but compared with SQLite's
   `datetime('now')` (date, space, time). An entry is therefore readable exactly until the date
   of the clock passes the date of its expiry, whatever the times of day.
   */
  lemma EntriesExpireByDate(r: M.Row, date: string, time: string, today: string, clock: string)
    requires |date| == |today| && r.expiresAt == Some(date + ("T" + time))
    ensures M.Live(r, today + (" " + clock)) <==> StrLe(today, date)
  {
    StrLeByPrefix(date, "T" + time, today, " " + clock);
    StrLeTotal(date, today);
    assert !StrLe("T" + time, " " + clock) by {
      assert ("T" + time)[0] == 'T' && (" " + clock)[0] == ' ';
    }
  }

  // ---- The store -------------------------------------------------------------------------------------------

  /** One entry of a bulk import; `fails` is whether the database refuses it. */
  datatype ImportItem = ImportItem(opts: M.SetOpts, freshId: string, now: string, expiresAt: Option<string>, fails: bool)

  /** The sets a bulk import performs, in order. */
  function Accepted(items: seq<ImportItem>): seq<M.Op> {
    if items == [] then []
    else
      var i := items[|items| - 1];
      Accepted(items[..|items| - 1]) + (if i.fails then [] else [M.Set(i.opts, i.freshId, i.now, i.expiresAt)])
  }

  /** The left fold of statements over a table. */
  function ApplyAll(t: M.Table, ops: seq<M.Op>): M.Table {
    if ops == [] then t else M.Apply(ApplyAll(t, ops[..|ops| - 1]), ops[|ops| - 1])
  }

  /** The entry a set returns: the row's id and creation time if it replaces one, the rest as given. */
  ghost function Returned(existing: Option<M.Row>, op: M.Op): M.Entry
    requires op.Set?
  {
    var o := op.opts;
    M.Entry(if existing.Some? then existing.value.id else op.freshId, o.key, o.value, o.kind, o.tags, o.metadata,
            if existing.Some? then existing.value.createdAt else op.now, op.now, op.expiresAt)
  }

  /**
   Main result: after a set a read answers until the expiry; it returns what was set, under the
   first id and creation time, with the tags exactly when they are clean.
   */
  lemma GetAfterSet(t: M.Table, op: M.Op, later: string)
    requires M.UniqueKeys(t) && op.Set?
    ensures var r := M.GetFull(M.Apply(t, op), op.opts.key, later);
            && (r.Some? <==> (op.expiresAt.Some? ==> !StrLe(op.expiresAt.value, later)))
            && (r.Some? ==> r.value.(tags := op.opts.tags) == Returned(M.Lookup(t, op.opts.key), op))
            && (r == Some(Returned(M.Lookup(t, op.opts.key), op))
                <==> r.Some? && forall tag | tag in op.opts.tags :: CleanTag(tag))
  {
    hide M.DecodeTags, M.JoinTags, CleanTag, M.UniqueKeys;
    M.StoreRow(t, M.UpsertedRow(M.Lookup(t, op.opts.key), op));
    TagsRoundTrip(op.opts.tags);
  }

  /** Rows are filed under their own keys, and the map has exactly the keys of the table. */
  lemma KeysInTable(t: M.Table, m: map<M.Key, M.Row>)
    requires M.Represents(t, m)
    ensures forall k | k in m :: m[k].key == k && m[k] in t
    ensures forall r | r in t :: r.key in m
  {
    forall k | k in m ensures m[k].key == k && m[k] in t {
      assert M.Lookup(t, k) == Some(m[k]);
    }
    forall r | r in t ensures r.key in m {
      assert M.Lookup(t, r.key).Some?;
    }
  }

  lemma MapRunOneMore(log: seq<M.Op>, op: M.Op)
    ensures M.MapRun(log + [op]) == M.MapApply(M.MapRun(log), op)
  {
    assert (log + [op])[..|log|] == log;
  }

  lemma DeletedOne(t: M.Table, m: map<M.Key, M.Row>, k: M.Key)
    requires M.Represents(t, m)
    ensures (map x | x in m && !M.Removes(M.Delete(k), m[x]) :: m[x]) == m - {k}
    ensures |Filter(t, (r: M.Row) => M.Removes(M.Delete(k), r))| > 0 <==> k in m
  {
    hide M.Represents;
    KeysInTable(t, m);
    var gone := Filter(t, (r: M.Row) => M.Removes(M.Delete(k), r));
    if k in m {
      assert m[k] in gone;
    }
    if |gone| > 0 {
      assert gone[0] in gone;
    }
  }

  lemma DeletedId(t: M.Table, m: map<M.Key, M.Row>, id: string)
    requires M.Represents(t, m)
    ensures |Filter(t, (r: M.Row) => M.Removes(M.DeleteById(id), r))| > 0 <==> exists k :: k in m && m[k].id == id
  {
    hide M.Represents;
    KeysInTable(t, m);
    var gone := Filter(t, (r: M.Row) => M.Removes(M.DeleteById(id), r));
    if k :| k in m && m[k].id == id {
      assert m[k] in gone;
    }
    if |gone| > 0 {
      assert gone[0] in gone && gone[0] in t;
      RowIsInMap(t, m, gone[0]);
    }
  }

  lemma RowIsInMap(t: M.Table, m: map<M.Key, M.Row>, r: M.Row)
    requires M.Represents(t, m) && r in t
    ensures r.key in m && m[r.key] == r
  {
    var i :| 0 <= i < |t| && t[i] == r;
    M.LookupIs(t, r.key, i);
  }

  lemma ClearedNamespace(t: M.Table, m: map<M.Key, M.Row>, ns: string, space: Option<string>)
    requires M.Represents(t, m)
    ensures (map x | x in m && !M.Removes(M.ClearNamespace(ns, space), m[x]) :: m[x])
         == map x | x in m && (x.ns != ns || (space.Some? && x.space != space.value)) :: m[x]
  {
    hide M.Represents;
    KeysInTable(t, m);
  }

  lemma ClearedSpace(t: M.Table, m: map<M.Key, M.Row>, space: string)
    requires M.Represents(t, m)
    ensures (map x | x in m && !M.Removes(M.ClearSpace(space), m[x]) :: m[x]) == map x | x in m && x.space != space :: m[x]
  {
    hide M.Represents;
    KeysInTable(t, m);
  }

  lemma ApplyNothing(t: M.Table)
    ensures ApplyAll(t, []) == t
  {
  }

  lemma RunOneMore(t: M.Table, log: seq<M.Op>, ops: seq<M.Op>, op: M.Op)
    ensures M.Run(log + [op]) == M.Apply(M.Run(log), op)
    ensures ApplyAll(t, ops + [op]) == M.Apply(ApplyAll(t, ops), op)
  {
    assert (log + [op])[..|log|] == log;
    assert (ops + [op])[..|ops|] == ops;
  }

  class MemoryStore {
    var table: M.Table
    /** Every statement executed so far. */
    ghost var log: seq<M.Op>

    ghost predicate Valid()
      reads this
    {
      table == M.Run(log)
    }

    constructor ()
      ensures Valid() && table == []
    {
      table, log := [], [];
    }

    method SetFull(opts: M.SetOpts, freshId: string, now: string, expiresAt: Option<string>) returns (e: M.Entry)
      requires Valid()
      modifies this
      ensures Valid() && log == old(log) + [M.Set(opts, freshId, now, expiresAt)]
      ensures var stored := M.Lookup(old(table), opts.key);
              && e == M.Entry(if stored.Some? then stored.value.id else freshId, opts.key, opts.value, opts.kind, opts.tags,
                              opts.metadata, if stored.Some? then stored.value.createdAt else now, now, expiresAt)
              && M.Lookup(table, opts.key)
                 == Some(M.Row(e.id, opts.key, opts.value, opts.kind, M.JoinTags(opts.tags), opts.metadata, e.createdAt, now, expiresAt))
      ensures forall k | k != opts.key :: M.Lookup(table, k) == M.Lookup(old(table), k)
    {
      hide M.DecodeTags, M.JoinTags;
      ghost var op := M.Set(opts, freshId, now, expiresAt);
      M.RunsRefineMap(log);
      M.StoreRow(table, M.UpsertedRow(M.Lookup(table, opts.key), op));
      var id, created := freshId, now;
      var found := M.Find(table, opts.key);
      if found.Some? {
        id, created := table[found.value].id, table[found.value].createdAt;
      }
      var stored := M.Row(id, opts.key, opts.value, opts.kind, M.JoinTags(opts.tags), opts.metadata, created, now, expiresAt);
      if found.Some? {
        table := table[found.value := stored];
      } else {
        table := table + [stored];
      }
      Execute(op);
      e := M.Entry(id, opts.key, opts.value, opts.kind, opts.tags, opts.metadata, created, now, expiresAt);
    }

    /** Appends the statement to the log. */
    ghost method Execute(op: M.Op)
      modifies this`log
      ensures log == old(log) + [op] && M.Run(log) == M.Apply(M.Run(old(log)), op)
    {
      assert (log + [op])[..|log|] == log;
      log := log + [op];
    }

    method GetFull(k: M.Key, now: string) returns (e: Option<M.Entry>)
      requires Valid()
      ensures e == M.GetFull(table, k, now)
      ensures e.Some? <==> k in M.MapRun(log) && M.Live(M.MapRun(log)[k], now)
    {
      M.RunsRefineMap(log);
      e := M.GetFull(table, k, now);
    }

    /** Updates the value whatever the expiry; true when a row was there. */
    method UpdateValue(k: M.Key, value: string, now: string) returns (updated: bool)
      requires Valid()
      modifies this
      ensures Valid() && log == old(log) + [M.UpdateValue(k, value, now)]
      ensures updated <==> k in M.MapRun(old(log))
      ensures updated ==> var r := M.MapRun(old(log))[k];
                M.MapRun(log) == M.MapRun(old(log))[k := M.Row(r.id, r.key, value, r.kind, r.tags, r.metadata, r.createdAt, now,
                                                               r.expiresAt)]
      ensures !updated ==> M.MapRun(log) == M.MapRun(old(log))
    {
      hide M.MapRun;
      MapRunOneMore(log, M.UpdateValue(k, value, now));
      M.RunsRefineMap(log);
      var found := M.Find(table, k);
      updated := found.Some?;
      assert M.Lookup(table, k).Some? <==> updated;
      if updated {
        var r := table[found.value];
        table := table[found.value := r.(value := value, updatedAt := now)];
      }
      Execute(M.UpdateValue(k, value, now));
    }

    /** A DELETE statement: the rows left, and how many went. */
    method DeleteWhere(op: M.Op) returns (removed: nat)
      requires Valid() && !op.Set? && !op.UpdateValue?
      modifies this
      ensures Valid() && log == old(log) + [op]
      ensures M.MapRun(log) == map k | k in M.MapRun(old(log)) && !M.Removes(op, M.MapRun(old(log))[k]) :: M.MapRun(old(log))[k]
      ensures removed == |old(table)| - |table| == |Filter(old(table), (r: M.Row) => M.Removes(op, r))|
    {
      hide M.Removes, M.Run, M.MapRun;
      var before := table;
      MapRunOneMore(log, op);
      table := Filter(table, (r: M.Row) => !M.Removes(op, r));
      FilterSplits(before, (r: M.Row) => M.Removes(op, r), (r: M.Row) => !M.Removes(op, r));
      removed := |before| - |table|;
      Execute(op);
    }

    method DeleteFull(k: M.Key) returns (deleted: bool)
      requires Valid()
      modifies this
      ensures Valid() && M.MapRun(log) == M.MapRun(old(log)) - {k}
      ensures deleted <==> k in M.MapRun(old(log))
    {
      hide M.Removes, M.MapRun;
      M.RunsRefineMap(log);
      DeletedOne(table, M.MapRun(log), k);
      var removed := DeleteWhere(M.Delete(k));
      deleted := removed > 0;
    }

    /** Removes the rows of one id; true when there was one. */
    method DeleteById(id: string) returns (deleted: bool)
      requires Valid()
      modifies this
      ensures Valid() && M.MapRun(log) == map k | k in M.MapRun(old(log)) && M.MapRun(old(log))[k].id != id :: M.MapRun(old(log))[k]
      ensures deleted <==> exists k :: k in M.MapRun(old(log)) && M.MapRun(old(log))[k].id == id
    {
      hide M.MapRun;
      M.RunsRefineMap(log);
      DeletedId(table, M.MapRun(log), id);
      var removed := DeleteWhere(M.DeleteById(id));
      deleted := removed > 0;
    }

    method PruneExpired(now: string) returns (pruned: nat)
      requires Valid()
      modifies this
      ensures Valid() && M.MapRun(log) == map k | k in M.MapRun(old(log)) && M.Live(M.MapRun(old(log))[k], now) :: M.MapRun(old(log))[k]
      ensures pruned == |old(table)| - |table|
    {
      pruned := DeleteWhere(M.Prune(now));
    }

    method ClearNamespace(ns: string, space: Option<string>) returns (cleared: nat)
      requires Valid()
      modifies this
      ensures Valid() && cleared == |old(table)| - |table|
      ensures M.MapRun(log) == map k | k in M.MapRun(old(log)) && (k.ns != ns || (space.Some? && k.space != space.value))
                                :: M.MapRun(old(log))[k]
    {
      hide M.Removes, M.MapRun;
      M.RunsRefineMap(log);
      ClearedNamespace(table, M.MapRun(log), ns, space);
      cleared := DeleteWhere(M.ClearNamespace(ns, space));
    }

    method ClearSpace(space: string) returns (cleared: nat)
      requires Valid()
      modifies this
      ensures Valid() && cleared == |old(table)| - |table|
      ensures M.MapRun(log) == map k | k in M.MapRun(old(log)) && k.space != space :: M.MapRun(old(log))[k]
    {
      hide M.Removes, M.MapRun;
      M.RunsRefineMap(log);
      ClearedSpace(table, M.MapRun(log), space);
      cleared := DeleteWhere(M.ClearSpace(space));
    }

    /** search_full: collects the conditions the arguments ask for, then runs the query. */
    method SearchFull(now: string, like: M.Like, query: string, ns: Option<string>, space: Option<string>,
                      kind: Option<string>, limit: nat) returns (results: seq<M.Entry>)
      ensures results == M.SearchFull(table, now, like, query, ns, space, kind, limit)
    {
      hide M.Live, M.MeetsAll, M.Select;
      var conditions := LiveOnly(now);
      if query != "" {
        var c := (r: M.Row) => like(r.key.key, query) || like(r.value, query) || like(r.tags, query);
        M.MeetsOneMore(conditions, c);
        conditions := conditions + [c];
      }
      if ns.Some? {
        var c := (r: M.Row) => r.key.ns == ns.value;
        M.MeetsOneMore(conditions, c);
        conditions := conditions + [c];
      }
      if space.Some? {
        var c := (r: M.Row) => r.key.space == space.value;
        M.MeetsOneMore(conditions, c);
        conditions := conditions + [c];
      }
      if kind.Some? {
        var c := (r: M.Row) => r.kind == kind.value;
        M.MeetsOneMore(conditions, c);
        conditions := conditions + [c];
      }
      results := Query(conditions, 0, limit);
      M.SelectByConditions(table, now, conditions, M.SearchCondition(like, query, ns, space, kind), 0, limit);
    }

    /** list_filtered, likewise; 100 entries from the start unless the filter says otherwise. */
    method ListFiltered(now: string, like: M.Like, f: M.ListFilter) returns (results: seq<M.Entry>)
      ensures results == M.ListFiltered(table, now, like, f)
    {
      hide M.Live, M.MeetsAll, M.Select;
      var conditions := LiveOnly(now);
      if f.space.Some? {
        var c := (r: M.Row) => r.key.space == f.space.value;
        M.MeetsOneMore(conditions, c);
        conditions := conditions + [c];
      }
      if f.ns.Some? {
        var c := (r: M.Row) => r.key.ns == f.ns.value;
        M.MeetsOneMore(conditions, c);
        conditions := conditions + [c];
      }
      if f.kind.Some? {
        var c := (r: M.Row) => r.kind == f.kind.value;
        M.MeetsOneMore(conditions, c);
        conditions := conditions + [c];
      }
      if f.tag.Some? {
        var c := (r: M.Row) => like(r.tags, f.tag.value);
        M.MeetsOneMore(conditions, c);
        conditions := conditions + [c];
      }
      var limit, offset := if f.limit.Some? then f.limit.value else 100, if f.offset.Some? then f.offset.value else 0;
      results := Query(conditions, offset, limit);
      M.SelectByConditions(table, now, conditions, M.ListCondition(like, f), offset, limit);
    }

    method LiveOnly(now: string) returns (conditions: seq<M.Row -> bool>)
      ensures forall r :: M.MeetsAll(conditions, r) <==> M.Live(r, now)
    {
      hide M.Live;
      conditions := [(r: M.Row) => M.Live(r, now)];
      assert forall r :: M.MeetsAll(conditions, r) <==> conditions[0](r);
    }

    /** Runs the statement with its conditions joined by AND and decodes the rows one by one. */
    method Query(conditions: seq<M.Row -> bool>, offset: nat, limit: nat) returns (results: seq<M.Entry>)
      ensures var rows := M.SelectRows(table, (r: M.Row) => M.MeetsAll(conditions, r), offset, limit);
              |results| == |rows| && forall i | 0 <= i < |rows| :: results[i] == M.RowToEntry(rows[i])
    {
      hide M.SelectRows, M.RowToEntry;
      var rows := M.SelectRows(table, (r: M.Row) => M.MeetsAll(conditions, r), offset, limit);
      results := [];
      for i := 0 to |rows|
        invariant |results| == i && forall j | 0 <= j < i :: results[j] == M.RowToEntry(rows[j])
      {
        results := results + [M.RowToEntry(rows[i])];
      }
    }

    /** Main result: an import is the left fold of its accepted sets, and every entry is counted once. */
    method BulkImport(items: seq<ImportItem>) returns (imported: nat, skipped: nat)
      requires Valid()
      modifies this
      ensures Valid() && log == old(log) + Accepted(items) && table == ApplyAll(old(table), Accepted(items))
      ensures imported + skipped == |items| && imported == |Accepted(items)|
      ensures var taken := Filter(items, (i: ImportItem) => !i.fails);
              && |Accepted(items)| == |taken|
              && forall n | 0 <= n < |taken| ::
                   Accepted(items)[n] == M.Set(taken[n].opts, taken[n].freshId, taken[n].now, taken[n].expiresAt)
    {
      hide M.Run, M.Apply, ApplyAll, M.GetFull, M.Lookup, M.UpsertedRow, M.RowToEntry, CleanTag;
      imported, skipped := 0, 0;
      ApplyNothing(table);
      for i := 0 to |items|
        invariant Valid() && log == old(log) + Accepted(items[..i]) && table == ApplyAll(old(table), Accepted(items[..i]))
        invariant imported + skipped == i && imported == |Accepted(items[..i])|
      {
        var item := items[i];
        assert items[..i + 1][..i] == items[..i];
        if item.fails {
          assert Accepted(items[..i + 1]) == Accepted(items[..i]);
          skipped := skipped + 1;
        } else {
          ghost var done := Accepted(items[..i]);
          ghost var op := M.Set(item.opts, item.freshId, item.now, item.expiresAt);
          ghost var before := log;
          RunOneMore(old(table), before, done, op);
          assert Accepted(items[..i + 1]) == done + [op];
          assert old(log) + (done + [op]) == (old(log) + done) + [op];
          var _ := SetFull(item.opts, item.freshId, item.now, item.expiresAt);
          assert table == M.Run(before + [op]) == M.Apply(M.Run(before), op);
          imported := imported + 1;
        }
      }
      assert items[..|items|] == items;
      AcceptedAreThoseTaken(items);
    }
  }

  lemma {:induction false} AcceptedAreThoseTaken(items: seq<ImportItem>)
    ensures var taken := Filter(items, (i: ImportItem) => !i.fails);
            && |Accepted(items)| == |taken|
            && forall n | 0 <= n < |taken| ::
                 Accepted(items)[n] == M.Set(taken[n].opts, taken[n].freshId, taken[n].now, taken[n].expiresAt)
  {
    if items != [] {
      var init, last := items[..|items| - 1], items[|items| - 1];
      AcceptedAreThoseTaken(init);
      assert items == init + [last];
      FilterConcat(init, [last], (i: ImportItem) => !i.fails);
    }
  }

  lemma {:induction false} FilterSplits<T>(xs: seq<T>, p: T -> bool, q: T -> bool)
    requires forall x | x in xs :: p(x) != q(x)
    ensures |Filter(xs, p)| + |Filter(xs, q)| == |xs|
  {
    if xs != [] {
      FilterSplits(xs[1..], p, q);
    }
  }
}
