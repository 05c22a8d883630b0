/** Where checkpoints are kept between refreshes
    (internal/service/actual_model_incremental.go:148-201): at most 16 of them and at
    most 100000 rows in all; the ones not refreshed for longest make room. */
module ActualModelStore {
  import opened Totals

  const MAX_ROWS := 50_000
  const MAX_TOTAL_ROWS := 100_000
  const MAX_SCOPES := 16
  const RECONCILE := 3_600_000

  /** What the store looks at in a checkpoint; `rows` is -1 for one without rows. */
  datatype Checkpoint = Checkpoint(fromMS: int, toMS: int, fullAt: int, updatedAt: int, rows: int, calls: int)

  function Rows(c: Checkpoint): int {
    c.rows
  }

  function UpdatedAt(c: Checkpoint): int {
    c.updatedAt
  }

  ghost function TotalRows(m: map<string, Checkpoint>): int {
    Total(m, Rows)
  }

  lemma RowsSplit(m: map<string, Checkpoint>, k: string)
    requires k in m
    ensures TotalRows(m) == m[k].rows + TotalRows(m - {k})
  {
    TotalSplit(m, Rows, k);
  }

  predicate Fits(scopes: int, rows: int) {
    scopes < MAX_SCOPES && rows <= MAX_TOTAL_ROWS
  }

  /** The limits, and no checkpoint whose rows are not all its calls. */
  ghost predicate Within(m: map<string, Checkpoint>) {
    && |m| <= MAX_SCOPES && TotalRows(m) <= MAX_TOTAL_ROWS
    && forall k | k in m :: 0 <= m[k].rows <= MAX_ROWS && m[k].rows == m[k].calls
  }

  class Store {
    var models: map<string, Checkpoint>

    ghost predicate Valid()
      reads this
    {
      Within(models)
    }

    constructor ()
      ensures Valid() && models == map[]
    {
      models := map[];
    }

    /** The checkpoint a refresh may start from: of this scope, not due for a full read,
        and with the new range starting inside of it and ending no earlier. */
    method Current(key: string, fromMS: int, toMS: int, now: int) returns (r: bool)
      ensures r <==> key != "" && key in models && var c := models[key];
                     c.fullAt <= now < c.fullAt + RECONCILE && c.fromMS <= fromMS < c.toMS <= toMS
    {
      if key == "" || key !in models {
        return false;
      }
      var snapshot := models[key];
      if now < snapshot.fullAt || now - snapshot.fullAt >= RECONCILE || fromMS < snapshot.fromMS || toMS < snapshot.toMS
         || fromMS >= snapshot.toMS
      {
        return false;
      }
      return true;
    }

    /** Adds up the rows and finds the checkpoint that was not refreshed for longest. */
    method Oldest() returns (total: int, oldest: string)
      ensures total == TotalRows(models)
      ensures models != map[] ==>
                oldest in models && forall k | k in models :: models[oldest].updatedAt <= models[k].updatedAt
    {
      total, oldest := 0, "";
      var left := models;
      var found := false;
      while left != map[]
        invariant left.Keys <= models.Keys && forall k | k in left :: left[k] == models[k]
        invariant total + TotalRows(left) == TotalRows(models)
        invariant found <==> left != models
        invariant found ==>
                    oldest in models
                    && forall k | k in models && k !in left :: models[oldest].updatedAt <= models[k].updatedAt
        decreases |left|
      {
        var k :| k in left;
        RowsSplit(left, k);
        total := total + left[k].rows;
        if !found || left[k].updatedAt < models[oldest].updatedAt {
          oldest := k;
        }
        left, found := left - {k}, true;
      }
    }

    /** Drops checkpoints, longest not refreshed first, until one more with these rows
        fits. */
    method MakeRoom(rows: int)
      requires 0 <= rows <= MAX_TOTAL_ROWS
      modifies this
      ensures Fits(|models|, rows + TotalRows(models)) && Kept(old(models), models, UpdatedAt)
      ensures Needed(old(models), models, Rows, Fits, rows)
    {
      ghost var before := models;
      TotalOfNothing(Rows);
      KeptAll(before, UpdatedAt, Rows, Fits, rows);
      while true
        invariant Kept(before, models, UpdatedAt) && Needed(before, models, Rows, Fits, rows)
        decreases |models|
      {
        hide Kept, Needed;
        var total, oldest := Oldest();
        total := total + rows;
        if |models| < MAX_SCOPES && total <= MAX_TOTAL_ROWS {
          break;
        }
        KeptLess(before, models, oldest, UpdatedAt, Rows, Fits, rows);
        models := models - {oldest};
      }
    }

    /** Keeps a checkpoint, unless it cannot be used.  The limits hold again, only what
        was not refreshed for longer went, and no more than had to. */
    method Put(key: string, c: Checkpoint)
      requires Valid() && -1 <= c.rows
      modifies this
      ensures Valid()
      ensures !Usable(key, c) ==> models == old(models)
      ensures Usable(key, c) ==>
                && key in models && models[key] == c && Kept(old(models) - {key}, models - {key}, UpdatedAt)
                && Needed(old(models) - {key}, models - {key}, Rows, Fits, c.rows)
    {
      if key == "" || c.rows < 0 || c.rows > MAX_ROWS || c.rows != c.calls {
        return;
      }
      hide TotalRows, Kept, Needed, Within;
      ghost var before := models;
      models := models - {key};
      MakeRoom(c.rows);
      PutKeepsLimits(before, models, key, c);
      models := models[key := c];
    }
  }

  predicate Usable(key: string, c: Checkpoint) {
    key != "" && 0 <= c.rows <= MAX_ROWS && c.rows == c.calls
  }

  lemma PutKeepsLimits(before: map<string, Checkpoint>, kept: map<string, Checkpoint>, key: string, c: Checkpoint)
    requires Within(before) && Kept(before - {key}, kept, UpdatedAt) && Usable(key, c)
             && Fits(|kept|, c.rows + TotalRows(kept))
    ensures Within(kept[key := c]) && kept[key := c] - {key} == kept
  {
    hide TotalRows;
    assert forall k | k in kept :: k in before - {key} && kept[k] == (before - {key})[k];
    hide Kept;
    var m := kept[key := c];
    assert m - {key} == kept;
    RowsSplit(m, key);
    Smaller(m, key);
  }
}
