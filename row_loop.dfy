/**
 * The bookkeeping the three CSV imports share: a `foreach` over the data rows
 * that files each row in `$existing...` or in `$rowsWithErrors`, or saves an
 * entity, or skips it, and goes on to the next row whatever the row did.
 */
module RowLoop {
  import opened PhpArray

  /** What the body of the row loop did with one row. */
  datatype Outcome<T> =
    | Skipped               // `continue`: counted nowhere
    | Existing              // `$existing[$key] = $data`
    | Created(item: T)      // a new entity saved
    | Failed(key: Key)      // `$rowsWithErrors[$key] = $data`
    | ExistingThenFailed    // counted as existing, then an exception filed it as an error too
    | CreatedThenFailed(item: T)  // saved, then a later call threw and filed it as an error too

  /** The two bookkeeping arrays and the entities saved, in the order saved. */
  datatype Buckets<T> = Buckets(
    existing: map<Key, Assoc<string>>,
    errors: map<Key, Assoc<string>>,
    created: seq<T>)

  /** Filing the i-th row, whose combined columns are `data`. */
  function Record<T>(b: Buckets<T>, i: nat, data: Assoc<string>, o: Outcome<T>): Buckets<T> {
    match o
    case Skipped => b
    case Existing => b.(existing := b.existing[Index(i) := data])
    case Created(item) => b.(created := b.created + [item])
    case Failed(k) => b.(errors := b.errors[k := data])
    case ExistingThenFailed => b.(existing := b.existing[Index(i) := data], errors := b.errors[Index(i) := data])
    case CreatedThenFailed(item) => b.(created := b.created + [item], errors := b.errors[Index(i) := data])
  }

  /** The bookkeeping at the end of one pass of the loop body. */
  method FileRow<T>(existing: map<Key, Assoc<string>>, errors: map<Key, Assoc<string>>, created: seq<T>,
                    i: nat, data: Assoc<string>, o: Outcome<T>)
    returns (existing': map<Key, Assoc<string>>, errors': map<Key, Assoc<string>>, created': seq<T>)
    ensures Buckets(existing', errors', created') == Record(Buckets(existing, errors, created), i, data, o)
  {
    existing', errors', created' := existing, errors, created;
    match o
    case Skipped =>
    case Existing => existing' := existing[Index(i) := data];
    case Created(item) => created' := created + [item];
    case Failed(key) => errors' := errors[key := data];
    case ExistingThenFailed =>
      existing' := existing[Index(i) := data];
      errors' := errors[Index(i) := data];
    case CreatedThenFailed(item) =>
      created' := created + [item];
      errors' := errors[Index(i) := data];
  }

  /** Every data row has as many fields as the header (`array_combine` needs it). */
  predicate RowsFit(headers: seq<string>, rows: seq<seq<string>>) {
    forall i :: 0 <= i < |rows| ==> |rows[i]| == |headers|
  }

  /** The buckets after the first n rows, for a loop body that sees the entities
      the run has saved so far. */
  function Run<T>(body: (seq<T>, nat, Assoc<string>) -> Outcome<T>, headers: seq<string>, rows: seq<seq<string>>, n: nat)
    : Buckets<T>
    requires RowsFit(headers, rows) && n <= |rows|
    decreases n
  {
    if n == 0 then Buckets(map[], map[], [])
    else
      var b := Run(body, headers, rows, n - 1);
      var data := Combine(headers, rows[n - 1]);
      Record(b, n - 1, data, body(b.created, n - 1, data))
  }

  /** The outcome of row i within the run. */
  function OutcomeAt<T>(body: (seq<T>, nat, Assoc<string>) -> Outcome<T>, headers: seq<string>, rows: seq<seq<string>>, i: nat)
    : Outcome<T>
    requires RowsFit(headers, rows) && i < |rows|
  {
    body(Run(body, headers, rows, i).created, i, Combine(headers, rows[i]))
  }

  /** One more row: the buckets filed with its outcome. */
  lemma RunStep<T>(body: (seq<T>, nat, Assoc<string>) -> Outcome<T>, headers: seq<string>, rows: seq<seq<string>>, i: nat)
    requires RowsFit(headers, rows) && i < |rows|
    ensures Run(body, headers, rows, i + 1) ==
      Record(Run(body, headers, rows, i), i, Combine(headers, rows[i]), OutcomeAt(body, headers, rows, i))
  {
  }

  /** A row is in the existing bucket, under its index and with its combined
      columns, exactly when the body counted it as existing. */
  lemma {:induction false} ExistingBucket<T>(body: (seq<T>, nat, Assoc<string>) -> Outcome<T>, headers: seq<string>,
                                             rows: seq<seq<string>>, n: nat, i: nat)
    requires RowsFit(headers, rows) && n <= |rows|
    ensures Index(i) in Run(body, headers, rows, n).existing <==>
      i < n && (OutcomeAt(body, headers, rows, i).Existing? || OutcomeAt(body, headers, rows, i).ExistingThenFailed?)
    ensures Index(i) in Run(body, headers, rows, n).existing ==>
      Run(body, headers, rows, n).existing[Index(i)] == Combine(headers, rows[i])
    decreases n
  {
    if n > 0 {
      ExistingBucket(body, headers, rows, n - 1, i);
    }
  }

  /** The existing bucket has no key besides row indexes. */
  lemma {:induction false} ExistingKeys<T>(body: (seq<T>, nat, Assoc<string>) -> Outcome<T>, headers: seq<string>,
                                           rows: seq<seq<string>>, n: nat, k: Key)
    requires RowsFit(headers, rows) && n <= |rows|
    requires k in Run(body, headers, rows, n).existing
    ensures k.Index? && k.i < n
    decreases n
  {
    if k != Index(n - 1) {
      ExistingKeys(body, headers, rows, n - 1, k);
    }
  }

  /** A key is in the error bucket exactly when some row was filed there under it. */
  lemma {:induction false} ErrorBucket<T>(body: (seq<T>, nat, Assoc<string>) -> Outcome<T>, headers: seq<string>,
                                          rows: seq<seq<string>>, n: nat, k: Key)
    requires RowsFit(headers, rows) && n <= |rows|
    ensures k in Run(body, headers, rows, n).errors <==>
      exists i :: 0 <= i < n && FiledAsError(OutcomeAt(body, headers, rows, i), i, k)
    decreases n
  {
    if n > 0 {
      ErrorBucket(body, headers, rows, n - 1, k);
      if FiledAsError(OutcomeAt(body, headers, rows, n - 1), n - 1, k) {
        assert k in Run(body, headers, rows, n).errors;
      }
    }
  }

  /** The outcome of row i files it in the error bucket under k. */
  predicate FiledAsError<T>(o: Outcome<T>, i: nat, k: Key) {
    (o.Failed? && o.key == k) || ((o.ExistingThenFailed? || o.CreatedThenFailed?) && k == Index(i))
  }

  /** The outcome of a row saved this entity. */
  ghost predicate Saves<T>(o: Outcome<T>, item: T) {
    o == Created(item) || o == CreatedThenFailed(item)
  }

  /** The body files a failing row under its own index or under a name, never
      under the index of another row. */
  predicate FailsUnderOwnIndex<T>(body: (seq<T>, nat, Assoc<string>) -> Outcome<T>, headers: seq<string>, rows: seq<seq<string>>)
    requires RowsFit(headers, rows)
  {
    forall j :: 0 <= j < |rows| && OutcomeAt(body, headers, rows, j).Failed? ==>
      OutcomeAt(body, headers, rows, j).key == Index(j) || OutcomeAt(body, headers, rows, j).key.Name?
  }

  /** For such a body, a row is in the error bucket under its index exactly when
      its own outcome filed it there. */
  lemma ErrorRow<T>(body: (seq<T>, nat, Assoc<string>) -> Outcome<T>, headers: seq<string>, rows: seq<seq<string>>, i: nat)
    requires RowsFit(headers, rows) && i < |rows| && FailsUnderOwnIndex(body, headers, rows)
    ensures Index(i) in Run(body, headers, rows, |rows|).errors <==>
      FiledAsError(OutcomeAt(body, headers, rows, i), i, Index(i))
  {
    ErrorBucket(body, headers, rows, |rows|, Index(i));
  }

  /** For such a body, a skipped row is counted in neither bucket. */
  lemma SkippedUncounted<T>(body: (seq<T>, nat, Assoc<string>) -> Outcome<T>, headers: seq<string>,
                            rows: seq<seq<string>>, i: nat)
    requires RowsFit(headers, rows) && i < |rows| && FailsUnderOwnIndex(body, headers, rows)
    requires OutcomeAt(body, headers, rows, i).Skipped?
    ensures Index(i) !in Run(body, headers, rows, |rows|).existing
    ensures Index(i) !in Run(body, headers, rows, |rows|).errors
  {
    ExistingBucket(body, headers, rows, |rows|, i);
    ErrorRow(body, headers, rows, i);
  }

  /** The entities saved by the first m rows are the first ones saved by the first n. */
  lemma {:induction false} CreatedGrows<T>(body: (seq<T>, nat, Assoc<string>) -> Outcome<T>, headers: seq<string>,
                                           rows: seq<seq<string>>, m: nat, n: nat)
    requires RowsFit(headers, rows) && m <= n <= |rows|
    ensures Run(body, headers, rows, m).created <= Run(body, headers, rows, n).created
    decreases n
  {
    if m < n {
      CreatedGrows(body, headers, rows, m, n - 1);
    }
  }

  /** The run saves exactly the entities of the rows whose outcome is Created. */
  lemma {:induction false} CreatedList<T>(body: (seq<T>, nat, Assoc<string>) -> Outcome<T>, headers: seq<string>,
                                          rows: seq<seq<string>>, n: nat, item: T)
    requires RowsFit(headers, rows) && n <= |rows|
    ensures item in Run(body, headers, rows, n).created <==>
      exists i :: 0 <= i < n && Saves(OutcomeAt(body, headers, rows, i), item)
    decreases n
  {
    if n > 0 {
      CreatedList(body, headers, rows, n - 1, item);
      if Saves(OutcomeAt(body, headers, rows, n - 1), item) {
        assert item in Run(body, headers, rows, n).created;
      }
    }
  }

  /** f of the combined columns of each of the first n rows counted as existing
      (and not also filed as an error), in row order. */
  function ExistingMap<T, P>(body: (seq<T>, nat, Assoc<string>) -> Outcome<T>, headers: seq<string>,
                             rows: seq<seq<string>>, n: nat, f: Assoc<string> -> P): seq<P>
    requires RowsFit(headers, rows) && n <= |rows|
    decreases n
  {
    if n == 0 then []
    else
      var more := if OutcomeAt(body, headers, rows, n - 1).Existing? then [f(Combine(headers, rows[n - 1]))] else [];
      ExistingMap(body, headers, rows, n - 1, f) + more
  }

  lemma ExistingMapStep<T, P>(body: (seq<T>, nat, Assoc<string>) -> Outcome<T>, headers: seq<string>,
                              rows: seq<seq<string>>, i: nat, f: Assoc<string> -> P)
    requires RowsFit(headers, rows) && i < |rows|
    ensures ExistingMap(body, headers, rows, i + 1, f) == ExistingMap(body, headers, rows, i, f) +
      if OutcomeAt(body, headers, rows, i).Existing? then [f(Combine(headers, rows[i]))] else []
  {
  }

  /** The list holds f of exactly the rows counted as existing. */
  lemma {:induction false} ExistingMapIn<T, P>(body: (seq<T>, nat, Assoc<string>) -> Outcome<T>, headers: seq<string>,
                                               rows: seq<seq<string>>, n: nat, f: Assoc<string> -> P, p: P)
    requires RowsFit(headers, rows) && n <= |rows|
    ensures p in ExistingMap(body, headers, rows, n, f) <==>
      exists i :: 0 <= i < n && OutcomeAt(body, headers, rows, i).Existing? && p == f(Combine(headers, rows[i]))
    decreases n
  {
    if n > 0 {
      ExistingMapIn(body, headers, rows, n - 1, f, p);
      ExistingMapStep(body, headers, rows, n - 1, f);
      var prev := ExistingMap(body, headers, rows, n - 1, f);
      var last := OutcomeAt(body, headers, rows, n - 1).Existing? && p == f(Combine(headers, rows[n - 1]));
      assert p in ExistingMap(body, headers, rows, n, f) <==> p in prev || last;
      if p in prev {
        var i :| 0 <= i < n - 1 && OutcomeAt(body, headers, rows, i).Existing? && p == f(Combine(headers, rows[i]));
        assert 0 <= i < n;
      } else if !last {
        forall i | 0 <= i < n
          ensures !(OutcomeAt(body, headers, rows, i).Existing? && p == f(Combine(headers, rows[i])))
        {
          if i < n - 1 {
            assert !(0 <= i < n - 1 && OutcomeAt(body, headers, rows, i).Existing? && p == f(Combine(headers, rows[i])));
          } else {
            assert i == n - 1 && !last;
          }
        }
      }
    }
  }

  /** The entity saved by row i is in the store every later row sees. */
  lemma SavedBefore<T>(body: (seq<T>, nat, Assoc<string>) -> Outcome<T>, headers: seq<string>,
                       rows: seq<seq<string>>, i: nat, j: nat)
    requires RowsFit(headers, rows) && i < j <= |rows|
    requires OutcomeAt(body, headers, rows, i).Created? || OutcomeAt(body, headers, rows, i).CreatedThenFailed?
    ensures OutcomeAt(body, headers, rows, i).item in Run(body, headers, rows, j).created
  {
    var item := OutcomeAt(body, headers, rows, i).item;
    assert Run(body, headers, rows, i + 1).created == Run(body, headers, rows, i).created + [item];
    CreatedGrows(body, headers, rows, i + 1, j);
    assert Run(body, headers, rows, j).created[|Run(body, headers, rows, i).created|] == item;
  }
}
