/**
 * PHP's ordered arrays with string keys, as the commands use them for CSV rows
 * (`array_combine($headers, $row)`) and for the attribute maps they build with
 * `$arr[$key] = $value`: an assignment to an existing key keeps its position,
 * an assignment to a new key appends it.
 */
module PhpArray {
  import opened Wrappers

  /** A value held in such an array: null, a string, an integer or a boolean. */
  datatype Value = Null | Str(s: string) | Num(n: int) | Bool(b: bool)

  /** A key of the bookkeeping arrays `$existing...` and `$rowsWithErrors`:
      a row index, or (see the address import) a field name. */
  datatype Key = Index(i: nat) | Name(name: string)

  /** An ordered array: (key, value) pairs in insertion order. */
  type Assoc<V> = seq<(string, V)>

  function Keys<V>(a: Assoc<V>): (ks: seq<string>)
    ensures |ks| == |a|
    ensures forall i :: 0 <= i < |a| ==> ks[i] == a[i].0
  {
    seq(|a|, i requires 0 <= i < |a| => a[i].0)
  }

  predicate UniqueKeys<V>(a: Assoc<V>) {
    forall i, j :: 0 <= i < j < |a| ==> a[i].0 != a[j].0
  }

  /** The position of the key k, if any. */
  function IndexOf<V>(a: Assoc<V>, k: string): (r: Option<nat>)
    ensures r.Some? ==> r.value < |a| && a[r.value].0 == k
    ensures r.Some? ==> forall j :: 0 <= j < r.value ==> a[j].0 != k
    ensures r.None? ==> forall j :: 0 <= j < |a| ==> a[j].0 != k
    decreases |a|
  {
    if a == [] then None
    else if a[0].0 == k then Some(0)
    else
      match IndexOf(a[1..], k)
      case None => None
      case Some(i) => Some(i + 1)
  }

  /** Two arrays whose keys agree on k at every position find k at the same place. */
  lemma IndexOfSame<V>(a: Assoc<V>, b: Assoc<V>, k: string)
    requires |a| == |b|
    requires forall j :: 0 <= j < |a| ==> (a[j].0 == k <==> b[j].0 == k)
    ensures IndexOf(a, k) == IndexOf(b, k)
  {
    var x, y := IndexOf(a, k), IndexOf(b, k);
    if x.Some? && y.Some? {
      assert !(x.value < y.value) && !(y.value < x.value);
    }
  }

  /** `$a[$k]`, or None when the key is absent. */
  function Get<V>(a: Assoc<V>, k: string): (r: Option<V>)
    ensures r.None? <==> k !in Keys(a)
  {
    var i := IndexOf(a, k);
    if i.None? then
      assert forall j :: 0 <= j < |a| ==> Keys(a)[j] != k;
      None
    else
      assert Keys(a)[i.value] == k;
      Some(a[i.value].1)
  }

  lemma GetAt<V>(a: Assoc<V>, i: nat)
    requires UniqueKeys(a) && i < |a|
    ensures Get(a, a[i].0) == Some(a[i].1)
  {
    assert IndexOf(a, a[i].0) == Some(i);
  }

  /** `$a[$k] = $v`. */
  function Put<V>(a: Assoc<V>, k: string, v: V): (r: Assoc<V>) {
    var i := IndexOf(a, k);
    if i.Some? then a[i.value := (k, v)] else a + [(k, v)]
  }

  /** An assignment to a new key appends the pair. */
  lemma PutNew<V>(a: Assoc<V>, k: string, v: V)
    requires k !in Keys(a)
    ensures Put(a, k, v) == a + [(k, v)]
  {
    forall j | 0 <= j < |a| ensures a[j].0 != k {
      assert Keys(a)[j] == a[j].0;
    }
    assert IndexOf(a, k).None?;
  }

  /** An assignment to a present key keeps the keys and their order; one to a new key
      appends it. */
  lemma PutKeys<V>(a: Assoc<V>, k: string, v: V)
    ensures Keys(Put(a, k, v)) == if k in Keys(a) then Keys(a) else Keys(a) + [k]
  {
    var r := Put(a, k, v);
    if IndexOf(a, k).Some? {
      assert Keys(r) == Keys(a);
      assert Keys(a)[IndexOf(a, k).value] == k;
    } else {
      assert Keys(r) == Keys(a) + [k];
      assert k !in Keys(a) by {
        assert forall j :: 0 <= j < |a| ==> Keys(a)[j] != k;
      }
    }
  }

  /** After `$a[$k] = $v` the key holds `$v` and every other key what it held before. */
  lemma GetPut<V>(a: Assoc<V>, k: string, v: V, k': string)
    ensures Get(Put(a, k, v), k') == if k' == k then Some(v) else Get(a, k')
  {
    var r := Put(a, k, v);
    var i := IndexOf(a, k);
    if k' == k {
      if i.Some? {
        IndexOfSame(a, r, k);
      } else {
        assert IndexOf(r, k) == Some(|a|) by {
          var x := IndexOf(r, k);
          assert r[|a|].0 == k;
        }
      }
    } else if i.Some? {
      IndexOfSame(a, r, k');
    } else {
      IndexOfAppend(a, (k, v), k');
    }
  }

  lemma IndexOfAppend<V>(a: Assoc<V>, p: (string, V), k: string)
    requires p.0 != k
    ensures IndexOf(a + [p], k) == IndexOf(a, k)
  {
    var y := IndexOf(a, k);
    if y.Some? {
      forall j | 0 <= j <= y.value ensures (a + [p])[j] == a[j] {}
    } else {
      forall j | 0 <= j < |a + [p]| ensures (a + [p])[j].0 != k {
        if j < |a| {
          assert (a + [p])[j] == a[j];
        }
      }
    }
  }

  /** Appending a pair changes only the lookup of a key that was absent. */
  lemma GetAppend<V>(a: Assoc<V>, p: (string, V), k: string)
    ensures Get(a + [p], k) == if k in Keys(a) then Get(a, k) else if p.0 == k then Some(p.1) else None
  {
    var y := IndexOf(a, k);
    if y.Some? {
      forall j | 0 <= j <= y.value ensures (a + [p])[j] == a[j] {}
      assert IndexOf(a + [p], k) == y;
    } else if p.0 == k {
      forall j | 0 <= j < |a| ensures (a + [p])[j].0 != k {
        assert (a + [p])[j] == a[j];
      }
      assert (a + [p])[|a|].0 == k;
      assert IndexOf(a + [p], k) == Some(|a|);
    } else {
      IndexOfAppend(a, p, k);
    }
  }

  lemma PutUnique<V>(a: Assoc<V>, k: string, v: V)
    requires UniqueKeys(a)
    ensures UniqueKeys(Put(a, k, v))
  {
    var r := Put(a, k, v);
    PutKeys(a, k, v);
    var ks := Keys(r);
    forall i, j | 0 <= i < j < |r| ensures r[i].0 != r[j].0 {
      assert ks[i] == r[i].0 && ks[j] == r[j].0;
      if k in Keys(a) {
        assert Keys(a)[i] == a[i].0 && Keys(a)[j] == a[j].0;
      } else if j < |a| {
        assert Keys(a)[i] == a[i].0 && Keys(a)[j] == a[j].0;
      } else {
        assert Keys(a)[i] == a[i].0;
      }
    }
  }

  /** In an array whose values are all v, a present key holds v. */
  lemma GetUniform<V>(a: Assoc<V>, v: V, k: string)
    requires forall i :: 0 <= i < |a| ==> a[i].1 == v
    ensures Get(a, k).Some? ==> Get(a, k) == Some(v)
  {
  }

  /** The value at a key with null for an absent key (`$a[$k] ?? null`). */
  function Field(a: Assoc<Value>, k: string): Value {
    Get(a, k).GetOr(Null)
  }

  /** PHP's `isset($a[$k])`: the key is present and its value is not null. */
  predicate IsSet(a: Assoc<Value>, k: string) {
    Field(a, k) != Null
  }

  function CombinePrefix(headers: seq<string>, row: seq<string>, n: nat): (a: Assoc<string>)
    requires |headers| == |row| && n <= |headers|
    ensures UniqueKeys(a)
    ensures forall k :: k in Keys(a) <==> k in headers[..n]
    decreases n
  {
    if n == 0 then []
    else
      var prev := CombinePrefix(headers, row, n - 1);
      assert headers[..n] == headers[..n - 1] + [headers[n - 1]];
      PutUnique(prev, headers[n - 1], row[n - 1]);
      PutKeys(prev, headers[n - 1], row[n - 1]);
      Put(prev, headers[n - 1], row[n - 1])
  }

  /** `array_combine($headers, $row)` for a row as long as the header: a column
      whose name repeats an earlier one overwrites that entry's value. */
  function Combine(headers: seq<string>, row: seq<string>): Assoc<string>
    requires |headers| == |row|
  {
    CombinePrefix(headers, row, |headers|)
  }

  lemma {:induction false} CombinePrefixGet(headers: seq<string>, row: seq<string>, n: nat, i: nat)
    requires |headers| == |row| && i < n <= |headers|
    requires forall j :: i < j < n ==> headers[j] != headers[i]
    ensures Get(CombinePrefix(headers, row, n), headers[i]) == Some(row[i])
    decreases n
  {
    GetPut(CombinePrefix(headers, row, n - 1), headers[n - 1], row[n - 1], headers[i]);
    if i < n - 1 {
      CombinePrefixGet(headers, row, n - 1, i);
    }
  }

  /** Every column name of the header becomes a key of the combined row, holding the
      value of the LAST column with that name; the row has no other keys. */
  lemma CombineGet(headers: seq<string>, row: seq<string>, i: nat)
    requires |headers| == |row| && i < |headers|
    requires forall j :: i < j < |headers| ==> headers[j] != headers[i]
    ensures Get(Combine(headers, row), headers[i]) == Some(row[i])
    ensures forall k :: k in Keys(Combine(headers, row)) <==> k in headers
  {
    CombinePrefixGet(headers, row, |headers|, i);
    assert headers[..|headers|] == headers;
  }
}
