/** PHP values as the generator builds them.

    A PHP array is an ordered map: keys keep the order of their first
    insertion, and assigning to an existing key replaces its value in place.
    Lists are arrays whose keys are 0, 1, 2, ... in order. */
module Values {

  datatype Option<+T> = None | Some(value: T)

  /** A PHP array key: a string or an integer. */
  datatype Key = KStr(s: string) | KInt(i: int)

  datatype Entry<+V> = Entry(key: Key, value: V)

  /** A PHP value as far as schemas and configuration use them. */
  datatype Value =
    | Null
    | Bool(b: bool)
    | Int(i: int)
    | Str(s: string)
    | Arr(entries: seq<Entry<Value>>)

  /** A schema fragment is the entry list of a PHP array. */
  type Schema = seq<Entry<Value>>

  /** A prefix one longer is the prefix and the next element. */
  lemma TakeSnoc<T>(s: seq<T>, i: nat)
    requires i < |s|
    ensures s[..i + 1] == s[..i] + [s[i]] && s[..i + 1][..i] == s[..i]
  {
  }

  /** The keys of an ordered map, in order. */
  function Keys<V>(m: seq<Entry<V>>): (ks: seq<Key>)
    ensures |ks| == |m|
  {
    if m == [] then [] else [m[0].key] + Keys(m[1..])
  }

  /** The i-th key is the key of the i-th entry. */
  lemma {:induction false} KeysAt<V>(m: seq<Entry<V>>, i: nat)
    requires i < |m|
    ensures Keys(m)[i] == m[i].key
  {
    if i > 0 { KeysAt(m[1..], i - 1); }
  }

  /** No key occurs twice: every PHP array has this shape. */
  predicate UniqueKeys<V>(m: seq<Entry<V>>) {
    forall i, j :: 0 <= i < j < |m| ==> m[i].key != m[j].key
  }

  /** The keys of a map are those of all but its last entry, then the last key. */
  lemma {:induction false} KeysSnoc<V>(m: seq<Entry<V>>)
    requires m != []
    ensures Keys(m) == Keys(m[..|m| - 1]) + [m[|m| - 1].key]
  {
    if |m| > 1 {
      assert m[1..][..|m[1..]| - 1] == m[..|m| - 1][1..];
      KeysSnoc(m[1..]);
    }
  }

  /** `$m[$k] ?? null`, as an option. */
  function Get<V>(m: seq<Entry<V>>, k: Key): (r: Option<V>)
    ensures r.Some? <==> k in Keys(m)
  {
    if m == [] then None
    else if m[0].key == k then Some(m[0].value)
    else Get(m[1..], k)
  }

  /** `$m[$k] = $v`: an existing key keeps its position, a new key goes last. */
  function Put<V>(m: seq<Entry<V>>, k: Key, v: V): (r: seq<Entry<V>>)
    ensures Keys(r) == if k in Keys(m) then Keys(m) else Keys(m) + [k]
    ensures Get(r, k) == Some(v)
    ensures forall k' :: k' != k ==> Get(r, k') == Get(m, k')
  {
    if m == [] then [Entry(k, v)]
    else if m[0].key == k then [Entry(k, v)] + m[1..]
    else
      var rest := Put(m[1..], k, v);
      assert ([m[0]] + rest)[1..] == rest;
      [m[0]] + rest
  }

  /** Assignment keeps a PHP array's keys distinct. */
  lemma PutUnique<V>(m: seq<Entry<V>>, k: Key, v: V)
    requires UniqueKeys(m)
    ensures UniqueKeys(Put(m, k, v))
  {
    var r := Put(m, k, v);
    forall i, j | 0 <= i < j < |r| ensures r[i].key != r[j].key {
      KeysAt(r, i);
      KeysAt(r, j);
      if j < |m| {
        KeysAt(m, i);
        KeysAt(m, j);
      } else {
        assert k !in Keys(m) && Keys(r)[j] == k;
        KeysAt(m, i);
      }
    }
  }

  /** The keys of a concatenation. */
  lemma {:induction false} KeysAppend<V>(a: seq<Entry<V>>, b: seq<Entry<V>>)
    ensures Keys(a + b) == Keys(a) + Keys(b)
    decreases |a|
  {
    if a == [] {
      assert a + b == b;
    } else {
      assert (a + b)[0] == a[0] && (a + b)[1..] == a[1..] + b;
      KeysAppend(a[1..], b);
    }
  }

  /** Lookup in a concatenation finds the first part's entry first. */
  lemma {:induction false} GetAppend<V>(a: seq<Entry<V>>, b: seq<Entry<V>>, k: Key)
    ensures Get(a + b, k) == if k in Keys(a) then Get(a, k) else Get(b, k)
    decreases |a|
  {
    if a == [] {
      assert a + b == b;
    } else {
      assert (a + b)[0] == a[0] && (a + b)[1..] == a[1..] + b;
      GetAppend(a[1..], b, k);
    }
  }

  /** Assigning a new key appends an entry. */
  lemma {:induction false} PutNew<V>(m: seq<Entry<V>>, k: Key, v: V)
    requires k !in Keys(m)
    ensures Put(m, k, v) == m + [Entry(k, v)]
    decreases |m|
  {
    if m != [] {
      assert Keys(m) == [m[0].key] + Keys(m[1..]);
      assert m[0].key != k && k !in Keys(m[1..]);
      PutNew(m[1..], k, v);
      assert Put(m, k, v) == [m[0]] + Put(m[1..], k, v);
      assert [m[0]] + (m[1..] + [Entry(k, v)]) == m + [Entry(k, v)];
    }
  }

  /** Assigning a key twice is assigning it once, with the second value. */
  lemma {:induction false} PutPut<V>(m: seq<Entry<V>>, k: Key, v1: V, v2: V)
    ensures Put(Put(m, k, v1), k, v2) == Put(m, k, v2)
    decreases |m|
  {
    if m != [] && m[0].key != k {
      PutPut(m[1..], k, v1, v2);
      assert Put(m, k, v1)[1..] == Put(m[1..], k, v1);
    }
  }

  /** In an array without repeated keys, each entry's key finds that entry. */
  lemma {:induction false} GetUnique<V>(m: seq<Entry<V>>, i: nat)
    requires UniqueKeys(m) && i < |m|
    ensures Get(m, m[i].key) == Some(m[i].value)
    decreases |m|
  {
    if i > 0 {
      assert m[0].key != m[i].key;
      assert UniqueKeys(m[1..]) by {
        forall a, b | 0 <= a < b < |m[1..]| ensures m[1..][a].key != m[1..][b].key {
          assert m[1..][a] == m[a + 1] && m[1..][b] == m[b + 1];
        }
      }
      GetUnique(m[1..], i - 1);
    }
  }

  /** `array_merge($a, $b)` for string keys: every entry of b is assigned
      into a, in b's order. */
  function Merge<V>(a: seq<Entry<V>>, b: seq<Entry<V>>): (r: seq<Entry<V>>)
    decreases |b|
  {
    if b == [] then a else Put(Merge(a, b[..|b| - 1]), b[|b| - 1].key, b[|b| - 1].value)
  }

  /** b's entries win over a's; keys only in a keep a's values. */
  lemma {:induction false} MergeGet<V>(a: seq<Entry<V>>, b: seq<Entry<V>>, k: Key)
    requires UniqueKeys(b)
    ensures Get(Merge(a, b), k) == if k in Keys(b) then Get(b, k) else Get(a, k)
    decreases |b|
  {
    if b != [] {
      var b' := b[..|b| - 1];
      var last := b[|b| - 1];
      assert UniqueKeys(b');
      MergeGet(a, b', k);
      KeysSnoc(b);
      if k != last.key {
        GetPrefix(b, k);
      } else {
        GetLast(b, k);
      }
    }
  }

  /** The keys of a merge: a's keys in order, then b's new keys. */
  lemma {:induction false} MergeKeys<V>(a: seq<Entry<V>>, b: seq<Entry<V>>)
    ensures forall k :: k in Keys(Merge(a, b)) <==> k in Keys(a) || k in Keys(b)
    ensures |Keys(a)| <= |Keys(Merge(a, b))| && Keys(Merge(a, b))[..|Keys(a)|] == Keys(a)
    decreases |b|
  {
    if b != [] {
      var b' := b[..|b| - 1];
      MergeKeys(a, b');
      KeysSnoc(b);
    }
  }

  /** The last entry of b is assigned last. */
  lemma MergeLastEntry<V>(a: seq<Entry<V>>, b: seq<Entry<V>>)
    requires b != []
    ensures Get(Merge(a, b), b[|b| - 1].key) == Some(b[|b| - 1].value)
  {
  }

  /** A key other than that of b's last entry ignores that entry. */
  lemma MergeDropLast<V>(a: seq<Entry<V>>, b: seq<Entry<V>>, k: Key)
    requires b != [] && k != b[|b| - 1].key
    ensures Get(Merge(a, b), k) == Get(Merge(a, b[..|b| - 1]), k)
  {
  }

  /** The value of a key after a merge is that of the last entry of b with
      that key, whatever the earlier entries say. */
  lemma {:induction false} MergeLastWins<V>(a: seq<Entry<V>>, b: seq<Entry<V>>, i: nat)
    requires i < |b|
    requires forall j :: i < j < |b| ==> b[j].key != b[i].key
    ensures Get(Merge(a, b), b[i].key) == Some(b[i].value)
    decreases |b|
  {
    if i == |b| - 1 {
      MergeLastEntry(a, b);
    } else {
      MergeDropLast(a, b, b[i].key);
      LastKeyInPrefix(b, b[..|b| - 1], i);
      MergeLastWins(a, b[..|b| - 1], i);
    }
  }

  /** An entry whose key no later entry repeats keeps that property in the
      prefix without the last entry. */
  lemma LastKeyInPrefix<V>(b: seq<Entry<V>>, init: seq<Entry<V>>, i: nat)
    requires i < |b| - 1 && init == b[..|b| - 1]
    requires forall j :: i < j < |b| ==> b[j].key != b[i].key
    ensures init[i] == b[i]
    ensures forall j :: i < j < |init| ==> init[j].key != init[i].key
  {
  }

  /** Merging into an array keeps its keys distinct. */
  lemma {:induction false} MergeUnique<V>(a: seq<Entry<V>>, b: seq<Entry<V>>)
    requires UniqueKeys(a)
    ensures UniqueKeys(Merge(a, b))
    decreases |b|
  {
    if b != [] {
      var n := |b| - 1;
      MergeUnique(a, b[..n]);
      PutUnique(Merge(a, b[..n]), b[n].key, b[n].value);
    }
  }

  /** Looking up a key other than the last one's ignores the last entry. */
  lemma GetPrefix<V>(b: seq<Entry<V>>, k: Key)
    requires b != [] && k != b[|b| - 1].key
    ensures Get(b, k) == Get(b[..|b| - 1], k)
  {
    var init, last := b[..|b| - 1], [b[|b| - 1]];
    assert b == init + last;
    GetAppend(init, last, k);
    assert Get(last, k) == None;
  }

  /** With unique keys, the last key's lookup finds the last entry. */
  lemma {:induction false} GetLast<V>(b: seq<Entry<V>>, k: Key)
    requires b != [] && k == b[|b| - 1].key && UniqueKeys(b)
    ensures Get(b, k) == Some(b[|b| - 1].value)
    decreases |b|
  {
    if |b| > 1 {
      assert b[0].key != k;
      GetLast(b[1..], k);
    }
  }

  /** A PHP list: the given items under the keys 0, 1, 2, ... */
  function List(items: seq<Value>): (r: Value)
    ensures r.Arr? && |r.entries| == |items|
    ensures forall i :: 0 <= i < |items| ==> r.entries[i] == Entry(KInt(i), items[i])
  {
    Arr(seq(|items|, i requires 0 <= i < |items| => Entry(KInt(i), items[i])))
  }

  /** A PHP list of strings. */
  function StrList(ss: seq<string>): Value {
    List(seq(|ss|, i requires 0 <= i < |ss| => Str(ss[i])))
  }

  /** Lists are equal exactly when their items are. */
  lemma ListInjective(a: seq<Value>, b: seq<Value>)
    requires List(a) == List(b)
    ensures a == b
  {
    assert |a| == |b|;
    forall i | 0 <= i < |a| ensures a[i] == b[i] {
      assert List(a).entries[i] == List(b).entries[i];
    }
  }

  /** `is_array($v)`. */
  predicate IsArray(v: Value) {
    v.Arr?
  }

  /** `$v ?? null` on an optional lookup. */
  function OrNull(o: Option<Value>): Value {
    if o.Some? then o.value else Null
  }
}
