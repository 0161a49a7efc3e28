/**
 * `Dictionary<string, V>` as the engine uses it: an association list whose
 * keys are distinct and whose order is insertion order (the enumeration
 * order of a .NET dictionary from which nothing is removed).
 */
module Dict {
  import opened Base

  datatype Entry<+V> = Entry(key: Text, value: V)

  function Keys<V>(es: seq<Entry<V>>): (ks: seq<Text>)
    ensures |ks| == |es|
    ensures forall i :: 0 <= i < |es| ==> ks[i] == es[i].key
  {
    if es == [] then [] else [es[0].key] + Keys(es[1..])
  }

  predicate DistinctKeys<V>(es: seq<Entry<V>>)
  {
    forall i, j :: 0 <= i < j < |es| ==> es[i].key != es[j].key
  }

  lemma DistinctPair<V>(a: Entry<V>, b: Entry<V>)
    requires a.key != b.key
    ensures DistinctKeys([a, b])
  {
  }

  predicate HasKey<V>(es: seq<Entry<V>>, k: Text)
  {
    exists i :: 0 <= i < |es| && es[i].key == k
  }

  /** The index of `k`, which a dictionary with distinct keys holds at most once. */
  function IndexOf<V>(es: seq<Entry<V>>, k: Text): (r: Option<nat>)
    ensures r.Some? ==> r.value < |es| && es[r.value].key == k
    ensures r.Some? ==> forall i :: 0 <= i < r.value ==> es[i].key != k
    ensures r.None? <==> !HasKey(es, k)
  {
    if es == [] then None
    else if es[0].key == k then Some(0)
    else match IndexOf(es[1..], k)
      case None => None
      case Some(i) => Some(i + 1)
  }

  /** The dictionary indexer's getter: `KeyNotFoundException` on a missing key. */
  function Get<V>(es: seq<Entry<V>>, k: Text): (r: Result<V>)
    ensures r.Ok? <==> HasKey(es, k)
    ensures r.Err? ==> r.error == KeyNotFound
    ensures r.Ok? ==> exists i :: 0 <= i < |es| && es[i] == Entry(k, r.value)
  {
    match IndexOf(es, k)
    case None => Err(KeyNotFound)
    case Some(i) => Ok(es[i].value)
  }

  /**
   * The dictionary indexer's setter `d[k] = v`: overwrites the value of a
   * present key where it stands, and appends a missing key at the end.
   */
  function Put<V>(es: seq<Entry<V>>, k: Text, v: V): (r: seq<Entry<V>>)
    ensures HasKey(es, k) ==> |r| == |es|
    ensures !HasKey(es, k) ==> r == es + [Entry(k, v)]
    ensures forall i :: 0 <= i < |es| && es[i].key != k ==> r[i] == es[i]
    ensures forall i :: 0 <= i < |es| && es[i].key == k ==> r[i] == Entry(k, v)
  {
    if !HasKey(es, k) then es + [Entry(k, v)]
    else seq(|es|, i requires 0 <= i < |es| => if es[i].key == k then Entry(k, v) else es[i])
  }

  /** The setter keeps the keys distinct. */
  lemma PutDistinct<V>(es: seq<Entry<V>>, k: Text, v: V)
    requires DistinctKeys(es)
    ensures DistinctKeys(Put(es, k, v))
  {
    var r := Put(es, k, v);
    if !HasKey(es, k) {
      forall i, j | 0 <= i < j < |r| ensures r[i].key != r[j].key {
        if j == |es| {
          assert !(es[i].key == k);
        }
      }
    }
  }

  /** The key order is insertion order: a present key keeps its place, a new one comes last. */
  lemma PutKeys<V>(es: seq<Entry<V>>, k: Text, v: V)
    ensures Keys(Put(es, k, v)) == if HasKey(es, k) then Keys(es) else Keys(es) + [k]
  {
    var r := Put(es, k, v);
    if HasKey(es, k) {
      forall i | 0 <= i < |es| ensures Keys(r)[i] == Keys(es)[i] {
        if es[i].key == k {
          assert r[i] == Entry(k, v);
        } else {
          assert r[i] == es[i];
        }
      }
    } else {
      assert Keys(r)[|es|] == k;
    }
  }

  /** `Dictionary.Add(k, v)`: like the setter, but a present key is an error. */
  function Add<V>(es: seq<Entry<V>>, k: Text, v: V): (r: Result<seq<Entry<V>>>)
    ensures r.Ok? <==> !HasKey(es, k)
    ensures r.Ok? ==> r.value == es + [Entry(k, v)]
    ensures r.Err? ==> r.error == DuplicateKey
  {
    if HasKey(es, k) then Err(DuplicateKey) else Ok(es + [Entry(k, v)])
  }

  /** With distinct keys, the getter finds each entry's own value. */
  lemma GetIndex<V>(es: seq<Entry<V>>, i: int)
    requires DistinctKeys(es) && 0 <= i < |es|
    ensures Get(es, es[i].key) == Ok(es[i].value)
  {
    var k := es[i].key;
    assert HasKey(es, k);
    var j :| 0 <= j < |es| && es[j] == Entry(k, Get(es, k).value);
    assert j == i;
  }

  /** Setting a key to the value it already has changes nothing. */
  lemma PutExisting<V>(es: seq<Entry<V>>, i: int)
    requires DistinctKeys(es) && 0 <= i < |es|
    ensures Put(es, es[i].key, es[i].value) == es
  {
    var r := Put(es, es[i].key, es[i].value);
    assert HasKey(es, es[i].key);
    forall j | 0 <= j < |es| ensures r[j] == es[j] {
      if es[j].key == es[i].key {
        assert j == i;
      }
    }
  }

  lemma {:induction false} GetAfterPut<V>(es: seq<Entry<V>>, k: Text, v: V, k': Text)
    requires DistinctKeys(es)
    ensures Get(Put(es, k, v), k') == if k' == k then Ok(v) else Get(es, k')
  {
    var r := Put(es, k, v);
    if k' == k {
      assert HasKey(r, k) by {
        if HasKey(es, k) {
          var i :| 0 <= i < |es| && es[i].key == k;
          assert r[i].key == k;
        } else {
          assert r[|es|].key == k;
        }
      }
      var j :| 0 <= j < |r| && r[j] == Entry(k, Get(r, k).value);
      if j < |es| {
        assert es[j].key == k;
      }
    } else {
      if HasKey(es, k') {
        var i :| 0 <= i < |es| && es[i].key == k';
        assert r[i] == es[i];
        assert HasKey(r, k');
        var j :| 0 <= j < |r| && r[j] == Entry(k', Get(r, k').value);
        var j' :| 0 <= j' < |es| && es[j'] == Entry(k', Get(es, k').value);
        assert es[j].key == k';
        assert j == j';
      }
    }
  }
}
