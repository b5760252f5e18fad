/**
 An insertion-ordered map with string keys (Kotlin's `mutableMapOf`, a `LinkedHashMap`) as a
 list of entries. Iteration follows first insertion; putting an existing key
 replaces its value in place.
 */
module LinkedMap {
  import opened Opt

  datatype Entry<V> = Entry(key: string, value: V)

  predicate HasKey<V>(es: seq<Entry<V>>, k: string)
  {
    exists i :: 0 <= i < |es| && es[i].key == k
  }

  predicate DistinctKeys<V>(es: seq<Entry<V>>)
  {
    forall i, j :: 0 <= i < j < |es| ==> es[i].key != es[j].key
  }

  /** `m[k]`: the value stored under `k`, or null. */
  function Get<V>(es: seq<Entry<V>>, k: string): (r: Option<V>)
    ensures r.None? <==> !HasKey(es, k)
    ensures r.Some? ==> Entry(k, r.value) in es
  {
    if |es| == 0 then None
    else if es[0].key == k then Some(es[0].value)
    else
      assert forall i :: 1 <= i < |es| ==> es[i] == es[1..][i - 1];
      Get(es[1..], k)
  }

  /** `m[k] = v` */
  function Put<V>(es: seq<Entry<V>>, k: string, v: V): (r: seq<Entry<V>>)
    ensures Entry(k, v) in r
    ensures |es| <= |r| <= |es| + 1
  {
    if |es| == 0 then [Entry(k, v)]
    else if es[0].key == k then [Entry(k, v)] + es[1..]
    else [es[0]] + Put(es[1..], k, v)
  }

  lemma HasKeyCons<V>(e: Entry<V>, es: seq<Entry<V>>, k: string)
    ensures HasKey([e] + es, k) <==> e.key == k || HasKey(es, k)
  {
    assert ([e] + es)[0] == e;
    if HasKey(es, k) {
      var i :| 0 <= i < |es| && es[i].key == k;
      assert ([e] + es)[i + 1].key == k;
    }
    if HasKey([e] + es, k) && e.key != k {
      var i :| 0 <= i < |[e] + es| && ([e] + es)[i].key == k;
      assert es[i - 1].key == k;
    }
  }

  /** After `m[k] = v`, `k` reads back `v` and every other key reads as before. */
  lemma {:induction false} PutGet<V>(es: seq<Entry<V>>, k: string, v: V, k': string)
    ensures Get(Put(es, k, v), k) == Some(v)
    ensures k' != k ==> Get(Put(es, k, v), k') == Get(es, k')
  {
    if |es| > 0 && es[0].key != k {
      PutGet(es[1..], k, v, k');
      assert es == [es[0]] + es[1..];
    } else if |es| > 0 {
      assert es == [es[0]] + es[1..];
    }
  }

  /** The keys after `m[k] = v` are the old keys and `k`. */
  lemma {:induction false} PutHasKey<V>(es: seq<Entry<V>>, k: string, v: V, k': string)
    ensures HasKey(Put(es, k, v), k') <==> k' == k || HasKey(es, k')
  {
    if |es| > 0 {
      assert es == [es[0]] + es[1..];
      HasKeyCons(es[0], es[1..], k');
      if es[0].key == k {
        HasKeyCons(Entry(k, v), es[1..], k');
      } else {
        PutHasKey(es[1..], k, v, k');
        HasKeyCons(es[0], Put(es[1..], k, v), k');
      }
    } else {
      assert Put(es, k, v)[0].key == k;
    }
  }

  /** A new key is appended at the end, keeping the iteration order of the others. */
  lemma {:induction false} PutNewKey<V>(es: seq<Entry<V>>, k: string, v: V)
    requires !HasKey(es, k)
    ensures Put(es, k, v) == es + [Entry(k, v)]
  {
    if |es| > 0 {
      assert es == [es[0]] + es[1..];
      HasKeyCons(es[0], es[1..], k);
      PutNewKey(es[1..], k, v);
    }
  }

  /**
   Putting an existing key replaces its value in place: the size and every
   key's position (hence the iteration order) stay as they were.
   */
  lemma {:induction false} PutExistingKeepsKeys<V>(es: seq<Entry<V>>, k: string, v: V)
    requires HasKey(es, k)
    ensures |Put(es, k, v)| == |es|
    ensures forall i :: 0 <= i < |es| ==> Put(es, k, v)[i].key == es[i].key
  {
    if es[0].key != k {
      assert es == [es[0]] + es[1..];
      HasKeyCons(es[0], es[1..], k);
      PutExistingKeepsKeys(es[1..], k, v);
    }
  }

  /** `m[k] = v` keeps the keys distinct. */
  lemma {:induction false} PutDistinct<V>(es: seq<Entry<V>>, k: string, v: V)
    ensures DistinctKeys(es) ==> DistinctKeys(Put(es, k, v))
  {
    if |es| > 0 && DistinctKeys(es) {
      assert es == [es[0]] + es[1..];
      var r := Put(es, k, v);
      if es[0].key == k {
        assert r[1..] == es[1..];
      } else {
        var tail := Put(es[1..], k, v);
        PutDistinct(es[1..], k, v);
        assert r == [es[0]] + tail;
        forall i | 0 <= i < |tail|
          ensures tail[i].key != es[0].key
        {
          assert HasKey(tail, tail[i].key);
          PutHasKey(es[1..], k, v, tail[i].key);
          if HasKey(es[1..], tail[i].key) {
            var j :| 0 <= j < |es[1..]| && es[1..][j].key == tail[i].key;
            assert es[j + 1].key == tail[i].key;
          }
        }
        forall i, j | 0 <= i < j < |r|
          ensures r[i].key != r[j].key
        {
          if i > 0 {
            assert r[i] == tail[i - 1] && r[j] == tail[j - 1];
          } else {
            assert r[j] == tail[j - 1];
          }
        }
      }
    }
  }

  /** The map the entries denote; used for Kotlin's value equality of maps. */
  function ToMap<V>(es: seq<Entry<V>>): (m: map<string, V>)
    ensures forall k :: k in m <==> HasKey(es, k)
    ensures forall k :: k in m ==> Get(es, k) == Some(m[k])
  {
    if |es| == 0 then map[]
    else
      var m := ToMap(es[1..]);
      assert es == [es[0]] + es[1..];
      assert forall k :: HasKey(es, k) <==> es[0].key == k || HasKey(es[1..], k) by {
        forall k ensures HasKey(es, k) <==> es[0].key == k || HasKey(es[1..], k) {
          HasKeyCons(es[0], es[1..], k);
        }
      }
      m[es[0].key := es[0].value]
  }
}
