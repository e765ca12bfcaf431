/** Plain JavaScript objects: string keys in insertion order. Assigning to
    an existing key replaces its value in place; a new key is appended. A
    spread `{...a, ...b}` is the keys of `b` assigned, in order, onto `a`.
    JavaScript enumerates array-index keys ("0", "42") first, in numeric
    order; the list order here is the enumeration order only for keys that
    are not array indices, as every key the site uses is. */
module JsObject {
  import opened Common

  type Object<V> = seq<(string, V)>

  function Keys<V>(fs: Object<V>): (ks: seq<string>)
    ensures |ks| == |fs|
  {
    if |fs| == 0 then [] else [fs[0].0] + Keys(fs[1..])
  }

  lemma {:induction false} KeysIndex<V>(fs: Object<V>, x: string)
    ensures x in Keys(fs) <==> exists i :: 0 <= i < |fs| && fs[i].0 == x
  {
    if |fs| > 0 {
      KeysIndex(fs[1..], x);
      if exists i :: 0 <= i < |fs| && fs[i].0 == x {
        var i :| 0 <= i < |fs| && fs[i].0 == x;
        if i > 0 {
          assert fs[1..][i - 1].0 == x;
        }
      }
      if x in Keys(fs[1..]) {
        var i :| 0 <= i < |fs| - 1 && fs[1..][i].0 == x;
        assert fs[i + 1].0 == x;
      }
    }
  }

  /** Every key occurs at most once, which is what a JavaScript object is. */
  predicate UniqueKeys<V>(fs: Object<V>) {
    forall i, j :: 0 <= i < j < |fs| ==> fs[i].0 != fs[j].0
  }

  /** Property read `o[k]`; `None` is `undefined`. */
  function Get<V>(fs: Object<V>, k: string): (r: Option<V>)
    ensures r.None? <==> k !in Keys(fs)
  {
    if |fs| == 0 then None
    else if fs[0].0 == k then Some(fs[0].1)
    else Get(fs[1..], k)
  }

  /** The keys, position by position. */
  lemma {:induction false} KeysAt<V>(fs: Object<V>, i: nat)
    requires i < |fs|
    ensures Keys(fs)[i] == fs[i].0
    decreases i
  {
    if i > 0 {
      KeysAt(fs[1..], i - 1);
    }
  }

  lemma KeysIndexed<V>(fs: Object<V>)
    ensures forall i :: 0 <= i < |fs| ==> Keys(fs)[i] == fs[i].0
  {
    forall i | 0 <= i < |fs| ensures Keys(fs)[i] == fs[i].0 {
      KeysAt(fs, i);
    }
  }

  /** A read finds the first entry carrying the key. */
  lemma {:induction false} GetFirst<V>(fs: Object<V>, i: nat)
    requires i < |fs|
    requires forall j :: 0 <= j < i ==> fs[j].0 != fs[i].0
    ensures Get(fs, fs[i].0) == Some(fs[i].1)
    decreases i
  {
    if i > 0 {
      assert fs[1..][i - 1] == fs[i];
      GetFirst(fs[1..], i - 1);
    }
  }

  /** A read that finds something finds the first entry with that key. */
  lemma {:induction false} GetFound<V>(fs: Object<V>, k: string)
    requires Get(fs, k).Some?
    ensures exists i :: 0 <= i < |fs| && fs[i] == (k, Get(fs, k).value)
  {
    if fs[0].0 != k {
      GetFound(fs[1..], k);
      var i :| 0 <= i < |fs| - 1 && fs[1..][i] == (k, Get(fs, k).value);
      assert fs[i + 1] == fs[1..][i];
    }
  }

  /** Property write `o[k] = v`: an existing key keeps its position, a new
      key is appended. */
  function Set<V>(fs: Object<V>, k: string, v: V): (r: Object<V>)
    ensures k in Keys(fs) ==> |r| == |fs|
    ensures k !in Keys(fs) ==> r == fs + [(k, v)]
  {
    if |fs| == 0 then [(k, v)]
    else if fs[0].0 == k then [(k, v)] + fs[1..]
    else
      [fs[0]] + Set(fs[1..], k, v)
  }

  /** After a write, the key reads back the written value. */
  lemma {:induction false} GetSetSame<V>(fs: Object<V>, k: string, v: V)
    ensures Get(Set(fs, k, v), k) == Some(v)
  {
    if |fs| > 0 && fs[0].0 != k {
      GetSetSame(fs[1..], k, v);
      assert Set(fs, k, v)[1..] == Set(fs[1..], k, v);
    }
  }

  /** A write leaves every other key's value alone. */
  lemma {:induction false} GetSetOther<V>(fs: Object<V>, k: string, v: V, k': string)
    requires k' != k
    ensures Get(Set(fs, k, v), k') == Get(fs, k')
  {
    if |fs| > 0 && fs[0].0 != k {
      GetSetOther(fs[1..], k, v, k');
      assert Set(fs, k, v)[1..] == Set(fs[1..], k, v);
    } else if |fs| > 0 {
      assert Set(fs, k, v)[1..] == fs[1..];
    }
  }

  /** A write never changes which keys exist, except to add `k`. */
  lemma {:induction false} KeysSet<V>(fs: Object<V>, k: string, v: V, x: string)
    ensures x in Keys(Set(fs, k, v)) <==> x in Keys(fs) || x == k
  {
    if |fs| == 0 {
      assert Keys(Set(fs, k, v)) == [k];
    } else if fs[0].0 != k {
      KeysSet(fs[1..], k, v, x);
      assert Keys(Set(fs, k, v)) == [fs[0].0] + Keys(Set(fs[1..], k, v));
    } else {
      assert Keys(Set(fs, k, v)) == Keys(fs);
      assert Keys(fs)[0] == k;
    }
  }

  /** Writes keep an object's keys distinct. */
  lemma {:induction false} SetUnique<V>(fs: Object<V>, k: string, v: V)
    requires UniqueKeys(fs)
    ensures UniqueKeys(Set(fs, k, v))
  {
    if |fs| > 0 && fs[0].0 != k {
      var rest := Set(fs[1..], k, v);
      SetUnique(fs[1..], k, v);
      var r := Set(fs, k, v);
      assert r == [fs[0]] + rest;
      forall j | 0 < j < |r|
        ensures r[j].0 != fs[0].0
      {
        var x := r[j].0;
        assert rest[j - 1] == r[j];
        KeysAt(rest, j - 1);
        KeysSet(fs[1..], k, v, x);
        if x in Keys(fs[1..]) {
          KeysIndex(fs[1..], x);
          var i :| 0 <= i < |fs| - 1 && fs[1..][i].0 == x;
          assert fs[i + 1].0 == x;
        }
      }
      forall i, j | 0 <= i < j < |r|
        ensures r[i].0 != r[j].0
      {
        if i > 0 {
          assert r[i] == rest[i - 1] && r[j] == rest[j - 1];
        }
      }
    }
  }

  /** Spread `{...fs, ...more}`: the keys of `more` written in their order. */
  function Spread<V>(fs: Object<V>, more: Object<V>): Object<V>
    decreases |more|
  {
    if |more| == 0 then fs
    else Spread(Set(fs, more[0].0, more[0].1), more[1..])
  }

  /** In a spread, the right-hand object wins on every key it has and the
      left-hand object supplies the rest. */
  lemma {:induction false} GetSpread<V>(fs: Object<V>, more: Object<V>, k: string)
    requires UniqueKeys(more)
    ensures Get(Spread(fs, more), k) ==
            if k in Keys(more) then Get(more, k) else Get(fs, k)
    decreases |more|
  {
    if |more| > 0 {
      var fs' := Set(fs, more[0].0, more[0].1);
      assert Keys(more) == [more[0].0] + Keys(more[1..]);
      GetSpread(fs', more[1..], k);
      if k == more[0].0 {
        GetSetSame(fs, k, more[0].1);
        KeysIndex(more[1..], k);
      } else {
        GetSetOther(fs, more[0].0, more[0].1, k);
      }
    }
  }

  /** Spreading into an object keeps its keys distinct. */
  lemma {:induction false} SpreadUnique<V>(fs: Object<V>, more: Object<V>)
    requires UniqueKeys(fs)
    ensures UniqueKeys(Spread(fs, more))
    decreases |more|
  {
    if |more| > 0 {
      SetUnique(fs, more[0].0, more[0].1);
      SpreadUnique(Set(fs, more[0].0, more[0].1), more[1..]);
    }
  }

}
