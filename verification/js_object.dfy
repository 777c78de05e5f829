/** A JavaScript plain object as the dashboard uses it: string keys kept in insertion
    order (what `Object.keys` / `Object.entries` enumerate), `{ ...o, [k]: v }` to set a
    key, `delete o[k]` / rest-destructuring to drop one, `o?.[k]` to read one. */
module JsObject {
  import opened Wrappers

  datatype Entry<V> = Entry(key: string, value: V)

  type Obj<V> = seq<Entry<V>>

  /** `Object.keys(o)`, in insertion order. */
  function Keys<V>(o: Obj<V>): (r: seq<string>)
    ensures |r| == |o|
    ensures forall i :: 0 <= i < |o| ==> r[i] == o[i].key
  {
    if |o| == 0 then [] else [o[0].key] + Keys(o[1..])
  }

  /** No key occurs twice (true of every object JavaScript builds). */
  predicate Wf<V>(o: Obj<V>) {
    forall i, j :: 0 <= i < j < |o| ==> o[i].key != o[j].key
  }

  /** `o[k]`: `None` stands for `undefined`. */
  function Get<V>(o: Obj<V>, k: string): (r: Option<V>)
    ensures r.Some? <==> k in Keys(o)
    ensures r.Some? ==> exists i :: 0 <= i < |o| && o[i] == Entry(k, r.value)
  {
    if |o| == 0 then None
    else if o[0].key == k then Some(o[0].value)
    else Get(o[1..], k)
  }

  /** `o[k] === undefined ? "undefined" : o[k]` as a template literal or `FormData.append`
      renders a text field. */
  function GetText(o: Obj<string>, k: string): (r: string)
    ensures Get(o, k).Some? ==> r == Get(o, k).value
    ensures Get(o, k).None? ==> r == "undefined"
  {
    match Get(o, k)
    case Some(v) => v
    case None => "undefined"
  }

  /** `{ ...o, [k]: v }`: an existing key keeps its position, a new key goes last. */
  function Set<V>(o: Obj<V>, k: string, v: V): (r: Obj<V>)
    ensures Get(r, k) == Some(v)
    ensures forall k' :: k' != k ==> Get(r, k') == Get(o, k')
  {
    if |o| == 0 then [Entry(k, v)]
    else if o[0].key == k then [Entry(k, v)] + o[1..]
    else [o[0]] + Set(o[1..], k, v)
  }

  /** `Object.keys` of an object built from a first entry and the rest. */
  lemma KeysCons<V>(e: Entry<V>, rest: Obj<V>)
    ensures Keys([e] + rest) == [e.key] + Keys(rest)
  {
    assert ([e] + rest)[1..] == rest;
  }

  /** Setting a key the object has keeps every key where it was. */
  lemma {:induction false} SetKeysPresent<V>(o: Obj<V>, k: string, v: V)
    requires k in Keys(o)
    ensures Keys(Set(o, k, v)) == Keys(o)
  {
    assert o == [o[0]] + o[1..];
    KeysCons(o[0], o[1..]);
    if o[0].key == k {
      KeysCons(Entry(k, v), o[1..]);
    } else {
      assert k in Keys(o[1..]);
      SetKeysPresent(o[1..], k, v);
      KeysCons(o[0], Set(o[1..], k, v));
    }
  }

  /** Setting a key the object lacks appends it after the others. */
  lemma {:induction false} SetKeysAbsent<V>(o: Obj<V>, k: string, v: V)
    requires k !in Keys(o)
    ensures Keys(Set(o, k, v)) == Keys(o) + [k]
  {
    if |o| == 0 {
      assert Set(o, k, v) == [Entry(k, v)] + [];
      KeysCons(Entry(k, v), []);
    } else {
      assert o == [o[0]] + o[1..];
      KeysCons(o[0], o[1..]);
      assert k !in Keys(o[1..]);
      SetKeysAbsent(o[1..], k, v);
      KeysCons(o[0], Set(o[1..], k, v));
      var h, t := [o[0].key], Keys(o[1..]);
      assert h + (t + [k]) == h + t + [k];
    }
  }

  /** Setting a key never reorders the object: an existing key stays where it was and a
      new one is appended. */
  lemma SetKeys<V>(o: Obj<V>, k: string, v: V)
    ensures k in Keys(o) ==> Keys(Set(o, k, v)) == Keys(o)
    ensures k !in Keys(o) ==> Keys(Set(o, k, v)) == Keys(o) + [k]
  {
    if k in Keys(o) {
      SetKeysPresent(o, k, v);
    } else {
      SetKeysAbsent(o, k, v);
    }
  }

  /** Setting a key never duplicates one. */
  lemma SetWf<V>(o: Obj<V>, k: string, v: V)
    requires Wf(o)
    ensures Wf(Set(o, k, v))
  {
    SetKeys(o, k, v);
    var r := Set(o, k, v);
    forall i, j | 0 <= i < j < |r| ensures r[i].key != r[j].key {
      assert Keys(r)[i] == r[i].key && Keys(r)[j] == r[j].key;
      if j < |o| {
        assert Keys(o)[i] == o[i].key && Keys(o)[j] == o[j].key;
      } else {
        assert k !in Keys(o);
        assert Keys(o)[i] == o[i].key;
      }
    }
  }

  /** The copy `{ ...o }` without key `k` (`delete copy[k]`, or `const { k, ...rest } = o`). */
  function Delete<V>(o: Obj<V>, k: string): (r: Obj<V>)
    ensures Get(r, k).None?
    ensures forall k' :: k' != k ==> Get(r, k') == Get(o, k')
    ensures Wf(o) ==> Wf(r)
    ensures forall i :: 0 <= i < |r| ==> r[i] in o
  {
    if |o| == 0 then []
    else if o[0].key == k then Delete(o[1..], k)
    else [o[0]] + Delete(o[1..], k)
  }

  /** Setting a key to the value it already holds gives back the very same object. */
  lemma {:induction false} SetSameValue<V>(o: Obj<V>, k: string, v: V)
    requires Get(o, k) == Some(v)
    ensures Set(o, k, v) == o
  {
    assert o == [o[0]] + o[1..];
    if o[0].key != k {
      SetSameValue(o[1..], k, v);
    }
  }

  /** Setting a key gives back the very same object exactly when the key already holds
      that value: a new key or a different value changes it. */
  lemma SetUnchangedIff<V>(o: Obj<V>, k: string, v: V)
    ensures Set(o, k, v) == o <==> Get(o, k) == Some(v)
  {
    if Get(o, k) == Some(v) {
      SetSameValue(o, k, v);
    }
  }
}
