/** A JavaScript `Map` with string keys, which keeps its entries in insertion order. */
module JsMap {
  datatype Entry<V> = Entry(key: string, value: V)

  ghost predicate Distinct<V>(s: seq<Entry<V>>) {
    forall i, j :: 0 <= i < j < |s| ==> s[i].key != s[j].key
  }

  /** Position of a key, or the length of the map. */
  function Find<V>(s: seq<Entry<V>>, key: string): (i: nat)
    ensures i <= |s|
    ensures i < |s| ==> s[i].key == key
    ensures forall j :: 0 <= j < i ==> s[j].key != key
  {
    if s == [] || s[0].key == key then 0 else 1 + Find(s[1..], key)
  }

  function Drop<V>(s: seq<Entry<V>>, i: nat): seq<Entry<V>>
    requires i < |s|
  {
    s[..i] + s[i + 1..]
  }

  /** `Map.delete`. */
  function Without<V>(s: seq<Entry<V>>, key: string): seq<Entry<V>> {
    if Find(s, key) < |s| then Drop(s, Find(s, key)) else s
  }

  /** `Map.set`: in place for a present key, at the end for a new one. */
  function Put<V>(s: seq<Entry<V>>, x: Entry<V>): seq<Entry<V>> {
    if Find(s, x.key) < |s| then s[Find(s, x.key) := x] else s + [x]
  }

  lemma {:induction false} FindDistinct<V>(s: seq<Entry<V>>, i: nat)
    requires Distinct(s) && i < |s|
    ensures Find(s, s[i].key) == i
  {}

  /** Setting a key keeps every position, and a new key comes last. */
  lemma {:induction false} PutFind<V>(s: seq<Entry<V>>, x: Entry<V>, key: string)
    requires Distinct(s)
    ensures Distinct(Put(s, x))
    ensures Find(Put(s, x), key) ==
      if Find(s, key) < |s| then Find(s, key) else if key == x.key then |s| else |Put(s, x)|
    ensures Find(Put(s, x), x.key) < |Put(s, x)| && Put(s, x)[Find(Put(s, x), x.key)] == x
    ensures key != x.key && Find(s, key) < |s| ==> Put(s, x)[Find(s, key)] == s[Find(s, key)]
  {
    var t, i := Put(s, x), Find(s, x.key);
    assert t[i] == x;
    FindDistinct(t, i);
    if Find(s, key) < |s| {
      assert t[Find(s, key)].key == key;
      FindDistinct(t, Find(s, key));
    }
  }

  lemma {:induction false} DropAt<V>(s: seq<Entry<V>>, i: nat)
    requires i < |s|
    ensures |Drop(s, i)| == |s| - 1
    ensures forall j :: 0 <= j < |Drop(s, i)| ==> Drop(s, i)[j] == s[if j < i then j else j + 1]
  {}

  /** Where a key is after position `g` has been cut out. */
  lemma {:induction false} CutFind<V>(s: seq<Entry<V>>, t: seq<Entry<V>>, g: nat, key: string)
    requires Distinct(s) && g < |s| && |t| == |s| - 1
    requires forall j :: 0 <= j < |t| ==> t[j] == s[if j < g then j else j + 1]
    ensures Distinct(t)
    ensures var i := Find(s, key);
      if key == s[g].key || i == |s| then Find(t, key) == |t|
      else Find(t, key) == (if g < i then i - 1 else i) && Find(t, key) < |t| && t[Find(t, key)] == s[i]
  {
    var i := Find(s, key);
    if i < |s| && key != s[g].key {
      FindDistinct(t, if g < i then i - 1 else i);
    } else if Find(t, key) < |t| {
      var j := Find(t, key);
      FindDistinct(s, if j < g then j else j + 1);
      FindDistinct(s, g);
      assert false;
    }
  }

  /** Deleting a key removes its entry only, and closes the gap. */
  lemma {:induction false} WithoutFind<V>(s: seq<Entry<V>>, gone: string, key: string)
    requires Distinct(s)
    ensures Distinct(Without(s, gone))
    ensures var t, i := Without(s, gone), Find(s, key);
      if key == gone || i == |s| then Find(t, key) == |t|
      else && Find(t, key) == (if Find(s, gone) < i then i - 1 else i)
           && Find(t, key) < |t| && t[Find(t, key)] == s[i]
  {
    var g := Find(s, gone);
    if g < |s| {
      DropAt(s, g);
      CutFind(s, Drop(s, g), g, key);
    }
  }
}
