/** Two-level grouping into association lists, the shape both playlist
    views build with `grouped[a] = grouped[a] || {}` followed by
    `grouped[a][b] = grouped[a][b] || []` and `push`. Keys appear in the
    order they were first seen; items keep their input order in a bucket. */
module Grouping {
  import opened Basics

  /** An association list: a JavaScript object used as a dictionary. */
  type Assoc<V> = seq<(string, V)>
  type Inner<T> = Assoc<seq<T>>
  type Groups<T> = Assoc<Inner<T>>

  /** One item together with the two keys it is filed under. */
  datatype Entry<T> = Entry(outer: string, inner: string, item: T)

  function Keys<V>(al: Assoc<V>): (ks: seq<string>)
    ensures |ks| == |al|
    ensures forall i :: 0 <= i < |al| ==> ks[i] == al[i].0
  {
    seq(|al|, i requires 0 <= i < |al| => al[i].0)
  }

  predicate Distinct(ks: seq<string>)
  {
    forall i, j :: 0 <= i < j < |ks| ==> ks[i] != ks[j]
  }

  /** `al[k] || d` */
  function LookupOr<V>(al: Assoc<V>, k: string, d: V): V
  {
    if |al| == 0 then d
    else if al[0].0 == k then al[0].1
    else LookupOr(al[1..], k, d)
  }

  /** `al[k] = f(al[k] || d)`: an absent key is added at the end. */
  function Update<V>(al: Assoc<V>, k: string, f: V -> V, d: V): Assoc<V>
  {
    if |al| == 0 then [(k, f(d))]
    else if al[0].0 == k then [(k, f(al[0].1))] + al[1..]
    else [al[0]] + Update(al[1..], k, f, d)
  }

  function AppendItem<T>(x: T): seq<T> -> seq<T>
  {
    b => b + [x]
  }

  /** `inner[k] = inner[k] || []; inner[k].push(x)` */
  function Push<T>(inner: Inner<T>, k: string, x: T): Inner<T>
  {
    Update(inner, k, AppendItem(x), [])
  }

  function PushInto<T>(k: string, x: T): Inner<T> -> Inner<T>
  {
    inner => Push(inner, k, x)
  }

  /** `g[o] = g[o] || {}; g[o][i] = g[o][i] || []; g[o][i].push(x)` */
  function Push2<T>(g: Groups<T>, o: string, i: string, x: T): Groups<T>
  {
    Update(g, o, PushInto(i, x), [])
  }

  /** Grouping a whole sequence of entries, one `Push2` per entry in order. */
  function GroupAll<T>(es: seq<Entry<T>>): Groups<T>
  {
    if |es| == 0 then []
    else
      var e := es[|es| - 1];
      Push2(GroupAll(es[..|es| - 1]), e.outer, e.inner, e.item)
  }

  /** The bucket filed under `o` then `i`, empty when there is none. */
  function Bucket<T>(g: Groups<T>, o: string, i: string): seq<T>
  {
    LookupOr(LookupOr(g, o, []), i, [])
  }

  /** Reference definition: the items of the entries filed under `o`, `i`, in input order. */
  function Select<T>(es: seq<Entry<T>>, o: string, i: string): seq<T>
  {
    if |es| == 0 then []
    else
      var e := es[|es| - 1];
      Select(es[..|es| - 1], o, i) + (if e.outer == o && e.inner == i then [e.item] else [])
  }

  /** Reference definition: each key once, in order of first occurrence. */
  function FirstSeen(ks: seq<string>): seq<string>
  {
    if |ks| == 0 then []
    else
      var p := FirstSeen(ks[..|ks| - 1]);
      if ks[|ks| - 1] in p then p else p + [ks[|ks| - 1]]
  }

  function Outers<T>(es: seq<Entry<T>>): seq<string>
  {
    seq(|es|, j requires 0 <= j < |es| => es[j].outer)
  }

  /** The inner keys of the entries filed under outer key `o`, in order. */
  function InnersUnder<T>(es: seq<Entry<T>>, o: string): seq<string>
  {
    if |es| == 0 then []
    else
      var e := es[|es| - 1];
      InnersUnder(es[..|es| - 1], o) + (if e.outer == o then [e.inner] else [])
  }

  function InnerCount<T>(inner: Inner<T>): nat
  {
    if |inner| == 0 then 0 else |inner[0].1| + InnerCount(inner[1..])
  }

  /** Total number of items over all buckets. */
  function Count<T>(g: Groups<T>): nat
  {
    if |g| == 0 then 0 else InnerCount(g[0].1) + Count(g[1..])
  }

  // ---------------------------------------------------------------------
  // Properties of Update

  lemma {:induction false} UpdateLookup<V>(al: Assoc<V>, k: string, f: V -> V, d: V, k': string)
    ensures LookupOr(Update(al, k, f, d), k', d) == if k' == k then f(LookupOr(al, k, d)) else LookupOr(al, k', d)
  {
    if |al| > 0 && al[0].0 != k {
      UpdateLookup(al[1..], k, f, d, k');
    }
  }

  lemma {:induction false} KeysOfCons<V>(p: (string, V), al: Assoc<V>)
    ensures Keys([p] + al) == [p.0] + Keys(al)
  {
  }

  lemma {:induction false} LookupMissing<V>(al: Assoc<V>, k: string, d: V)
    requires k !in Keys(al)
    ensures LookupOr(al, k, d) == d
  {
    if |al| > 0 {
      assert Keys(al[1..]) == Keys(al)[1..];
      LookupMissing(al[1..], k, d);
    }
  }

  lemma {:induction false} UpdateKeys<V>(al: Assoc<V>, k: string, f: V -> V, d: V)
    ensures Keys(Update(al, k, f, d)) == if k in Keys(al) then Keys(al) else Keys(al) + [k]
  {
    if |al| == 0 {
    } else if al[0].0 == k {
      KeysOfCons((k, f(al[0].1)), al[1..]);
      KeysOfCons(al[0], al[1..]);
    } else {
      UpdateKeys(al[1..], k, f, d);
      KeysOfCons(al[0], Update(al[1..], k, f, d));
      KeysOfCons(al[0], al[1..]);
    }
  }

  /** With distinct keys, looking up the key at position `j` finds that pair. */
  lemma {:induction false} LookupAt<V>(al: Assoc<V>, j: nat, d: V)
    requires Distinct(Keys(al))
    requires j < |al|
    ensures LookupOr(al, al[j].0, d) == al[j].1
  {
    if j > 0 {
      assert al[0].0 != al[j].0 by { assert Keys(al)[0] != Keys(al)[j]; }
      assert Keys(al[1..]) == Keys(al)[1..];
      LookupAt(al[1..], j - 1, d);
    }
  }

  // ---------------------------------------------------------------------
  // Properties of FirstSeen

  lemma {:induction false} FirstSeenMembers(ks: seq<string>)
    ensures forall k :: k in FirstSeen(ks) <==> k in ks
    ensures Distinct(FirstSeen(ks))
  {
    if |ks| > 0 {
      FirstSeenMembers(ks[..|ks| - 1]);
      assert ks == ks[..|ks| - 1] + [ks[|ks| - 1]];
    }
  }

  /** The first key seen is the first key listed. */
  lemma {:induction false} FirstSeenHead(ks: seq<string>)
    ensures |FirstSeen(ks)| == 0 <==> |ks| == 0
    ensures |ks| > 0 ==> FirstSeen(ks)[0] == ks[0]
  {
    if |ks| > 1 {
      FirstSeenHead(ks[..|ks| - 1]);
    }
  }

  // ---------------------------------------------------------------------
  // Properties of GroupAll

  /** Every bucket holds exactly the entries filed under its two keys, in
      input order; repeated items appear repeatedly. */
  lemma {:induction false} GroupAllBucket<T>(es: seq<Entry<T>>, o: string, i: string)
    ensures Bucket(GroupAll(es), o, i) == Select(es, o, i)
  {
    if |es| > 0 {
      var e := es[|es| - 1];
      var g := GroupAll(es[..|es| - 1]);
      GroupAllBucket(es[..|es| - 1], o, i);
      UpdateLookup(g, e.outer, PushInto(e.inner, e.item), [], o);
      if e.outer == o {
        UpdateLookup(LookupOr(g, o, []), e.inner, AppendItem(e.item), [], i);
      }
    }
  }

  /** The outer keys are the entries' outer keys in first-seen order. */
  lemma {:induction false} GroupAllKeys<T>(es: seq<Entry<T>>)
    ensures Keys(GroupAll(es)) == FirstSeen(Outers(es))
  {
    if |es| > 0 {
      var e := es[|es| - 1];
      GroupAllKeys(es[..|es| - 1]);
      assert Outers(es[..|es| - 1]) == Outers(es)[..|es| - 1];
      UpdateKeys(GroupAll(es[..|es| - 1]), e.outer, PushInto(e.inner, e.item), []);
    }
  }

  /** Under each outer key, the inner keys are in first-seen order too. */
  lemma {:induction false} GroupAllInnerKeys<T>(es: seq<Entry<T>>, o: string)
    ensures Keys(LookupOr(GroupAll(es), o, [])) == FirstSeen(InnersUnder(es, o))
  {
    if |es| > 0 {
      var e := es[|es| - 1];
      var g := GroupAll(es[..|es| - 1]);
      GroupAllInnerKeys(es[..|es| - 1], o);
      UpdateLookup(g, e.outer, PushInto(e.inner, e.item), [], o);
      if e.outer == o {
        var inner := LookupOr(g, o, []);
        assert LookupOr(GroupAll(es), o, []) == Push(inner, e.inner, e.item);
        UpdateKeys(inner, e.inner, AppendItem(e.item), []);
        var ks := InnersUnder(es, o);
        assert ks == InnersUnder(es[..|es| - 1], o) + [e.inner];
        assert ks[..|ks| - 1] == InnersUnder(es[..|es| - 1], o);
      } else {
        assert LookupOr(GroupAll(es), o, []) == LookupOr(g, o, []);
        assert InnersUnder(es, o) == InnersUnder(es[..|es| - 1], o);
      }
    }
  }

  /** No key is repeated at either level. */
  lemma GroupAllDistinct<T>(es: seq<Entry<T>>)
    ensures Distinct(Keys(GroupAll(es)))
    ensures forall j :: 0 <= j < |GroupAll(es)| ==> Distinct(Keys(GroupAll(es)[j].1))
  {
    var g := GroupAll(es);
    GroupAllKeys(es);
    FirstSeenMembers(Outers(es));
    forall j | 0 <= j < |g|
      ensures Distinct(Keys(g[j].1))
    {
      LookupAt(g, j, []);
      GroupAllInnerKeys(es, g[j].0);
      FirstSeenMembers(InnersUnder(es, g[j].0));
    }
  }

  lemma {:induction false} PushCount<T>(inner: Inner<T>, k: string, x: T)
    ensures InnerCount(Push(inner, k, x)) == InnerCount(inner) + 1
  {
    if |inner| == 0 {
    } else if inner[0].0 == k {
      var r := Push(inner, k, x);
      assert r[0].1 == inner[0].1 + [x] && r[1..] == inner[1..];
    } else {
      PushCount(inner[1..], k, x);
      var r := Push(inner, k, x);
      assert r[0] == inner[0] && r[1..] == Push(inner[1..], k, x);
    }
  }

  lemma {:induction false} Push2Count<T>(g: Groups<T>, o: string, i: string, x: T)
    ensures Count(Push2(g, o, i, x)) == Count(g) + 1
  {
    if |g| == 0 {
      PushCount([], i, x);
    } else if g[0].0 == o {
      PushCount(g[0].1, i, x);
      var r := Push2(g, o, i, x);
      assert r[0].1 == Push(g[0].1, i, x) && r[1..] == g[1..];
    } else {
      Push2Count(g[1..], o, i, x);
      var r := Push2(g, o, i, x);
      assert r[0] == g[0] && r[1..] == Push2(g[1..], o, i, x);
    }
  }

  /** Every entry lands in exactly one bucket: the bucket sizes add up to the number of entries. */
  lemma {:induction false} GroupAllCount<T>(es: seq<Entry<T>>)
    ensures Count(GroupAll(es)) == |es|
  {
    if |es| > 0 {
      var e := es[|es| - 1];
      GroupAllCount(es[..|es| - 1]);
      Push2Count(GroupAll(es[..|es| - 1]), e.outer, e.inner, e.item);
    }
  }
}
