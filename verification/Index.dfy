// The validator's lookup tables: values filed under keys in order of arrival, and line numbers
// sorted without repeats (src/config/validate/mod.rs).

module Index {
  import opened Prelude

  function PushAt<K, V>(m: map<K, seq<V>>, k: K, v: V): map<K, seq<V>> {
    m[k := (if k in m then m[k] else []) + [v]]
  }

  function Gather<K, V>(entries: seq<(K, V)>): map<K, seq<V>> {
    if entries == [] then map[]
    else
      var last := entries[|entries| - 1];
      PushAt(Gather(entries[..|entries| - 1]), last.0, last.1)
  }

  /** The values filed under a key, in order. */
  function Under<K(==), V>(entries: seq<(K, V)>, k: K): seq<V> {
    if entries == [] then []
    else
      var last := entries[|entries| - 1];
      Under(entries[..|entries| - 1], k) + if last.0 == k then [last.1] else []
  }

  lemma GatherSnoc<K, V>(entries: seq<(K, V)>, k: K, v: V)
    ensures Gather(entries + [(k, v)]) == PushAt(Gather(entries), k, v)
  {
    assert (entries + [(k, v)])[..|entries|] == entries;
  }

  lemma {:induction false} GatherIsUnder<K, V>(entries: seq<(K, V)>, k: K)
    ensures k in Gather(entries) <==> Under(entries, k) != []
    ensures k in Gather(entries) ==> Gather(entries)[k] == Under(entries, k)
  {
    if entries != [] {
      GatherIsUnder(entries[..|entries| - 1], k);
    }
  }

  lemma {:induction false} UnderHolds<K, V>(entries: seq<(K, V)>, k: K, v: V)
    ensures v in Under(entries, k) <==> (k, v) in entries
  {
    if entries != [] {
      var init, last := entries[..|entries| - 1], entries[|entries| - 1];
      UnderHolds(init, k, v);
      assert entries == init + [last];
    }
  }

  // ---------------------------------------------------------------------
  // Keys in byte order
  // ---------------------------------------------------------------------

  predicate LexLe(a: string, b: string) {
    a == "" || (b != "" && (a[0] < b[0] || (a[0] == b[0] && LexLe(a[1..], b[1..]))))
  }

  lemma {:induction false} LexTotal(a: string, b: string)
    ensures LexLe(a, b) || LexLe(b, a)
  {
    if a != "" && b != "" && a[0] == b[0] {
      LexTotal(a[1..], b[1..]);
    }
  }

  lemma {:induction false} LexAntisymmetric(a: string, b: string)
    requires LexLe(a, b) && LexLe(b, a)
    ensures a == b
  {
    if a != "" {
      LexAntisymmetric(a[1..], b[1..]);
      assert a == [a[0]] + a[1..] && b == [b[0]] + b[1..];
    }
  }

  lemma {:induction false} LexTransitive(a: string, b: string, c: string)
    requires LexLe(a, b) && LexLe(b, c)
    ensures LexLe(a, c)
  {
    if a != "" && a[0] == b[0] == c[0] {
      LexTransitive(a[1..], b[1..], c[1..]);
    }
  }

  /** The strings differ first at place i, where a has the lesser byte. */
  predicate LessAt(a: string, b: string, i: nat) {
    i < |a| && i < |b| && a[..i] == b[..i] && a[i] < b[i]
  }

  lemma LessAtTail(a: string, b: string, i: nat)
    requires a != "" && b != "" && a[0] == b[0]
    ensures LessAt(a, b, i + 1) <==> LessAt(a[1..], b[1..], i)
    ensures !LessAt(a, b, 0)
  {
    if i < |a[1..]| && i < |b[1..]| {
      assert a[..i + 1] == [a[0]] + a[1..][..i] && b[..i + 1] == [b[0]] + b[1..][..i];
      assert a[1..][..i] == a[..i + 1][1..] && b[1..][..i] == b[..i + 1][1..];
    }
  }

  lemma LessAtFirst(a: string, b: string, i: nat)
    requires LessAt(a, b, i)
    ensures i == 0 || a[0] == b[0]
  {
    if i > 0 {
      assert a[..i][0] == a[0] && b[..i][0] == b[0];
    }
  }

  /** Byte order: a is a prefix of b, or has the lesser byte where they first differ. */
  lemma {:induction false} ByteOrder(a: string, b: string)
    ensures LexLe(a, b) <==> a <= b || exists i: nat :: LessAt(a, b, i)
  {
    if a != "" && b != "" {
      if a[0] == b[0] {
        ByteOrder(a[1..], b[1..]);
        assert a <= b <==> a[1..] <= b[1..];
        if i: nat :| LessAt(a[1..], b[1..], i) {
          LessAtTail(a, b, i);
        }
        if i: nat :| LessAt(a, b, i) {
          LessAtTail(a, b, if i > 0 then i - 1 else 0);
          assert LessAt(a[1..], b[1..], i - 1);
        }
      } else {
        assert LessAt(a, b, 0) <==> a[0] < b[0];
        forall i: nat | LessAt(a, b, i)
          ensures i == 0 || a[0] == b[0]
        {
          LessAtFirst(a, b, i);
        }
      }
    }
  }

  predicate IsLeast(k: string, keys: set<string>) {
    k in keys && forall j :: j in keys ==> LexLe(k, j)
  }

  lemma {:induction false} LeastExists(keys: set<string>)
    requires keys != {}
    ensures exists k :: IsLeast(k, keys)
    decreases keys
  {
    var x :| x in keys;
    var rest := keys - {x};
    LexTotal(x, x);
    assert forall j :: j in keys ==> j == x || j in rest;
    if rest == {} {
      assert IsLeast(x, keys);
    } else {
      LeastExists(rest);
      var k :| IsLeast(k, rest);
      LexTotal(x, k);
      if LexLe(x, k) {
        forall j | j in keys
          ensures LexLe(x, j)
        {
          if j != x {
            LexTransitive(x, k, j);
          }
        }
        assert IsLeast(x, keys);
      } else {
        assert IsLeast(k, keys);
      }
    }
  }

  ghost function Least(keys: set<string>): (k: string)
    requires keys != {}
    ensures IsLeast(k, keys)
  {
    LeastExists(keys);
    var k :| IsLeast(k, keys);
    k
  }

  /** Every key once, in ascending byte order. */
  ghost function InOrder(keys: set<string>): seq<string> {
    if keys == {} then [] else [Least(keys)] + InOrder(keys - {Least(keys)})
  }

  lemma {:induction false} InOrderHolds(keys: set<string>)
    ensures forall k :: k in InOrder(keys) <==> k in keys
    decreases keys
  {
    if keys != {} {
      var k := Least(keys);
      InOrderHolds(keys - {k});
      forall x
        ensures x in InOrder(keys) <==> x in keys
      {
        assert x in InOrder(keys) <==> x == k || x in InOrder(keys - {k});
      }
    }
  }

  /** Each key comes before the greater ones and only once. */
  lemma {:induction false} InOrderAscends(keys: set<string>, i: nat, j: nat)
    requires i < j < |InOrder(keys)|
    ensures LexLe(InOrder(keys)[i], InOrder(keys)[j]) && InOrder(keys)[i] != InOrder(keys)[j]
    decreases keys
  {
    var k := Least(keys);
    var rest := keys - {k};
    if i == 0 {
      InOrderHolds(rest);
      assert InOrder(keys)[j] == InOrder(rest)[j - 1];
      assert InOrder(rest)[j - 1] in InOrder(rest);
    } else {
      InOrderAscends(rest, i - 1, j - 1);
    }
  }

  /** Sorts by taking the least key again and again. */
  method SortKeys(keys: set<string>) returns (order: seq<string>)
    ensures order == InOrder(keys)
  {
    order := [];
    var left := keys;
    while left != {}
      invariant InOrder(keys) == order + InOrder(left)
      decreases left
    {
      LeastExists(left);
      var k :| IsLeast(k, left);
      LexAntisymmetric(k, Least(left));
      Regroup2(order, [k], InOrder(left - {k}));
      order := order + [k];
      left := left - {k};
    }
  }

  // ---------------------------------------------------------------------
  // Sort and remove repeats
  // ---------------------------------------------------------------------

  predicate Increasing(s: seq<nat>) {
    forall i, j :: 0 <= i < j < |s| ==> s[i] < s[j]
  }

  function Insert(s: seq<nat>, x: nat): seq<nat> {
    if s == [] || x > s[|s| - 1] then s + [x]
    else if x == s[|s| - 1] then s
    else Insert(s[..|s| - 1], x) + [s[|s| - 1]]
  }

  function SortDedup(s: seq<nat>): seq<nat> {
    if s == [] then [] else Insert(SortDedup(s[..|s| - 1]), s[|s| - 1])
  }

  lemma {:induction false} InsertIs(s: seq<nat>, x: nat)
    requires Increasing(s)
    ensures Increasing(Insert(s, x))
    ensures forall y: nat :: y in Insert(s, x) <==> y in s || y == x
  {
    if s != [] && x < s[|s| - 1] {
      var init, last := s[..|s| - 1], s[|s| - 1];
      InsertIs(init, x);
      var r := Insert(init, x);
      assert s == init + [last];
      assert forall y: nat :: y in init ==> y < last;
      forall i | 0 <= i < |r|
        ensures r[i] < last
      {
        assert r[i] in r;
      }
    }
  }

  /** The lines that occur, each once, in increasing order. */
  lemma {:induction false} SortDedupIs(s: seq<nat>)
    ensures Increasing(SortDedup(s))
    ensures forall y: nat :: y in SortDedup(s) <==> y in s
  {
    if s != [] {
      var init, last := s[..|s| - 1], s[|s| - 1];
      SortDedupIs(init);
      InsertIs(SortDedup(init), last);
      assert s == init + [last];
    }
  }
}
