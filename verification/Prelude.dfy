// Small shared vocabulary: options and finite sequences.

module Prelude {

  datatype Option<+T> = None | Some(value: T) {
    function GetOr(default: T): T {
      match this
      case Some(v) => v
      case None => default
    }

    function OrElse(other: Option<T>): Option<T> {
      if Some? then this else other
    }
  }

  function Min(a: int, b: int): int {
    if a < b then a else b
  }

  function Max(a: int, b: int): int {
    if a < b then b else a
  }

  /** The last n elements of s, or all of s when it is shorter. */
  function LastN<T>(s: seq<T>, n: nat): (r: seq<T>) {
    if |s| <= n then s else s[|s| - n..]
  }

  /** Appending to a capped list and capping again forgets nothing that capping the whole would keep. */
  lemma LastNAbsorbs<T>(s: seq<T>, t: seq<T>, n: nat)
    ensures LastN(LastN(s, n) + t, n) == LastN(s + t, n)
  {
  }

  function Map<A, B>(f: A -> B, s: seq<A>): (r: seq<B>)
    ensures |r| == |s|
    ensures forall i :: 0 <= i < |s| ==> r[i] == f(s[i])
  {
    seq(|s|, i requires 0 <= i < |s| => f(s[i]))
  }

  lemma MapAppend<A, B>(f: A -> B, s: seq<A>, t: seq<A>)
    ensures Map(f, s + t) == Map(f, s) + Map(f, t)
  {
  }

  function Concat<T>(ss: seq<seq<T>>): seq<T> {
    if ss == [] then [] else Concat(ss[..|ss| - 1]) + ss[|ss| - 1]
  }

  lemma {:induction false} ConcatAppend<T>(ss: seq<seq<T>>, tt: seq<seq<T>>)
    ensures Concat(ss + tt) == Concat(ss) + Concat(tt)
    decreases |tt|
  {
    if tt == [] {
      assert ss + tt == ss;
    } else {
      var n := |tt| - 1;
      assert (ss + tt)[..|ss + tt| - 1] == ss + tt[..n];
      ConcatAppend(ss, tt[..n]);
    }
  }

  function FlatMap<A, B>(f: A -> seq<B>, s: seq<A>): seq<B> {
    if s == [] then [] else FlatMap(f, s[..|s| - 1]) + f(s[|s| - 1])
  }

  lemma FlatMapSnoc<A, B>(f: A -> seq<B>, s: seq<A>, i: nat)
    requires i < |s|
    ensures FlatMap(f, s[..i + 1]) == FlatMap(f, s[..i]) + f(s[i])
  {
    assert s[..i + 1][..i] == s[..i];
  }

  lemma {:induction false} FlatMapEmpty<A, B>(f: A -> seq<B>, s: seq<A>)
    ensures FlatMap(f, s) == [] <==> forall i :: 0 <= i < |s| ==> f(s[i]) == []
  {
    if s != [] {
      FlatMapEmpty(f, s[..|s| - 1]);
    }
  }

  lemma {:induction false} FlatMapHolds<A, B>(f: A -> seq<B>, s: seq<A>, b: B)
    ensures b in FlatMap(f, s) <==> exists i :: 0 <= i < |s| && b in f(s[i])
  {
    if s != [] {
      var n := |s| - 1;
      FlatMapHolds(f, s[..n], b);
      if b in FlatMap(f, s[..n]) {
        var i :| 0 <= i < n && b in f(s[..n][i]);
        assert s[i] == s[..n][i];
      }
    }
  }

  lemma {:induction false} FlatMapSame<A, B>(f: A -> seq<B>, g: A -> seq<B>, s: seq<A>)
    requires forall i :: 0 <= i < |s| ==> f(s[i]) == g(s[i])
    ensures FlatMap(f, s) == FlatMap(g, s)
  {
    if s != [] {
      FlatMapSame(f, g, s[..|s| - 1]);
    }
  }

  /** Mapping after flattening is flattening the mapped pieces. */
  lemma {:induction false} FlatMapMap<A, B, C>(f: A -> seq<C>, g: B -> C, h: A -> seq<B>, s: seq<A>)
    requires forall i :: 0 <= i < |s| ==> f(s[i]) == Map(g, h(s[i]))
    ensures FlatMap(f, s) == Map(g, FlatMap(h, s))
  {
    if s != [] {
      var n := |s| - 1;
      FlatMapMap(f, g, h, s[..n]);
      MapAppend(g, FlatMap(h, s[..n]), h(s[n]));
    }
  }

  lemma MapHolds<A, B>(f: A -> B, s: seq<A>, b: B)
    ensures b in Map(f, s) <==> exists i :: 0 <= i < |s| && f(s[i]) == b
  {
    if b in Map(f, s) {
      var i :| 0 <= i < |s| && Map(f, s)[i] == b;
      assert f(s[i]) == b;
    }
    if exists i :: 0 <= i < |s| && f(s[i]) == b {
      var i :| 0 <= i < |s| && f(s[i]) == b;
      assert Map(f, s)[i] == b;
    }
  }

  lemma Regroup2<T>(s: seq<T>, a: seq<T>, b: seq<T>)
    ensures s + a + b == s + (a + b)
  {
  }

  lemma Regroup3<T>(s: seq<T>, a: seq<T>, b: seq<T>, c: seq<T>)
    ensures s + a + b + c == s + (a + b + c)
  {
  }

  lemma Regroup4<T>(s: seq<T>, a: seq<T>, b: seq<T>, c: seq<T>, d: seq<T>)
    ensures s + a + b + c + d == s + (a + b + c + d)
  {
  }

  /** When every piece is a single element, flattening keeps the positions. */
  lemma {:induction false} FlatMapSingletons<A, B>(f: A -> seq<B>, s: seq<A>)
    requires forall i :: 0 <= i < |s| ==> |f(s[i])| == 1
    ensures |FlatMap(f, s)| == |s| && forall i :: 0 <= i < |s| ==> FlatMap(f, s)[i] == f(s[i])[0]
  {
    if s != [] {
      FlatMapSingletons(f, s[..|s| - 1]);
    }
  }

  lemma {:induction false} FlatMapOfMap<A, B, C>(f: B -> seq<C>, g: A -> B, h: A -> seq<C>, s: seq<A>)
    requires forall i :: 0 <= i < |s| ==> h(s[i]) == f(g(s[i]))
    ensures FlatMap(f, Map(g, s)) == FlatMap(h, s)
  {
    if s != [] {
      var n := |s| - 1;
      FlatMapOfMap(f, g, h, s[..n]);
      assert Map(g, s)[..n] == Map(g, s[..n]);
    }
  }

  /** The piece of one element stands between those of the elements before and after it. */
  lemma {:induction false} FlatMapAt<A, B>(f: A -> seq<B>, s: seq<A>, i: nat)
    requires i < |s|
    ensures FlatMap(f, s) == FlatMap(f, s[..i]) + f(s[i]) + FlatMap(f, s[i + 1..])
    decreases |s|
  {
    var n := |s| - 1;
    if i < n {
      FlatMapAt(f, s[..n], i);
      assert s[..n][..i] == s[..i];
      assert s[i + 1..][..n - i - 1] == s[..n][i + 1..];
      Regroup2(FlatMap(f, s[..i]) + f(s[i]), FlatMap(f, s[..n][i + 1..]), f(s[n]));
    } else {
      assert s[i + 1..] == [];
    }
  }

  // ---------------------------------------------------------------------
  // Text between separators
  // ---------------------------------------------------------------------

  /** The pieces between separators; a trailing separator yields a last empty piece. */
  function Split(s: string, sep: char): (r: seq<string>)
    ensures r != []
    ensures forall i :: 0 <= i < |r| ==> sep !in r[i]
  {
    if s == "" then [""]
    else
      var init, c := Split(s[..|s| - 1], sep), s[|s| - 1];
      if c == sep then init + [""]
      else init[..|init| - 1] + [init[|init| - 1] + [c]]
  }

  lemma ReplaceLast(x: seq<string>, y: seq<string>, z: string)
    requires y != []
    ensures (x + y)[..|x + y| - 1] + [z] == x + (y[..|y| - 1] + [z])
  {
  }

  lemma SplitSnoc(s: string, sep: char, c: char)
    ensures var p := Split(s, sep);
            Split(s + [c], sep) == if c == sep then p + [""] else p[..|p| - 1] + [p[|p| - 1] + [c]]
  {
    assert (s + [c])[..|s|] == s;
  }

  lemma {:induction false} SplitAppend(a: string, sep: char, b: string)
    ensures Split(a + [sep] + b, sep) == Split(a, sep) + Split(b, sep)
    decreases |b|
  {
    if b == "" {
      SplitSnoc(a, sep, sep);
      assert a + [sep] + b == a + [sep];
    } else {
      var b', c := b[..|b| - 1], b[|b| - 1];
      assert b == b' + [c];
      assert a + [sep] + b == (a + [sep] + b') + [c];
      SplitAppend(a, sep, b');
      SplitSnoc(a + [sep] + b', sep, c);
      SplitSnoc(b', sep, c);
      var x, y := Split(a, sep), Split(b', sep);
      if c == sep {
        assert (x + y) + [""] == x + (y + [""]);
      } else {
        ReplaceLast(x, y, y[|y| - 1] + [c]);
      }
    }
  }

  /** Without a separator there is one piece, the text itself. */
  lemma {:induction false} SplitOnePiece(s: string, sep: char)
    requires sep !in s
    ensures Split(s, sep) == [s]
  {
    if s != "" {
      SplitOnePiece(s[..|s| - 1], sep);
      assert s == s[..|s| - 1] + [s[|s| - 1]];
    }
  }

  // ---------------------------------------------------------------------
  // The last value a log supplies
  // ---------------------------------------------------------------------

  /** The last value `seen` extracts from the log, or the initial one when it extracts none. */
  function LastSeen<E, T>(initial: Option<T>, seen: E -> Option<T>, log: seq<E>): Option<T> {
    if log == [] then initial
    else seen(log[|log| - 1]).OrElse(LastSeen(initial, seen, log[..|log| - 1]))
  }

  /** A value supplied at i and never after is the last; with nothing supplied from 0 on, the initial one stays. */
  lemma {:induction false} LastSeenIsLast<E, T>(initial: Option<T>, seen: E -> Option<T>, log: seq<E>, i: nat)
    requires i <= |log| && forall j :: i <= j < |log| ==> seen(log[j]).None?
    ensures i == 0 ==> LastSeen(initial, seen, log) == initial
    ensures i > 0 && seen(log[i - 1]).Some? ==> LastSeen(initial, seen, log) == seen(log[i - 1])
  {
    if i < |log| {
      LastSeenIsLast(initial, seen, log[..|log| - 1], i);
    }
  }
}
