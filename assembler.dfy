/** The priority-keyed line buffer: a map from integer key to one line of
    text, emitted as the values in ascending key order joined by newlines
    (`'\n'.join([value for _, value in sorted(config.items())])`). */
module Assembler {
  import opened Text

  type Config = map<int, string>

  /** Every non-empty finite set of integers has a least element. */
  lemma {:induction false} MinExists(s: set<int>)
    requires s != {}
    ensures exists m :: m in s && forall x :: x in s ==> m <= x
    decreases |s|
  {
    assert exists y :: y in s by {
      if forall y :: y !in s { assert false; }
    }
    var x :| x in s;
    if s != {x} {
      var rest := s - {x};
      MinExists(rest);
      var m :| m in rest && forall y :: y in rest ==> m <= y;
      var least := if x < m then x else m;
      forall y | y in s ensures least <= y {
        if y != x { assert y in rest; }
      }
    } else {
      assert forall y :: y in s ==> y == x;
    }
  }

  /** The least element of a non-empty set of keys. */
  function Min(s: set<int>): (m: int)
    requires s != {}
    ensures m in s && forall x :: x in s ==> m <= x
  {
    MinExists(s);
    var m :| m in s && forall x :: x in s ==> m <= x;
    m
  }

  /** The keys in strictly ascending order, as `sorted` returns them. */
  function SortedKeys(ks: set<int>): (r: seq<int>)
    ensures |r| == |ks|
    ensures forall i :: 0 <= i < |r| ==> r[i] in ks
    ensures forall k :: k in ks ==> k in r
    ensures forall i, j :: 0 <= i < j < |r| ==> r[i] < r[j]
    decreases |ks|
  {
    if ks == {} then []
    else
      var m := Min(ks);
      [m] + SortedKeys(ks - {m})
  }

  predicate StrictlyAscending(r: seq<int>) {
    forall i, j :: 0 <= i < j < |r| ==> r[i] < r[j]
  }

  /** The first element of a strictly ascending sequence is its least. */
  lemma FirstIsLeast(r: seq<int>)
    requires StrictlyAscending(r) && |r| > 0
    ensures forall j :: 0 <= j < |r| ==> r[0] <= r[j]
  {
    forall j | 0 < j < |r| ensures r[0] < r[j] { }
  }

  /** Two strictly ascending sequences with the same elements are equal. */
  lemma {:induction false} AscendingUnique(a: seq<int>, b: seq<int>)
    requires StrictlyAscending(a) && StrictlyAscending(b)
    requires forall x :: x in a <==> x in b
    ensures a == b
    decreases |a|
  {
    if a != [] { assert a[0] in a; }
    if b != [] { assert b[0] in b; }
    if a != [] && b != [] {
      var ja :| 0 <= ja < |b| && b[ja] == a[0];
      var jb :| 0 <= jb < |a| && a[jb] == b[0];
      FirstIsLeast(a);
      FirstIsLeast(b);
      assert b[0] <= b[ja] && a[0] <= a[jb];
      forall x ensures x in a[1..] <==> x in b[1..] {
        if x in a[1..] {
          var j :| 1 <= j < |a| && a[j] == x;
          assert x != a[0];
          assert x in b;
        }
        if x in b[1..] {
          var j :| 1 <= j < |b| && b[j] == x;
          assert x != b[0];
          assert x in a;
        }
      }
      AscendingUnique(a[1..], b[1..]);
    }
  }

  /** `sorted` is determined by the keys: any strictly ascending listing of
      exactly the keys is the one `SortedKeys` returns. */
  lemma SortedKeysAre(ks: set<int>, r: seq<int>)
    requires StrictlyAscending(r)
    requires forall x :: x in r <==> x in ks
    ensures SortedKeys(ks) == r
  {
    AscendingUnique(SortedKeys(ks), r);
  }

  /** The values of `config`, one per key, in ascending key order. */
  function Lines(config: Config): (r: seq<string>)
    ensures |r| == |config|
  {
    var ks := SortedKeys(config.Keys);
    seq(|ks|, i requires 0 <= i < |ks| => config[ks[i]])
  }

  /** Listing the keys in ascending order gives the lines. */
  lemma LinesOfKeys(config: Config, ks: seq<int>)
    requires StrictlyAscending(ks)
    requires forall x :: x in ks <==> x in config
    ensures |Lines(config)| == |ks|
    ensures forall i :: 0 <= i < |ks| ==> Lines(config)[i] == config[ks[i]]
  {
    SortedKeysAre(config.Keys, ks);
  }

  /** The rendered file. */
  function Emit(config: Config): (r: string)
    ensures r == Join(Lines(config), "\n")
    ensures |config| > 0 && (forall k :: k in config ==> '\n' !in config[k]) ==> Split(r, '\n') == Lines(config)
  {
    var lines := Lines(config);
    if |config| > 0 && (forall k :: k in config ==> '\n' !in config[k]) then
      var ks := SortedKeys(config.Keys);
      assert forall i :: 0 <= i < |lines| ==> ks[i] in config && lines[i] == config[ks[i]];
      SplitJoin(lines, '\n');
      Join(lines, "\n")
    else
      Join(lines, "\n")
  }

  /** Of two keys, the smaller one's line comes first. */
  lemma LinesFollowKeyOrder(config: Config, k1: int, k2: int)
    requires k1 in config && k2 in config && k1 < k2
    ensures var ks := SortedKeys(config.Keys);
      exists i, j :: 0 <= i < j < |Lines(config)| && ks[i] == k1 && ks[j] == k2
        && Lines(config)[i] == config[k1] && Lines(config)[j] == config[k2]
  {
    var ks := SortedKeys(config.Keys);
    var i :| 0 <= i < |ks| && ks[i] == k1;
    var j :| 0 <= j < |ks| && ks[j] == k2;
    AscendingIndexOrder(ks, i, j);
    LineAt(config, i);
    LineAt(config, j);
  }

  /** The i-th line is the value of the i-th key in ascending order. */
  lemma LineAt(config: Config, i: int)
    requires 0 <= i < |config|
    ensures var ks := SortedKeys(config.Keys);
      ks[i] in config && Lines(config)[i] == config[ks[i]]
  {
  }

  /** In a strictly ascending sequence the smaller element comes first. */
  lemma AscendingIndexOrder(r: seq<int>, i: int, j: int)
    requires StrictlyAscending(r)
    requires 0 <= i < |r| && 0 <= j < |r| && r[i] < r[j]
    ensures i < j
  {
  }

  /** The line of the least key comes first. */
  lemma FirstLineIsLeastKey(config: Config, k: int)
    requires k in config
    requires forall j :: j in config ==> k <= j
    ensures |Lines(config)| > 0 && Lines(config)[0] == config[k]
    ensures IsPrefix(config[k], Emit(config))
  {
    var ks := SortedKeys(config.Keys);
    assert ks[0] == k;
    JoinFirst(Lines(config), "\n");
  }

  /** The line of the greatest key comes last. */
  lemma LastLineIsGreatestKey(config: Config, k: int)
    requires k in config
    requires forall j :: j in config ==> j <= k
    ensures |Lines(config)| > 0 && Lines(config)[|Lines(config)| - 1] == config[k]
    ensures |Lines(config)| > 1 ==>
      Emit(config) == Join(Lines(config)[..|Lines(config)| - 1], "\n") + "\n" + config[k]
  {
    var ks := SortedKeys(config.Keys);
    var n := |ks|;
    assert ks[n - 1] == k;
    if n > 1 {
      JoinLast(Lines(config), "\n");
    }
  }

  /** A later write to a key replaces its line, wherever the key had been. */
  lemma OverwriteReplacesLine(config: Config, k: int, v: string)
    requires k in config
    ensures |Lines(config[k := v])| == |Lines(config)|
    ensures SortedKeys(config[k := v].Keys) == SortedKeys(config.Keys)
    ensures var ks := SortedKeys(config.Keys);
      forall i :: 0 <= i < |Lines(config)| ==>
        Lines(config[k := v])[i] == if ks[i] == k then v else Lines(config)[i]
  {
    assert config[k := v].Keys == config.Keys;
  }
}
