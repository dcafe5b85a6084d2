/** Coalescing of unit wall edges into runs, as done by the reconstructive
    importer (src/runtime/importScene3D.js: coalesceHorizontalEdges,
    coalesceVerticalEdges, countHorizontalRuns, countVerticalRuns).

    The two coalescers are mirror images: horizontal edges are grouped by y and
    merged along x, vertical edges grouped by x and merged along y. Both are
    modelled by one method over an `Orientation`. The method is proved equal to
    the specification function `Coalesced`; the properties the importer relies
    on are lemmas about `Coalesced`. */
module ImportRuns {
  import opened Scene

  /** A half-open run [start, end) along the free axis at a fixed coordinate:
      {startX, endX, y} for horizontal runs, {startY, endY, x} for vertical. */
  datatype Run = Run(start: int, end: int, fixed: int)

  /** The coordinate edges are grouped by: y for horizontal, x for vertical. */
  function FixedOf(e: Cell, o: Orientation): int {
    if o.Horizontal? then e.y else e.x
  }

  /** The coordinate runs extend along: x for horizontal, y for vertical. */
  function FreeOf(e: Cell, o: Orientation): int {
    if o.Horizontal? then e.x else e.y
  }

  /** The edge whose fixed and free coordinates are `fixed` and `free`. */
  function EdgeAt(o: Orientation, fixed: int, free: int): (e: Cell)
    ensures FixedOf(e, o) == fixed && FreeOf(e, o) == free
  {
    if o.Horizontal? then Cell(free, fixed) else Cell(fixed, free)
  }

  predicate Distinct<T(==)>(s: seq<T>) {
    forall i, j :: 0 <= i < j < |s| ==> s[i] != s[j]
  }

  predicate Sorted(s: seq<int>) {
    forall i, j :: 0 <= i < j < |s| ==> s[i] <= s[j]
  }

  predicate StrictlySorted(s: seq<int>) {
    forall i, j :: 0 <= i < j < |s| ==> s[i] < s[j]
  }

  // ---------------------------------------------------------------------------
  // Numeric sort: `xValues.sort((a, b) => a - b)`

  /** Inserts `x` before the first element not smaller than it. */
  function Insert(x: int, s: seq<int>): seq<int> {
    if s == [] then [x]
    else if x <= s[0] then [x] + s
    else [s[0]] + Insert(x, s[1..])
  }

  /** Ascending numeric order. */
  function SortAsc(s: seq<int>): seq<int> {
    if s == [] then [] else Insert(s[0], SortAsc(s[1..]))
  }

  lemma {:induction false} InsertMultiset(x: int, s: seq<int>)
    ensures multiset(Insert(x, s)) == multiset(s) + multiset{x}
  {
    if s != [] && x > s[0] {
      InsertMultiset(x, s[1..]);
      assert s == [s[0]] + s[1..];
    }
  }

  lemma InsertMembers(x: int, s: seq<int>)
    ensures forall v :: v in Insert(x, s) <==> v == x || v in s
  {
    InsertMultiset(x, s);
    assert forall v :: v in Insert(x, s) <==> v in multiset(Insert(x, s));
  }

  lemma {:induction false} InsertSorted(x: int, s: seq<int>)
    requires Sorted(s)
    ensures Sorted(Insert(x, s))
  {
    if s != [] {
      if x <= s[0] {
        var r := [x] + s;
        forall i, j | 0 <= i < j < |r|
          ensures r[i] <= r[j]
        {
          if i == 0 {
            assert r[j] == s[j - 1];
          } else {
            assert r[i] == s[i - 1] && r[j] == s[j - 1];
          }
        }
      } else {
        var tail := s[1..];
        InsertSorted(x, tail);
        InsertMembers(x, tail);
        var t := Insert(x, tail);
        var r := [s[0]] + t;
        forall i, j | 0 <= i < j < |r|
          ensures r[i] <= r[j]
        {
          assert r[j] == t[j - 1];
          if i == 0 {
            assert t[j - 1] in t;
            if t[j - 1] != x {
              var m :| 0 <= m < |tail| && tail[m] == t[j - 1];
              assert s[m + 1] == tail[m];
            }
          } else {
            assert r[i] == t[i - 1];
          }
        }
      }
    }
  }

  lemma {:induction false} InsertStrictlySorted(x: int, s: seq<int>)
    requires StrictlySorted(s) && x !in s
    ensures StrictlySorted(Insert(x, s))
  {
    if s != [] {
      if x < s[0] {
        var r := [x] + s;
        forall i, j | 0 <= i < j < |r|
          ensures r[i] < r[j]
        {
          if i == 0 {
            assert r[j] == s[j - 1];
          } else {
            assert r[i] == s[i - 1] && r[j] == s[j - 1];
          }
        }
      } else {
        assert x != s[0];
        var tail := s[1..];
        forall m | 0 <= m < |tail|
          ensures tail[m] != x
        {
          assert tail[m] == s[m + 1];
        }
        InsertStrictlySorted(x, tail);
        InsertMembers(x, tail);
        var t := Insert(x, tail);
        var r := [s[0]] + t;
        forall i, j | 0 <= i < j < |r|
          ensures r[i] < r[j]
        {
          assert r[j] == t[j - 1];
          if i == 0 {
            assert t[j - 1] in t;
            if t[j - 1] != x {
              var m :| 0 <= m < |tail| && tail[m] == t[j - 1];
              assert s[m + 1] == tail[m];
            }
          } else {
            assert r[i] == t[i - 1];
          }
        }
      }
    }
  }

  /** The sort is a permutation of its input. */
  lemma {:induction false} SortAscPermutes(s: seq<int>)
    ensures multiset(SortAsc(s)) == multiset(s)
  {
    if s != [] {
      SortAscPermutes(s[1..]);
      InsertMultiset(s[0], SortAsc(s[1..]));
      assert s == [s[0]] + s[1..];
    }
  }

  /** The sort's output is ascending. */
  lemma {:induction false} SortAscSorted(s: seq<int>)
    ensures Sorted(SortAsc(s))
  {
    if s != [] {
      SortAscSorted(s[1..]);
      InsertSorted(s[0], SortAsc(s[1..]));
    }
  }

  /** Without repeated values the sort's output is strictly ascending. */
  lemma {:induction false} SortAscStrict(s: seq<int>)
    requires Distinct(s)
    ensures StrictlySorted(SortAsc(s))
  {
    if s != [] {
      var tail := s[1..];
      assert Distinct(tail) by {
        forall i, j | 0 <= i < j < |tail|
          ensures tail[i] != tail[j]
        {
          assert tail[i] == s[i + 1] && tail[j] == s[j + 1];
        }
      }
      SortAscStrict(tail);
      SortAscPermutes(tail);
      forall m | 0 <= m < |tail|
        ensures tail[m] != s[0]
      {
        assert tail[m] == s[m + 1];
      }
      assert s[0] !in multiset(tail);
      InsertStrictlySorted(s[0], SortAsc(tail));
    }
  }

  /** The sort is a permutation into ascending order, strictly ascending when
      no value repeats. */
  lemma SortAscFacts(s: seq<int>)
    ensures multiset(SortAsc(s)) == multiset(s)
    ensures Sorted(SortAsc(s))
    ensures Distinct(s) ==> StrictlySorted(SortAsc(s))
  {
    SortAscPermutes(s);
    SortAscSorted(s);
    if Distinct(s) {
      SortAscStrict(s);
    }
  }

  // ---------------------------------------------------------------------------
  // Grouping: the `edgesByY` / `edgesByX` dictionary and its key order

  /** The distinct fixed coordinates, in order of first occurrence. */
  function Keys(edges: seq<Cell>, o: Orientation): seq<int> {
    if edges == [] then []
    else
      var ks := Keys(edges[..|edges| - 1], o);
      var k := FixedOf(edges[|edges| - 1], o);
      if k in ks then ks else ks + [k]
  }

  /** The free coordinates of the edges at fixed coordinate `k`, in input order. */
  function Group(edges: seq<Cell>, o: Orientation, k: int): seq<int> {
    if edges == [] then []
    else
      var e := edges[|edges| - 1];
      Group(edges[..|edges| - 1], o, k) + (if FixedOf(e, o) == k then [FreeOf(e, o)] else [])
  }

  function NonNegatives(ks: seq<int>): seq<int> {
    if ks == [] then [] else (if ks[0] >= 0 then [ks[0]] else []) + NonNegatives(ks[1..])
  }

  function Negatives(ks: seq<int>): seq<int> {
    if ks == [] then [] else (if ks[0] < 0 then [ks[0]] else []) + Negatives(ks[1..])
  }

  /** `Object.keys` of a dictionary keyed by integers inserted in order `ks`:
      the keys that are array indices (the non-negative ones) in ascending
      order, then the others in insertion order. */
  function ObjectKeyOrder(ks: seq<int>): seq<int> {
    SortAsc(NonNegatives(ks)) + Negatives(ks)
  }

  /** Some edge has fixed coordinate `k`. */
  predicate HasFixed(edges: seq<Cell>, o: Orientation, k: int) {
    exists i :: 0 <= i < |edges| && FixedOf(edges[i], o) == k
  }

  /** Every fixed coordinate occurring in the input is a key, exactly once. */
  lemma {:induction false} KeysFacts(edges: seq<Cell>, o: Orientation)
    ensures Distinct(Keys(edges, o))
    ensures forall k :: k in Keys(edges, o) <==> HasFixed(edges, o, k)
  {
    if edges != [] {
      var init := edges[..|edges| - 1];
      KeysFacts(init, o);
      forall k | HasFixed(edges, o, k)
        ensures k in Keys(edges, o)
      {
        var i :| 0 <= i < |edges| && FixedOf(edges[i], o) == k;
        if i < |edges| - 1 {
          assert FixedOf(init[i], o) == k;
        }
      }
      forall k | k in Keys(edges, o)
        ensures HasFixed(edges, o, k)
      {
        if k in Keys(init, o) {
          var i :| 0 <= i < |init| && FixedOf(init[i], o) == k;
          assert FixedOf(edges[i], o) == k;
        }
      }
    }
  }

  lemma KeysDistinct(edges: seq<Cell>, o: Orientation)
    ensures Distinct(Keys(edges, o))
  {
    KeysFacts(edges, o);
  }

  /** A value is in a group exactly when an edge with that fixed and free
      coordinate is in the input. */
  lemma {:induction false} GroupMembers(edges: seq<Cell>, o: Orientation, k: int)
    ensures forall v :: v in Group(edges, o, k) <==> EdgeAt(o, k, v) in edges
    ensures |Group(edges, o, k)| <= |edges|
  {
    if edges != [] {
      var init := edges[..|edges| - 1];
      GroupMembers(init, o, k);
      assert edges == init + [edges[|edges| - 1]];
      forall v
        ensures v in Group(edges, o, k) <==> EdgeAt(o, k, v) in edges
      {
        var e := edges[|edges| - 1];
        if FixedOf(e, o) == k && FreeOf(e, o) == v {
          assert e == EdgeAt(o, k, v);
        }
      }
    }
  }

  lemma {:induction false} GroupNonEmpty(edges: seq<Cell>, o: Orientation, k: int)
    ensures Group(edges, o, k) != [] <==> k in Keys(edges, o)
  {
    KeysFacts(edges, o);
    GroupMembers(edges, o, k);
    if Group(edges, o, k) != [] {
      var v := Group(edges, o, k)[0];
      assert EdgeAt(o, k, v) in edges;
      var i :| 0 <= i < |edges| && edges[i] == EdgeAt(o, k, v);
      assert FixedOf(edges[i], o) == k;
    }
    if k in Keys(edges, o) {
      var i :| 0 <= i < |edges| && FixedOf(edges[i], o) == k;
      assert EdgeAt(o, k, FreeOf(edges[i], o)) == edges[i];
      assert FreeOf(edges[i], o) in Group(edges, o, k);
    }
  }

  /** Without duplicate edges no group repeats a value. */
  lemma {:induction false} GroupDistinct(edges: seq<Cell>, o: Orientation, k: int)
    requires Distinct(edges)
    ensures Distinct(Group(edges, o, k))
  {
    if edges != [] {
      var init := edges[..|edges| - 1];
      var e := edges[|edges| - 1];
      DistinctInit(edges);
      GroupDistinct(init, o, k);
      if FixedOf(e, o) == k {
        GroupMembers(init, o, k);
        assert EdgeAt(o, k, FreeOf(e, o)) == e;
        var g := Group(init, o, k);
        assert FreeOf(e, o) !in g;
        var r := g + [FreeOf(e, o)];
        forall i, j | 0 <= i < j < |r|
          ensures r[i] != r[j]
        {
          if j == |g| {
            assert r[i] in g;
          }
        }
      }
    }
  }

  /** Dropping the first or the last element keeps a sequence duplicate-free,
      and the dropped element occurs nowhere else. */
  lemma DistinctTail<T>(s: seq<T>)
    requires Distinct(s) && s != []
    ensures Distinct(s[1..]) && s[0] !in s[1..]
  {
    forall i, j | 0 <= i < j < |s| - 1
      ensures s[1..][i] != s[1..][j]
    {
      assert s[1..][i] == s[i + 1] && s[1..][j] == s[j + 1];
    }
    forall m | 0 <= m < |s| - 1
      ensures s[1..][m] != s[0]
    {
      assert s[1..][m] == s[m + 1];
    }
  }

  lemma DistinctInit<T>(s: seq<T>)
    requires Distinct(s) && s != []
    ensures Distinct(s[..|s| - 1]) && s[|s| - 1] !in s[..|s| - 1]
  {
    var init := s[..|s| - 1];
    forall m | 0 <= m < |init|
      ensures init[m] != s[|s| - 1]
    {
      assert init[m] == s[m];
    }
  }

  lemma {:induction false} SplitBySign(ks: seq<int>)
    ensures forall k :: k in NonNegatives(ks) <==> k in ks && k >= 0
    ensures forall k :: k in Negatives(ks) <==> k in ks && k < 0
    ensures Distinct(ks) ==> Distinct(NonNegatives(ks)) && Distinct(Negatives(ks))
  {
    if ks != [] {
      var tail := ks[1..];
      SplitBySign(tail);
      assert ks == [ks[0]] + tail;
      assert forall k :: k in ks <==> k == ks[0] || k in tail;
      if Distinct(ks) {
        DistinctTail(ks);
        var nn := NonNegatives(tail);
        var ng := Negatives(tail);
        assert ks[0] !in nn && ks[0] !in ng;
        PrependDistinct(ks[0], nn);
        PrependDistinct(ks[0], ng);
      }
    }
  }

  lemma PrependDistinct(x: int, s: seq<int>)
    requires Distinct(s) && x !in s
    ensures Distinct([x] + s)
  {
    var r := [x] + s;
    forall i, j | 0 <= i < j < |r|
      ensures r[i] != r[j]
    {
      assert r[j] == s[j - 1];
      if i > 0 {
        assert r[i] == s[i - 1];
      }
    }
  }

  /** Joining two lists without repeats and without common values gives a
      list without repeats. */
  lemma DistinctConcat(a: seq<int>, b: seq<int>)
    requires Distinct(a) && Distinct(b)
    requires forall x :: x in a ==> x !in b
    ensures Distinct(a + b)
  {
    var all := a + b;
    forall i, j | 0 <= i < j < |all|
      ensures all[i] != all[j]
    {
      if j < |a| {
        assert all[i] == a[i] && all[j] == a[j];
      } else if i >= |a| {
        assert all[i] == b[i - |a|] && all[j] == b[j - |a|];
      } else {
        assert all[i] == a[i] && a[i] in a;
        assert all[j] == b[j - |a|] && b[j - |a|] in b;
      }
    }
  }

  /** Object.keys visits every key exactly once. */
  lemma ObjectKeyOrderFacts(ks: seq<int>)
    requires Distinct(ks)
    ensures Distinct(ObjectKeyOrder(ks))
    ensures forall k :: k in ObjectKeyOrder(ks) <==> k in ks
  {
    SplitBySign(ks);
    var nn := NonNegatives(ks);
    SortAscPermutes(nn);
    SortAscStrict(nn);
    var sorted := SortAsc(nn);
    forall k | k in sorted
      ensures k in nn && k >= 0
    {
      assert k in multiset(sorted);
    }
    forall k | k in nn
      ensures k in sorted
    {
      assert k in multiset(nn);
    }
    DistinctConcat(sorted, Negatives(ks));
  }

  // ---------------------------------------------------------------------------
  // Merging one sorted group into runs

  /** The merge loop's state after a prefix of the values: the runs already
      pushed and the open run [start, end). */
  datatype MergeState = MergeState(closed: seq<Run>, start: int, end: int)

  /** The state of the merge loop after it has consumed all of `xs`: a value
      equal to the open run's end extends it, any other value closes it and
      opens a new one. */
  function Merge(xs: seq<int>, k: int): MergeState
    requires |xs| >= 1
  {
    if |xs| == 1 then MergeState([], xs[0], xs[0] + 1)
    else
      var st := Merge(xs[..|xs| - 1], k);
      var x := xs[|xs| - 1];
      if x == st.end then MergeState(st.closed, st.start, st.end + 1)
      else MergeState(st.closed + [Run(st.start, st.end, k)], x, x + 1)
  }

  /** All runs pushed for one group of values. */
  function GroupRuns(xs: seq<int>, k: int): seq<Run> {
    if xs == [] then []
    else
      var st := Merge(xs, k);
      st.closed + [Run(st.start, st.end, k)]
  }

  /** Some run at fixed coordinate `k` contains `v`. */
  predicate Covers(runs: seq<Run>, k: int, v: int) {
    exists i :: 0 <= i < |runs| && runs[i].fixed == k && runs[i].start <= v < runs[i].end
  }

  /** Runs at the same fixed coordinate appear in ascending order with a gap
      of at least one between consecutive ones. */
  predicate Separated(runs: seq<Run>) {
    forall i, j :: 0 <= i < j < |runs| && runs[i].fixed == runs[j].fixed ==> runs[i].end < runs[j].start
  }

  predicate NonEmptyRuns(runs: seq<Run>) {
    forall i :: 0 <= i < |runs| ==> runs[i].start < runs[i].end
  }

  /** Total length of the runs. */
  function TotalLength(runs: seq<Run>): int {
    if runs == [] then 0 else TotalLength(runs[..|runs| - 1]) + (runs[|runs| - 1].end - runs[|runs| - 1].start)
  }

  lemma {:induction false} TotalLengthAppend(a: seq<Run>, b: seq<Run>)
    ensures TotalLength(a + b) == TotalLength(a) + TotalLength(b)
    decreases |b|
  {
    if b == [] {
      assert a + b == a;
    } else {
      var ab := a + b;
      assert ab[..|ab| - 1] == a + b[..|b| - 1];
      assert ab[|ab| - 1] == b[|b| - 1];
      TotalLengthAppend(a, b[..|b| - 1]);
    }
  }

  lemma CoversAppend(a: seq<Run>, b: seq<Run>, k: int, v: int)
    ensures Covers(a + b, k, v) <==> Covers(a, k, v) || Covers(b, k, v)
  {
    if Covers(a + b, k, v) {
      var i :| 0 <= i < |a + b| && (a + b)[i].fixed == k && (a + b)[i].start <= v < (a + b)[i].end;
      if i >= |a| {
        assert b[i - |a|] == (a + b)[i];
      }
    }
    if Covers(a, k, v) {
      var i :| 0 <= i < |a| && a[i].fixed == k && a[i].start <= v < a[i].end;
      assert (a + b)[i] == a[i];
    }
    if Covers(b, k, v) {
      var i :| 0 <= i < |b| && b[i].fixed == k && b[i].start <= v < b[i].end;
      assert (a + b)[|a| + i] == b[i];
    }
  }

  lemma CoversSingle(r: Run, k: int, v: int)
    ensures Covers([r], k, v) <==> r.fixed == k && r.start <= v < r.end
  {
    if r.fixed == k && r.start <= v < r.end {
      assert [r][0] == r;
    }
  }

  /** Every run ends before `x`. */
  predicate EndsBefore(runs: seq<Run>, x: int) {
    forall i :: 0 <= i < |runs| ==> runs[i].end < x
  }

  lemma SeparatedSnoc(runs: seq<Run>, r: Run)
    requires Separated(runs) && EndsBefore(runs, r.start)
    ensures Separated(runs + [r])
  {
    var s := runs + [r];
    forall i, j | 0 <= i < j < |s| && s[i].fixed == s[j].fixed
      ensures s[i].end < s[j].start
    {
      assert s[i] == runs[i];
      if j < |runs| {
        assert s[j] == runs[j];
      }
    }
  }

  lemma EndsBeforeSnoc(runs: seq<Run>, r: Run, x: int)
    requires EndsBefore(runs, x) && r.end < x
    ensures EndsBefore(runs + [r], x)
  {
    var s := runs + [r];
    forall i | 0 <= i < |s|
      ensures s[i].end < x
    {
      if i < |runs| {
        assert s[i] == runs[i];
      }
    }
  }

  /** Concatenating a block of runs at `k` to runs at other coordinates keeps
      the whole separated. */
  lemma SeparatedBlocks(a: seq<Run>, b: seq<Run>, k: int)
    requires Separated(a) && Separated(b)
    requires forall i :: 0 <= i < |a| ==> a[i].fixed != k
    requires forall i :: 0 <= i < |b| ==> b[i].fixed == k
    ensures Separated(a + b)
  {
    var s := a + b;
    forall i, j | 0 <= i < j < |s| && s[i].fixed == s[j].fixed
      ensures s[i].end < s[j].start
    {
      if j < |a| {
        assert s[i] == a[i] && s[j] == a[j];
      } else if i < |a| {
        assert false;
      } else {
        assert s[i] == b[i - |a|] && s[j] == b[j - |a|];
      }
    }
  }

  /** The shape of the merge state: the open run is non-empty and ends just
      past the last value; the closed runs are non-empty, lie at `k` and are
      fewer than the values. */
  lemma {:induction false} MergeShape(xs: seq<int>, k: int)
    requires |xs| >= 1
    ensures var st := Merge(xs, k);
      && st.start < st.end && st.end == xs[|xs| - 1] + 1
      && NonEmptyRuns(st.closed)
      && (forall i :: 0 <= i < |st.closed| ==> st.closed[i].fixed == k)
      && |st.closed| < |xs|
  {
    if |xs| > 1 {
      MergeShape(xs[..|xs| - 1], k);
    }
  }

  /** The closed runs together with the open one cover exactly the values
      seen, whatever their order. */
  lemma {:induction false} MergeCovers(xs: seq<int>, k: int)
    requires |xs| >= 1
    ensures var st := Merge(xs, k);
      forall v :: v in xs <==> Covers(st.closed, k, v) || st.start <= v < st.end
  {
    if |xs| > 1 {
      var init := xs[..|xs| - 1];
      var x := xs[|xs| - 1];
      MergeCovers(init, k);
      MergeShape(init, k);
      var st := Merge(init, k);
      assert xs == init + [x];
      assert forall v :: v in xs <==> v in init || v == x;
      if x != st.end {
        var r := Run(st.start, st.end, k);
        forall v
          ensures Covers(st.closed + [r], k, v) <==> Covers(st.closed, k, v) || st.start <= v < st.end
        {
          CoversAppend(st.closed, [r], k, v);
          CoversSingle(r, k, v);
        }
      }
    }
  }

  /** On a strictly ascending group the closed runs are separated, all end
      before the open run starts, and the lengths add up to the number of
      values. */
  lemma {:induction false} MergeSeparates(xs: seq<int>, k: int)
    requires |xs| >= 1 && StrictlySorted(xs)
    ensures var st := Merge(xs, k);
      && Separated(st.closed)
      && EndsBefore(st.closed, st.start)
      && TotalLength(st.closed) + (st.end - st.start) == |xs|
  {
    if |xs| > 1 {
      var init := xs[..|xs| - 1];
      var x := xs[|xs| - 1];
      assert StrictlySorted(init) by {
        forall i, j | 0 <= i < j < |init|
          ensures init[i] < init[j]
        {
          assert init[i] == xs[i] && init[j] == xs[j];
        }
      }
      MergeSeparates(init, k);
      MergeShape(init, k);
      var st := Merge(init, k);
      assert init[|init| - 1] == xs[|xs| - 2];
      assert x >= st.end;
      if x != st.end {
        var r := Run(st.start, st.end, k);
        SeparatedSnoc(st.closed, r);
        EndsBeforeSnoc(st.closed, r, x);
        TotalLengthAppend(st.closed, [r]);
        assert [r][..0] == [];
      }
    }
  }

  /** The runs of one group: non-empty, at `k`, covering exactly the group's
      values, at least one and no more runs than values; and for a strictly
      ascending group, separated and of total length equal to the number of
      values. */
  lemma GroupRunsFacts(xs: seq<int>, k: int)
    ensures NonEmptyRuns(GroupRuns(xs, k))
    ensures forall i :: 0 <= i < |GroupRuns(xs, k)| ==> GroupRuns(xs, k)[i].fixed == k
    ensures forall v :: v in xs <==> Covers(GroupRuns(xs, k), k, v)
    ensures |GroupRuns(xs, k)| <= |xs|
    ensures xs != [] ==> |GroupRuns(xs, k)| >= 1
    ensures StrictlySorted(xs) ==> Separated(GroupRuns(xs, k)) && TotalLength(GroupRuns(xs, k)) == |xs|
  {
    if xs != [] {
      MergeShape(xs, k);
      MergeCovers(xs, k);
      var st := Merge(xs, k);
      var r := Run(st.start, st.end, k);
      var runs := st.closed + [r];
      forall v
        ensures v in xs <==> Covers(runs, k, v)
      {
        CoversAppend(st.closed, [r], k, v);
        CoversSingle(r, k, v);
      }
      forall i | 0 <= i < |runs|
        ensures runs[i].start < runs[i].end && runs[i].fixed == k
      {
        if i < |st.closed| {
          assert runs[i] == st.closed[i];
        }
      }
      if StrictlySorted(xs) {
        MergeSeparates(xs, k);
        SeparatedSnoc(st.closed, r);
        TotalLengthAppend(st.closed, [r]);
        assert [r][..0] == [];
      }
    }
  }

  // ---------------------------------------------------------------------------
  // All groups, in Object.keys order

  /** The runs pushed for the keys `ks`, in that order, each group sorted
      numerically before merging. */
  function RunsForKeys(edges: seq<Cell>, o: Orientation, ks: seq<int>): seq<Run> {
    if ks == [] then []
    else
      var k := ks[|ks| - 1];
      RunsForKeys(edges, o, ks[..|ks| - 1]) + GroupRuns(SortAsc(Group(edges, o, k)), k)
  }

  /** The runs coalesceHorizontalEdges / coalesceVerticalEdges return. */
  function Coalesced(edges: seq<Cell>, o: Orientation): seq<Run> {
    RunsForKeys(edges, o, ObjectKeyOrder(Keys(edges, o)))
  }

  /** Sum of the group sizes over the keys `ks`. */
  function GroupSizes(edges: seq<Cell>, o: Orientation, ks: seq<int>): int {
    if ks == [] then 0 else GroupSizes(edges, o, ks[..|ks| - 1]) + |Group(edges, o, ks[|ks| - 1])|
  }

  lemma {:induction false} GroupSizesEmpty(o: Orientation, ks: seq<int>)
    ensures GroupSizes([], o, ks) == 0
  {
    if ks != [] {
      GroupSizesEmpty(o, ks[..|ks| - 1]);
    }
  }

  lemma {:induction false} GroupSizesSnoc(edges: seq<Cell>, e: Cell, o: Orientation, ks: seq<int>)
    requires Distinct(ks)
    ensures GroupSizes(edges + [e], o, ks) == GroupSizes(edges, o, ks) + (if FixedOf(e, o) in ks then 1 else 0)
  {
    var s := edges + [e];
    assert s[..|s| - 1] == edges;
    if ks != [] {
      var init := ks[..|ks| - 1];
      DistinctInit(ks);
      GroupSizesSnoc(edges, e, o, init);
      assert ks == init + [ks[|ks| - 1]];
    }
  }

  /** Every edge lands in exactly one group when `ks` lists each key once. */
  lemma {:induction false} GroupSizesTotal(edges: seq<Cell>, o: Orientation, ks: seq<int>)
    requires Distinct(ks)
    requires forall i :: 0 <= i < |edges| ==> FixedOf(edges[i], o) in ks
    ensures GroupSizes(edges, o, ks) == |edges|
  {
    if edges == [] {
      GroupSizesEmpty(o, ks);
    } else {
      var init := edges[..|edges| - 1];
      var e := edges[|edges| - 1];
      assert edges == init + [e];
      forall i | 0 <= i < |init|
        ensures FixedOf(init[i], o) in ks
      {
        assert init[i] == edges[i];
      }
      GroupSizesTotal(init, o, ks);
      GroupSizesSnoc(init, e, o, ks);
    }
  }

  lemma SortAscMembers(s: seq<int>)
    ensures |SortAsc(s)| == |s|
    ensures forall v :: v in SortAsc(s) <==> v in s
  {
    SortAscFacts(s);
    assert |multiset(SortAsc(s))| == |multiset(s)|;
    assert forall v :: v in SortAsc(s) <==> v in multiset(SortAsc(s));
  }

  /** The runs for any key list are non-empty, lie at listed keys, and are no
      more than the values grouped under those keys. */
  lemma {:induction false} RunsForKeysShape(edges: seq<Cell>, o: Orientation, ks: seq<int>)
    ensures var runs := RunsForKeys(edges, o, ks);
      && NonEmptyRuns(runs)
      && (forall i :: 0 <= i < |runs| ==> runs[i].fixed in ks)
      && |runs| <= GroupSizes(edges, o, ks)
  {
    if ks != [] {
      var init := ks[..|ks| - 1];
      var k := ks[|ks| - 1];
      RunsForKeysShape(edges, o, init);
      SortAscMembers(Group(edges, o, k));
      var xs := SortAsc(Group(edges, o, k));
      GroupRunsFacts(xs, k);
      var before := RunsForKeys(edges, o, init);
      var block := GroupRuns(xs, k);
      var runs := before + block;
      assert ks == init + [k];
      forall i | 0 <= i < |runs|
        ensures runs[i].start < runs[i].end && runs[i].fixed in ks
      {
        if i < |before| {
          assert runs[i] == before[i];
        } else {
          assert runs[i] == block[i - |before|];
        }
      }
    }
  }

  /** A run at `k` covers `v` exactly when `k` is listed and the edge is in
      the input. */
  lemma {:induction false} RunsForKeysCovers(edges: seq<Cell>, o: Orientation, ks: seq<int>)
    ensures forall k, v :: Covers(RunsForKeys(edges, o, ks), k, v) <==> k in ks && EdgeAt(o, k, v) in edges
  {
    if ks != [] {
      var init := ks[..|ks| - 1];
      var k := ks[|ks| - 1];
      RunsForKeysCovers(edges, o, init);
      SortAscMembers(Group(edges, o, k));
      GroupMembers(edges, o, k);
      var xs := SortAsc(Group(edges, o, k));
      GroupRunsFacts(xs, k);
      var before := RunsForKeys(edges, o, init);
      var block := GroupRuns(xs, k);
      assert ks == init + [k];
      forall k', v
        ensures Covers(before + block, k', v) <==> k' in ks && EdgeAt(o, k', v) in edges
      {
        CoversAppend(before, block, k', v);
        if Covers(block, k', v) {
          var i :| 0 <= i < |block| && block[i].fixed == k' && block[i].start <= v < block[i].end;
          assert k' == k;
        }
      }
    }
  }

  /** Without duplicate edges, and with each key listed once, the runs are
      separated and their lengths add up to the grouped values. */
  lemma {:induction false} RunsForKeysSeparated(edges: seq<Cell>, o: Orientation, ks: seq<int>)
    requires Distinct(ks) && Distinct(edges)
    ensures Separated(RunsForKeys(edges, o, ks))
    ensures TotalLength(RunsForKeys(edges, o, ks)) == GroupSizes(edges, o, ks)
  {
    if ks != [] {
      var init := ks[..|ks| - 1];
      var k := ks[|ks| - 1];
      DistinctInit(ks);
      RunsForKeysSeparated(edges, o, init);
      RunsForKeysShape(edges, o, init);
      GroupDistinct(edges, o, k);
      SortAscFacts(Group(edges, o, k));
      SortAscMembers(Group(edges, o, k));
      var xs := SortAsc(Group(edges, o, k));
      GroupRunsFacts(xs, k);
      var before := RunsForKeys(edges, o, init);
      var block := GroupRuns(xs, k);
      var runs := before + block;
      TotalLengthAppend(before, block);
      SeparatedBlocks(before, block, k);
    }
  }

  lemma RunsForKeysStep(edges: seq<Cell>, o: Orientation, ks: seq<int>, j: int)
    requires 0 <= j < |ks|
    ensures RunsForKeys(edges, o, ks[..j + 1]) == RunsForKeys(edges, o, ks[..j]) + GroupRuns(SortAsc(Group(edges, o, ks[j])), ks[j])
  {
    var prefix := ks[..j + 1];
    assert prefix[..j] == ks[..j] && prefix[j] == ks[j];
  }

  /** The coalesced runs, as the importer relies on them: every run is a
      non-empty half-open interval; an integer lies in a run at fixed
      coordinate k exactly when the corresponding unit edge is in the input;
      there are never more runs than edges and at least one when there is an
      edge. Without duplicate edges, runs at one fixed coordinate are in
      ascending order with a gap between consecutive ones (so each is
      maximal), and their lengths add up to the number of edges. */
  lemma CoalescedFacts(edges: seq<Cell>, o: Orientation)
    ensures var runs := Coalesced(edges, o);
      && NonEmptyRuns(runs)
      && (forall k, v :: Covers(runs, k, v) <==> EdgeAt(o, k, v) in edges)
      && |runs| <= |edges|
      && (|runs| == 0 <==> |edges| == 0)
      && (Distinct(edges) ==> Separated(runs) && TotalLength(runs) == |edges|)
  {
    var ks := ObjectKeyOrder(Keys(edges, o));
    KeysFacts(edges, o);
    ObjectKeyOrderFacts(Keys(edges, o));
    RunsForKeysShape(edges, o, ks);
    RunsForKeysCovers(edges, o, ks);
    forall i | 0 <= i < |edges|
      ensures FixedOf(edges[i], o) in ks
    {
    }
    GroupSizesTotal(edges, o, ks);
    var runs := Coalesced(edges, o);
    forall k, v | EdgeAt(o, k, v) in edges
      ensures k in ks
    {
      var i :| 0 <= i < |edges| && edges[i] == EdgeAt(o, k, v);
      assert FixedOf(edges[i], o) == k;
    }
    if |edges| > 0 {
      var e := edges[0];
      assert EdgeAt(o, FixedOf(e, o), FreeOf(e, o)) == e;
      assert Covers(runs, FixedOf(e, o), FreeOf(e, o));
    }
    if Distinct(edges) {
      RunsForKeysSeparated(edges, o, ks);
    }
  }

  /** Object.keys puts array-index keys first, ascending, whatever the
      insertion order. */
  lemma ObjectKeyOrderExample()
    ensures ObjectKeyOrder([3, -1, 1, -4]) == [1, 3, -1, -4]
  {
    assert NonNegatives([3, -1, 1, -4]) == [3, 1];
    assert Negatives([3, -1, 1, -4]) == [-1, -4];
  }

  lemma GapExampleGroups()
    ensures var edges := [Cell(5, 2), Cell(0, 2), Cell(1, 2), Cell(2, 2)];
            Keys(edges, Horizontal) == [2] && Group(edges, Horizontal, 2) == [5, 0, 1, 2]
  {
    var edges := [Cell(5, 2), Cell(0, 2), Cell(1, 2), Cell(2, 2)];
    var p1, p2, p3 := [Cell(5, 2)], [Cell(5, 2), Cell(0, 2)], [Cell(5, 2), Cell(0, 2), Cell(1, 2)];
    assert edges[..3] == p3 && p3[..2] == p2 && p2[..1] == p1 && p1[..0] == [];
    assert Keys(p1, Horizontal) == [2] && Group(p1, Horizontal, 2) == [5];
    assert Keys(p2, Horizontal) == [2] && Group(p2, Horizontal, 2) == [5, 0];
    assert Keys(p3, Horizontal) == [2] && Group(p3, Horizontal, 2) == [5, 0, 1];
  }

  lemma GapExampleSort()
    ensures SortAsc([5, 0, 1, 2]) == [0, 1, 2, 5]
  {
    var xs := [5, 0, 1, 2];
    assert xs[1..] == [0, 1, 2] && xs[1..][1..] == [1, 2] && xs[1..][1..][1..] == [2];
    assert SortAsc([2]) == [2];
    assert SortAsc([1, 2]) == [1, 2];
    assert SortAsc([0, 1, 2]) == [0, 1, 2];
  }

  lemma GapExampleMerge()
    ensures GroupRuns([0, 1, 2, 5], 2) == [Run(0, 3, 2), Run(5, 6, 2)]
  {
    var ys := [0, 1, 2, 5];
    assert ys[..3] == [0, 1, 2] && ys[..3][..2] == [0, 1] && ys[..3][..2][..1] == [0];
    assert Merge([0], 2) == MergeState([], 0, 1);
    assert Merge([0, 1], 2) == MergeState([], 0, 2);
    assert Merge([0, 1, 2], 2) == MergeState([], 0, 3);
    assert Merge(ys, 2) == MergeState([Run(0, 3, 2)], 5, 6);
  }

  /** A gap splits a row of horizontal edges into two walls. */
  lemma CoalescedGapExample()
    ensures Coalesced([Cell(5, 2), Cell(0, 2), Cell(1, 2), Cell(2, 2)], Horizontal)
         == [Run(0, 3, 2), Run(5, 6, 2)]
  {
    GapExampleGroups();
    GapExampleSort();
    GapExampleMerge();
    assert NonNegatives([2]) == [2] && Negatives([2]) == [];
    assert ObjectKeyOrder([2]) == [2];
  }

  lemma DuplicateExampleGroups()
    ensures var edges := [Cell(4, 1), Cell(4, 1), Cell(4, 2)];
            Keys(edges, Vertical) == [4] && Group(edges, Vertical, 4) == [1, 1, 2]
  {
    var edges := [Cell(4, 1), Cell(4, 1), Cell(4, 2)];
    var p1, p2 := [Cell(4, 1)], [Cell(4, 1), Cell(4, 1)];
    assert edges[..2] == p2 && p2[..1] == p1 && p1[..0] == [];
    assert Keys(p1, Vertical) == [4] && Group(p1, Vertical, 4) == [1];
    assert Keys(p2, Vertical) == [4] && Group(p2, Vertical, 4) == [1, 1];
  }

  lemma DuplicateExampleRuns()
    ensures GroupRuns(SortAsc([1, 1, 2]), 4) == [Run(1, 2, 4), Run(1, 3, 4)]
  {
    var xs := [1, 1, 2];
    assert xs[1..] == [1, 2] && xs[1..][1..] == [2];
    assert SortAsc([2]) == [2];
    assert SortAsc([1, 2]) == [1, 2];
    assert SortAsc(xs) == [1, 1, 2];
    assert xs[..2] == [1, 1] && xs[..2][..1] == [1];
    assert Merge(xs, 4) == MergeState([Run(1, 2, 4)], 1, 3);
  }

  /** A repeated edge is not removed: it restarts a run, so the two runs
      produced overlap. */
  lemma CoalescedDuplicateExample()
    ensures Coalesced([Cell(4, 1), Cell(4, 1), Cell(4, 2)], Vertical)
         == [Run(1, 2, 4), Run(1, 3, 4)]
  {
    DuplicateExampleGroups();
    DuplicateExampleRuns();
    assert NonNegatives([4]) == [4] && Negatives([4]) == [];
    assert ObjectKeyOrder([4]) == [4];
  }

  // ---------------------------------------------------------------------------
  // The coalescer itself

  /** The first loop of the coalescer: a dictionary from fixed coordinate to
      the free coordinates found there, and its keys in insertion order. */
  method GroupByFixed(edges: seq<Cell>, o: Orientation) returns (byFixed: map<int, seq<int>>, insertion: seq<int>)
    ensures insertion == Keys(edges, o)
    ensures forall k :: k in byFixed <==> k in insertion
    ensures forall k :: k in byFixed ==> byFixed[k] == Group(edges, o, k)
  {
    byFixed := map[];
    insertion := [];
    var i := 0;
    while i < |edges|
      invariant 0 <= i <= |edges|
      invariant insertion == Keys(edges[..i], o)
      invariant forall k :: k in byFixed <==> k in insertion
      invariant forall k :: k in byFixed ==> byFixed[k] == Group(edges[..i], o, k)
    {
      var k := FixedOf(edges[i], o);
      ghost var next := edges[..i + 1];
      assert next[..i] == edges[..i] && next[i] == edges[i];
      if k !in byFixed {
        GroupNonEmpty(edges[..i], o, k);
        byFixed := byFixed[k := []];
        insertion := insertion + [k];
      }
      byFixed := byFixed[k := byFixed[k] + [FreeOf(edges[i], o)]];
      i := i + 1;
    }
    assert edges[..i] == edges;
  }

  /** The inner loop of the coalescer over one sorted group. */
  method MergeGroup(xs: seq<int>, k: int) returns (runs: seq<Run>)
    requires |xs| >= 1
    ensures runs == GroupRuns(xs, k)
  {
    runs := [];
    var startV := xs[0];
    var endV := startV + 1;
    var n := 1;
    while n < |xs|
      invariant 1 <= n <= |xs|
      invariant Merge(xs[..n], k) == MergeState(runs, startV, endV)
    {
      assert xs[..n + 1][..n] == xs[..n];
      if xs[n] == endV {
        endV := endV + 1;
      } else {
        runs := runs + [Run(startV, endV, k)];
        startV := xs[n];
        endV := startV + 1;
      }
      n := n + 1;
    }
    assert xs[..n] == xs;
    runs := runs + [Run(startV, endV, k)];
  }

  /** coalesceHorizontalEdges (o = Horizontal) and coalesceVerticalEdges
      (o = Vertical): group the edges by their fixed coordinate, visit the
      groups in Object.keys order, sort each group numerically and push one
      run per stretch of consecutive values. */
  method CoalesceEdges(edges: seq<Cell>, o: Orientation) returns (runs: seq<Run>)
    ensures runs == Coalesced(edges, o)
  {
    var byFixed, insertion := GroupByFixed(edges, o);
    KeysDistinct(edges, o);
    ObjectKeyOrderFacts(insertion);
    var order := ObjectKeyOrder(insertion);
    runs := [];
    var j := 0;
    while j < |order|
      invariant 0 <= j <= |order|
      invariant runs == RunsForKeys(edges, o, order[..j])
    {
      var k := order[j];
      assert k in insertion;
      var group := byFixed[k];
      assert group == Group(edges, o, k);
      GroupNonEmpty(edges, o, k);
      SortAscMembers(group);
      var groupRuns := MergeGroup(SortAsc(group), k);
      RunsForKeysStep(edges, o, order, j);
      runs := runs + groupRuns;
      j := j + 1;
    }
    assert order[..j] == order;
    assert order == ObjectKeyOrder(Keys(edges, o));
  }

  /** countHorizontalRuns (o = Horizontal) and countVerticalRuns
      (o = Vertical): the number of coalesced runs, never more than the
      edges and zero only without edges. */
  method CountRuns(edges: seq<Cell>, o: Orientation) returns (count: nat)
    ensures count == |Coalesced(edges, o)|
    ensures count <= |edges| && (count == 0 <==> edges == [])
  {
    var runs := CoalesceEdges(edges, o);
    CoalescedFacts(edges, o);
    count := |runs|;
  }
}
