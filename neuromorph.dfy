/** `Morph`, one neuron morphology in the SWC format: every segment has an id
    and the id of its preceding (parent) segment, -1 for the root. The model
    covers the tree queries over these two integer columns: successor counts,
    branch points, terminal tips, the recursive subtree and terminal degrees,
    and the copy of each segment's preceding coordinates. Numpy vectors are
    sequences; a vector operation with a mismatched length raises what numpy
    raises. */
module NeuroMorph {
  import opened Common

  // ---------------------------------------------------------------------------
  // Counting

  /** How many entries of `s` equal `v` (`sum(s == v)`). */
  function CountOf(s: seq<int>, v: int): nat
  {
    if s == [] then 0 else CountOf(s[..|s| - 1], v) + (if s[|s| - 1] == v then 1 else 0)
  }

  /** `sum` of a Boolean vector: how many entries are true. */
  function CountTrue(s: seq<bool>): nat
  {
    if s == [] then 0 else CountTrue(s[..|s| - 1]) + (if s[|s| - 1] then 1 else 0)
  }

  lemma {:induction false} CountOfAppend(a: seq<int>, b: seq<int>, v: int)
    ensures CountOf(a + b, v) == CountOf(a, v) + CountOf(b, v)
    decreases |b|
  {
    if b == [] {
      assert a + b == a;
    } else {
      var b' := b[..|b| - 1];
      assert (a + b)[..|a + b| - 1] == a + b';
      CountOfAppend(a, b', v);
    }
  }

  /** No entry equals `v` exactly when the count is zero. */
  lemma {:induction false} CountOfZero(s: seq<int>, v: int)
    ensures CountOf(s, v) == 0 <==> forall k :: 0 <= k < |s| ==> s[k] != v
    decreases |s|
  {
    if s != [] {
      CountOfZero(s[..|s| - 1], v);
      assert forall k :: 0 <= k < |s| - 1 ==> s[..|s| - 1][k] == s[k];
    }
  }

  /** The first index holding `v` (`np.where(s == v)[0][0]`), or None. */
  function FirstIndex(s: seq<int>, v: int): (r: Option<nat>)
    ensures r.Some? ==> r.value < |s| && s[r.value] == v && forall k :: 0 <= k < r.value ==> s[k] != v
    ensures r.None? ==> forall k :: 0 <= k < |s| ==> s[k] != v
  {
    if s == [] then None
    else match FirstIndex(s[..|s| - 1], v)
      case Some(k) => Some(k)
      case None => if s[|s| - 1] == v then Some(|s| - 1) else None
  }

  /** When `v` occurs once, every index holding it is the first one. */
  lemma {:induction false} CountOfOne(s: seq<int>, v: int, k: int)
    requires CountOf(s, v) == 1 && 0 <= k < |s| && s[k] == v
    ensures FirstIndex(s, v) == Some(k)
    decreases |s|
  {
    var p := s[..|s| - 1];
    if k == |s| - 1 {
      assert CountOf(p, v) == 0;
      CountOfZero(p, v);
    } else {
      assert p[k] == v;
      if s[|s| - 1] == v {
        assert CountOf(p, v) == 0;
        CountOfZero(p, v);
        assert false;
      }
      CountOfOne(p, v, k);
    }
  }

  // ---------------------------------------------------------------------------
  // itertools.groupby

  /** One group of `itertools.groupby`: a value and how many consecutive
      entries hold it. */
  datatype Run = Run(value: int, len: nat)

  /** `[(g[0], len(list(g[1]))) for g in itertools.groupby(s)]`: the maximal
      runs of equal consecutive entries, in order. */
  function Runs(s: seq<int>): (r: seq<Run>)
    ensures r == [] <==> s == []
    ensures r != [] ==> r[0].value == s[0] && r[|r| - 1].value == s[|s| - 1]
  {
    if s == [] then []
    else
      var rs := Runs(s[..|s| - 1]);
      var x := s[|s| - 1];
      if rs != [] && rs[|rs| - 1].value == x then rs[..|rs| - 1] + [Run(x, rs[|rs| - 1].len + 1)]
      else rs + [Run(x, 1)]
  }

  /** No group of `groupby` is empty, and neighbouring groups hold different
      values. */
  lemma {:induction false} RunsMaximal(s: seq<int>)
    ensures forall t :: 0 <= t < |Runs(s)| ==> Runs(s)[t].len > 0
    ensures forall t :: 0 < t < |Runs(s)| ==> Runs(s)[t - 1].value != Runs(s)[t].value
    decreases |s|
  {
    if s != [] {
      RunsMaximal(s[..|s| - 1]);
    }
  }

  /** The total length of the runs holding `v`: what `res_vector[seg_ids ==
      v]` receives from the loop over the groups. */
  function RunTotal(rs: seq<Run>, v: int): nat
  {
    if rs == [] then 0
    else RunTotal(rs[..|rs| - 1], v) + (if rs[|rs| - 1].value == v then rs[|rs| - 1].len else 0)
  }

  /** One more group adds its length when it holds `v`. */
  lemma RunTotalAppend(rs: seq<Run>, g: Run, v: int)
    ensures RunTotal(rs + [g], v) == RunTotal(rs, v) + (if g.value == v then g.len else 0)
  {
    assert (rs + [g])[..|rs|] == rs;
  }

  /** Adding up the groups counts every entry once, whether or not equal
      entries are consecutive. */
  lemma {:induction false} GroupedCount(s: seq<int>, v: int)
    ensures RunTotal(Runs(s), v) == CountOf(s, v)
    decreases |s|
  {
    if s != [] {
      var x := s[|s| - 1];
      var rs := Runs(s[..|s| - 1]);
      GroupedCount(s[..|s| - 1], v);
      assert CountOf(s, v) == CountOf(s[..|s| - 1], v) + (if x == v then 1 else 0);
      if rs != [] && rs[|rs| - 1].value == x {
        var m := |rs| - 1;
        assert Runs(s) == rs[..m] + [Run(x, rs[m].len + 1)];
        RunTotalAppend(rs[..m], Run(x, rs[m].len + 1), v);
        assert rs[..m] + [rs[m]] == rs;
        RunTotalAppend(rs[..m], rs[m], v);
      } else {
        assert Runs(s) == rs + [Run(x, 1)];
        RunTotalAppend(rs, Run(x, 1), v);
      }
    }
  }

  // ---------------------------------------------------------------------------
  // Numpy vector operations

  /** Elementwise `f(a, b)` on two numpy vectors. A length-1 operand is
      broadcast; other length mismatches raise ValueError. */
  function Broadcast<A, B, C>(a: seq<A>, b: seq<B>, f: (A, B) -> C): (r: Result<seq<C>>)
    ensures r.Ok? <==> |a| == |b| || |a| == 1 || |b| == 1
    ensures r.Ok? ==> |r.value| == (if |a| == |b| || |b| == 1 then |a| else |b|)
    ensures r.Ok? && |a| == |b| ==> forall k :: 0 <= k < |a| ==> r.value[k] == f(a[k], b[k])
  {
    if |a| == |b| then Ok(seq(|a|, k requires 0 <= k < |a| => f(a[k], b[k])))
    else if |b| == 1 then Ok(seq(|a|, k requires 0 <= k < |a| => f(a[k], b[0])))
    else if |a| == 1 then Ok(seq(|b|, k requires 0 <= k < |b| => f(a[0], b[k])))
    else Err(ValueError)
  }

  /** `v * np.array(mask, int)`. */
  function Masked(v: seq<int>, mask: seq<bool>): (r: Result<seq<int>>)
    ensures r.Ok? <==> |v| == |mask| || |v| == 1 || |mask| == 1
    ensures r.Ok? && |v| == |mask| ==>
      |r.value| == |v| && forall k :: 0 <= k < |v| ==> r.value[k] == (if mask[k] then v[k] else 0)
  {
    Broadcast(v, mask, (c: int, b: bool) => if b then c else 0)
  }

  /** `v[mask]`: the entries where `mask` is true, in order. */
  function Select<T>(v: seq<T>, mask: seq<bool>): seq<T>
    requires |v| == |mask|
  {
    if v == [] then []
    else Select(v[..|v| - 1], mask[..|v| - 1]) + (if mask[|v| - 1] then [v[|v| - 1]] else [])
  }

  /** Summing a selection counts the positions true in both the vector and the
      mask. */
  lemma {:induction false} SelectCount(v: seq<bool>, mask: seq<bool>, both: seq<bool>)
    requires |v| == |mask| == |both|
    requires forall k :: 0 <= k < |v| ==> both[k] == (v[k] && mask[k])
    ensures CountTrue(Select(v, mask)) == CountTrue(both)
    decreases |v|
  {
    if v != [] {
      var n := |v| - 1;
      SelectCount(v[..n], mask[..n], both[..n]);
      var s := Select(v[..n], mask[..n]);
      if mask[n] {
        assert (s + [v[n]])[..|s|] == s;
      } else {
        assert s + [] == s;
      }
    }
  }

  /** `s == n` as a Boolean vector. */
  function Equals(s: seq<int>, n: int): (r: seq<bool>)
  {
    seq(|s|, j requires 0 <= j < |s| => s[j] == n)
  }

  /** `s > n` as a Boolean vector. */
  function Above(s: seq<int>, n: int): (r: seq<bool>)
  {
    seq(|s|, j requires 0 <= j < |s| => s[j] > n)
  }

  /** Counting the true entries of `s == v` is counting `v` in `s`. */
  lemma {:induction false} EqualsCount(s: seq<int>, v: int)
    ensures CountTrue(Equals(s, v)) == CountOf(s, v)
    decreases |s|
  {
    if s != [] {
      assert Equals(s, v)[..|s| - 1] == Equals(s[..|s| - 1], v);
      EqualsCount(s[..|s| - 1], v);
    }
  }

  /** `np.where(b)[0]`: the indices of the true entries, ascending. */
  function TrueIndices(b: seq<bool>): (r: seq<nat>)
    ensures forall t :: 0 <= t < |r| ==> r[t] < |b| && b[r[t]]
    ensures forall k :: 0 <= k < |b| && b[k] ==> k in r
  {
    if b == [] then []
    else TrueIndices(b[..|b| - 1]) + (if b[|b| - 1] then [|b| - 1] else [])
  }

  /** `np.array(b, int)`. */
  function Ints(b: seq<bool>): seq<int>
  {
    seq(|b|, k requires 0 <= k < |b| => if b[k] then 1 else 0)
  }

  /** `np.zeros(n, bool)` with the entries of the segments with id `sec` set. */
  function Indicator(ids: seq<int>, sec: int): seq<bool>
  {
    Equals(ids, sec)
  }

  /** `a += b` on Boolean vectors: logical or. */
  function Or(a: seq<bool>, b: seq<bool>): seq<bool>
    requires |a| == |b|
  {
    seq(|a|, k requires 0 <= k < |a| => a[k] || b[k])
  }

  // ---------------------------------------------------------------------------
  // Preceding segments

  /** The parent of segment `i` is found: it is the root, or exactly one
      segment has its parent id (numpy's `float()` of the selection raises
      TypeError for any other size). */
  predicate Resolves(ids: seq<int>, precIds: seq<int>, i: int)
    requires 0 <= i < |precIds|
  {
    precIds[i] == -1 || CountOf(ids, precIds[i]) == 1
  }

  predicate AllResolve(ids: seq<int>, precIds: seq<int>)
  {
    forall i :: 0 <= i < |precIds| ==> Resolves(ids, precIds, i)
  }

  /** The value `add_preceding_segment_metricies` appends for segment `i`. */
  function PrecedingOf<T>(ids: seq<int>, precIds: seq<int>, vals: seq<T>, i: int): T
    requires |vals| == |ids| && 0 <= i < |precIds| && i < |ids| && Resolves(ids, precIds, i)
  {
    if precIds[i] == -1 then vals[i]
    else
      CountOfZero(ids, precIds[i]);
      vals[FirstIndex(ids, precIds[i]).value]
  }

  /** A root keeps its own value; any other segment takes the value of the
      one segment whose id is its parent id. */
  lemma PrecedingValue<T>(ids: seq<int>, precIds: seq<int>, vals: seq<T>, i: int)
    requires |vals| == |ids| == |precIds| && 0 <= i < |ids| && Resolves(ids, precIds, i)
    ensures precIds[i] == -1 ==> PrecedingOf(ids, precIds, vals, i) == vals[i]
    ensures forall k :: 0 <= k < |ids| && ids[k] == precIds[i] && precIds[i] != -1 ==>
      PrecedingOf(ids, precIds, vals, i) == vals[k]
  {
    forall k | 0 <= k < |ids| && ids[k] == precIds[i] && precIds[i] != -1
      ensures PrecedingOf(ids, precIds, vals, i) == vals[k]
    {
      CountOfOne(ids, precIds[i], k);
    }
  }

  // ---------------------------------------------------------------------------
  // The parent walk of get_terminal_degrees

  /** `level` ranks the segments so that the segment found for a parent id
      always ranks lower: the parent links have no cycle. */
  predicate Ranked(ids: seq<int>, precIds: seq<int>, level: seq<nat>)
  {
    |level| == |ids| == |precIds| &&
    forall i :: 0 <= i < |precIds| ==> ParentBelow(ids, precIds[i], level, level[i])
  }

  predicate ParentBelow(ids: seq<int>, p: int, level: seq<nat>, here: nat)
    requires |level| == |ids|
  {
    FirstIndex(ids, p).Some? ==> level[FirstIndex(ids, p).value] < here
  }

  /** The indices the walk from segment index `cur` visits: the index of its
      parent id, then that one's, up to a segment whose parent is -1. A parent
      id no segment has raises IndexError. */
  ghost function Chain(ids: seq<int>, precIds: seq<int>, level: seq<nat>, cur: nat): (r: Result<seq<nat>>)
    requires Ranked(ids, precIds, level) && cur < |ids|
    ensures r.Ok? ==> forall t :: 0 <= t < |r.value| ==> r.value[t] < |ids|
    decreases level[cur]
  {
    match FirstIndex(ids, precIds[cur])
    case None => Err(IndexError)
    case Some(k) =>
      assert ParentBelow(ids, precIds[cur], level, level[cur]);
      if precIds[k] == -1 then Ok([k]) else Then([k], Chain(ids, precIds, level, k))
  }

  /** `visited` followed by the rest of a walk. */
  function Then(visited: seq<nat>, rest: Result<seq<nat>>): Result<seq<nat>>
  {
    match rest
    case Err(e) => Err(e)
    case Ok(c) => Ok(visited + c)
  }

  lemma ThenNothing(rest: Result<seq<nat>>)
    ensures Then([], rest) == rest
  {
    if rest.Ok? {
      assert [] + rest.value == rest.value;
    }
  }

  /** One more 1 at every index the walk visits. */
  function AddChain(vec: seq<int>, c: seq<nat>): seq<int>
  {
    seq(|vec|, i requires 0 <= i < |vec| => vec[i] + (if i in c then 1 else 0))
  }

  /** The walks from the tips `ts`, in order, each adding its chain; the first
      walk that fails decides the error. */
  ghost function Climbs(ids: seq<int>, precIds: seq<int>, level: seq<nat>, vec: seq<int>, ts: seq<nat>): Result<seq<int>>
    requires Ranked(ids, precIds, level) && forall t :: 0 <= t < |ts| ==> ts[t] < |ids|
    decreases |ts|
  {
    if ts == [] then Ok(vec)
    else match Chain(ids, precIds, level, ts[0])
      case Err(e) => Err(e)
      case Ok(c) => Climbs(ids, precIds, level, AddChain(vec, c), ts[1..])
  }

  /** How many of the tips `ts` have a walk that passes through index `i`. */
  ghost function Through(ids: seq<int>, precIds: seq<int>, level: seq<nat>, ts: seq<nat>, i: int): nat
    requires Ranked(ids, precIds, level) && forall t :: 0 <= t < |ts| ==> ts[t] < |ids|
  {
    if ts == [] then 0
    else
      var c := Chain(ids, precIds, level, ts[0]);
      (if c.Ok? && i in c.value then 1 else 0) + Through(ids, precIds, level, ts[1..], i)
  }

  /** The index found for a segment's parent id ranks lower than the segment. */
  lemma ParentRanksLower(ids: seq<int>, precIds: seq<int>, level: seq<nat>, cur: nat, k: nat)
    requires Ranked(ids, precIds, level) && cur < |ids| && FirstIndex(ids, precIds[cur]) == Some(k)
    ensures k < |ids| && level[k] < level[cur]
  {
    assert ParentBelow(ids, precIds[cur], level, level[cur]);
  }

  /** A walk's next index adds 1 there and nowhere else, as it is new. */
  lemma AddChainStep(before: seq<int>, visited: seq<nat>, k: nat)
    requires k < |before| && k !in visited
    ensures AddChain(before, visited)[k := AddChain(before, visited)[k] + 1] == AddChain(before, visited + [k])
  {
  }

  /** One step of the walk: the part still to come starts with the parent. */
  lemma ChainStep(ids: seq<int>, precIds: seq<int>, level: seq<nat>, visited: seq<nat>, cur: nat, k: nat)
    requires Ranked(ids, precIds, level) && cur < |ids|
    requires FirstIndex(ids, precIds[cur]) == Some(k)
    ensures Then(visited, Chain(ids, precIds, level, cur)) ==
      if precIds[k] == -1 then Ok(visited + [k]) else Then(visited + [k], Chain(ids, precIds, level, k))
  {
    if precIds[k] != -1 {
      match Chain(ids, precIds, level, k)
      case Err(e) =>
      case Ok(c) =>
        assert visited + ([k] + c) == visited + [k] + c;
    }
  }

  /** One step of the walk: the visited indices stay distinct, because each
      step ranks lower than all before it. */
  lemma WalkStep(ids: seq<int>, precIds: seq<int>, level: seq<nat>, before: seq<int>, visited: seq<nat>,
                 cur: nat, vec: seq<int>, k: nat)
    requires Ranked(ids, precIds, level) && cur < |ids| && |before| == |ids|
    requires FirstIndex(ids, precIds[cur]) == Some(k)
    requires vec == AddChain(before, visited)
    requires forall x :: x in visited ==> x < |ids| && (x == cur || level[x] > level[cur])
    ensures k < |ids| && level[k] < level[cur]
    ensures vec[k := vec[k] + 1] == AddChain(before, visited + [k])
    ensures forall x :: x in visited + [k] ==> x < |ids| && (x == k || level[x] > level[k])
    ensures Then(visited, Chain(ids, precIds, level, cur)) ==
      if precIds[k] == -1 then Ok(visited + [k]) else Then(visited + [k], Chain(ids, precIds, level, k))
  {
    ParentRanksLower(ids, precIds, level, cur, k);
    AddChainStep(before, visited, k);
    ChainStep(ids, precIds, level, visited, cur, k);
  }

  /** The degree vector the walks build: the starting value plus one for each
      tip whose walk passes through the index. */
  lemma {:induction false} ClimbsAdd(ids: seq<int>, precIds: seq<int>, level: seq<nat>, vec: seq<int>, ts: seq<nat>)
    requires Ranked(ids, precIds, level) && forall t :: 0 <= t < |ts| ==> ts[t] < |ids|
    ensures var r := Climbs(ids, precIds, level, vec, ts);
      r.Ok? <==> forall t :: 0 <= t < |ts| ==> Chain(ids, precIds, level, ts[t]).Ok?
    ensures var r := Climbs(ids, precIds, level, vec, ts);
      r.Ok? ==> (|r.value| == |vec| &&
        forall i :: 0 <= i < |vec| ==> r.value[i] == vec[i] + Through(ids, precIds, level, ts, i))
    decreases |ts|
  {
    if ts != [] {
      match Chain(ids, precIds, level, ts[0])
      case Err(e) =>
      case Ok(c) =>
        ClimbsAdd(ids, precIds, level, AddChain(vec, c), ts[1..]);
        assert forall t :: 1 <= t < |ts| ==> ts[1..][t - 1] == ts[t];
    }
  }

  /** Every index a walk visits holds the parent id of some segment. */
  lemma {:induction false} ChainParents(ids: seq<int>, precIds: seq<int>, level: seq<nat>, cur: nat, i: int)
    requires Ranked(ids, precIds, level) && cur < |ids|
    requires Chain(ids, precIds, level, cur).Ok? && i in Chain(ids, precIds, level, cur).value
    ensures 0 <= i < |ids| && CountOf(precIds, ids[i]) > 0
    decreases level[cur]
  {
    var k := FirstIndex(ids, precIds[cur]).value;
    assert ParentBelow(ids, precIds[cur], level, level[cur]);
    if i == k {
      CountOfZero(precIds, ids[i]);
    } else {
      ChainParents(ids, precIds, level, k, i);
    }
  }

  /** No walk passes through a segment that is no segment's parent. */
  lemma {:induction false} ThroughLeaf(ids: seq<int>, precIds: seq<int>, level: seq<nat>, ts: seq<nat>, i: int)
    requires Ranked(ids, precIds, level) && forall t :: 0 <= t < |ts| ==> ts[t] < |ids|
    requires 0 <= i < |ids| && CountOf(precIds, ids[i]) == 0
    ensures Through(ids, precIds, level, ts, i) == 0
    decreases |ts|
  {
    if ts != [] {
      var c := Chain(ids, precIds, level, ts[0]);
      if c.Ok? && i in c.value {
        ChainParents(ids, precIds, level, ts[0], i);
      }
      ThroughLeaf(ids, precIds, level, ts[1..], i);
    }
  }

  // ---------------------------------------------------------------------------
  // The morphology object

  class Morph {
    var ids: seq<int>          // seg_ids
    var precIds: seq<int>      // seg_prec_ids
    var xs: seq<real>          // seg_xs
    var ys: seq<real>
    var zs: seq<real>
    var radii: seq<real>
    var precXs: seq<real>      // seg_prec_xs, filled by AddPrecedingSegmentMetrics
    var precYs: seq<real>
    var precZs: seq<real>
    var precRadii: seq<real>
    var nSegments: nat         // n_segments
    var idx: seq<bool>         // idx_vector

    /** The columns all read from one SWC matrix have one length, and the
        index vector, set only by ResetIdxVector, has it too. */
    predicate Valid()
      reads this
    {
      |ids| == nSegments && |precIds| == nSegments && |xs| == nSegments && |ys| == nSegments &&
      |zs| == nSegments && |radii| == nSegments && |idx| == nSegments
    }

    /** The columns and their length, with every segment indexed; the preceding
        columns are left empty until `AddPrecedingSegmentMetrics` (see `Init`). */
    constructor(ids: seq<int>, xs: seq<real>, ys: seq<real>, zs: seq<real>, radii: seq<real>, precIds: seq<int>)
      requires |xs| == |ids| && |ys| == |ids| && |zs| == |ids| && |radii| == |ids| && |precIds| == |ids|
      ensures Valid()
      ensures this.ids == ids && this.precIds == precIds && this.xs == xs && this.ys == ys
      ensures this.zs == zs && this.radii == radii && nSegments == |ids|
      ensures |idx| == |ids| && forall k :: 0 <= k < |idx| ==> idx[k]
    {
      this.ids := ids;
      this.precIds := precIds;
      this.xs := xs;
      this.ys := ys;
      this.zs := zs;
      this.radii := radii;
      nSegments := |ids|;
      idx := seq(|ids|, _ => true);
      precXs, precYs, precZs, precRadii := [], [], [], [];
    }

    /** `reset_idx_vector`: every segment is indexed again. */
    method ResetIdxVector() returns (r: seq<bool>)
      requires Valid()
      modifies this
      ensures Valid() && idx == r
      ensures |r| == nSegments && forall k :: 0 <= k < |r| ==> r[k]
      ensures ids == old(ids) && precIds == old(precIds) && nSegments == old(nSegments)
      ensures xs == old(xs) && ys == old(ys) && zs == old(zs) && radii == old(radii)
      ensures precXs == old(precXs) && precYs == old(precYs) && precZs == old(precZs) && precRadii == old(precRadii)
    {
      idx := seq(nSegments, _ => true);
      r := idx;
    }

    /** `add_preceding_segment_metricies`: the coordinates and radius of each
        segment's parent, or the segment's own for a root. A parent id held by
        no segment or by several raises TypeError, and no column is set. */
    method AddPrecedingSegmentMetrics() returns (err: Option<PyError>)
      requires Valid()
      modifies this
      ensures Valid()
      ensures err.None? <==> AllResolve(ids, precIds)
      ensures err.Some? ==> (err.value == TypeError && precXs == old(precXs) && precYs == old(precYs) &&
        precZs == old(precZs) && precRadii == old(precRadii))
      ensures err.None? ==> (
        precXs == PrecedingColumn(ids, precIds, xs) && precYs == PrecedingColumn(ids, precIds, ys) &&
        precZs == PrecedingColumn(ids, precIds, zs) && precRadii == PrecedingColumn(ids, precIds, radii))
      ensures ids == old(ids) && precIds == old(precIds) && nSegments == old(nSegments) && idx == old(idx)
      ensures xs == old(xs) && ys == old(ys) && zs == old(zs) && radii == old(radii)
    {
      var segIds, parents := ids, precIds;
      var vx, vy, vz, vr := xs, ys, zs, radii;
      var px: seq<real>, py: seq<real>, pz: seq<real>, pr: seq<real> := [], [], [], [];
      for i := 0 to |segIds|
        invariant unchanged(this)
        invariant |px| == i && |py| == i && |pz| == i && |pr| == i
        invariant forall k :: 0 <= k < i ==> Resolves(segIds, parents, k)
        invariant forall k :: 0 <= k < i ==>
          px[k] == PrecedingOf(segIds, parents, vx, k) && py[k] == PrecedingOf(segIds, parents, vy, k) &&
          pz[k] == PrecedingOf(segIds, parents, vz, k) && pr[k] == PrecedingOf(segIds, parents, vr, k)
      {
        if parents[i] == -1 {
          px, py, pz, pr := px + [vx[i]], py + [vy[i]], pz + [vz[i]], pr + [vr[i]];
        } else if CountOf(segIds, parents[i]) != 1 {
          assert !Resolves(segIds, parents, i);
          return Some(TypeError);
        } else {
          CountOfZero(segIds, parents[i]);
          var k := FirstIndex(segIds, parents[i]).value;
          px, py, pz, pr := px + [vx[k]], py + [vy[k]], pz + [vz[k]], pr + [vr[k]];
        }
      }
      precXs, precYs, precZs, precRadii := px, py, pz, pr;
      err := None;
    }

    /** `Morph(swc_data)` once the matrix is read: `init_swc` sets the columns, runs
        `add_preceding_segment_metricies`, whose TypeError leaves no object, and then
        indexes every segment. */
    static method Init(ids: seq<int>, xs: seq<real>, ys: seq<real>, zs: seq<real>, radii: seq<real>, precIds: seq<int>)
      returns (m: Morph?, err: Option<PyError>)
      requires |xs| == |ids| && |ys| == |ids| && |zs| == |ids| && |radii| == |ids| && |precIds| == |ids|
      ensures err.None? <==> AllResolve(ids, precIds)
      ensures err.Some? ==> m == null && err == Some(TypeError)
      ensures err.None? ==> m != null && fresh(m) && m.Valid()
      ensures m != null ==>
        m.ids == ids && m.precIds == precIds && m.xs == xs && m.ys == ys && m.zs == zs &&
        m.radii == radii && m.nSegments == |ids|
      ensures m != null ==>
        m.precXs == PrecedingColumn(ids, precIds, xs) && m.precYs == PrecedingColumn(ids, precIds, ys) &&
        m.precZs == PrecedingColumn(ids, precIds, zs) && m.precRadii == PrecedingColumn(ids, precIds, radii)
      ensures m != null ==> forall k :: 0 <= k < |m.idx| ==> m.idx[k]
    {
      m := new Morph(ids, xs, ys, zs, radii, precIds);
      err := m.AddPrecedingSegmentMetrics();
      if err.Some? {
        return null, err;
      }
      var _ := m.ResetIdxVector();
    }

    /** `idx_vector`, or `self.idx_vector` when none is given. */
    function IdxOr(idxOpt: Option<seq<bool>>): seq<bool>
      reads this
    {
      if idxOpt.Some? then idxOpt.value else idx
    }

    /** `get_seg_successors(s)`: a Boolean vector with true at the segments
        whose parent id is `s`. */
    function SegSuccessors(s: int): (r: seq<bool>)
      reads this
      ensures |r| == |precIds| && forall j :: 0 <= j < |r| ==> (r[j] <==> precIds[j] == s)
    {
      Equals(precIds, s)
    }

    /** The successor count of every segment, before masking. */
    function SuccessorCounts(): seq<int>
      reads this
    {
      Counts(ids, precIds)
    }

    /** The vector `get_n_successors(idx)` returns. */
    function NSuccessorsOf(mask: seq<bool>): Result<seq<int>>
      reads this
    {
      Masked(SuccessorCounts(), mask)
    }

    /** `get_n_successors`: for each group of equal consecutive parent ids,
        the group's length is added at the segments with that id; the sums are
        then masked by the index vector. */
    method NSuccessors(idxOpt: Option<seq<bool>>) returns (r: Result<seq<int>>)
      requires Valid()
      ensures r == NSuccessorsOf(IdxOr(idxOpt))
      ensures |IdxOr(idxOpt)| == nSegments ==> (r.Ok? && |r.value| == nSegments &&
        forall i :: 0 <= i < nSegments ==>
          r.value[i] == if IdxOr(idxOpt)[i] then CountOf(precIds, ids[i]) else 0)
    {
      var mask := if idxOpt.Some? then idxOpt.value else idx;
      var segIds := ids;
      var res := seq(nSegments, _ => 0);
      var precs := Runs(precIds);
      for t := 0 to |precs|
        invariant |res| == |segIds|
        invariant forall i :: 0 <= i < |segIds| ==> res[i] == RunTotal(precs[..t], segIds[i])
      {
        var run := precs[t];
        res := seq(|res|, i requires 0 <= i < |res| => if segIds[i] == run.value then res[i] + run.len else res[i]);
        assert precs[..t + 1][..t] == precs[..t];
      }
      assert precs[..|precs|] == precs;
      forall i | 0 <= i < |segIds|
        ensures res[i] == CountOf(precIds, segIds[i])
      {
        GroupedCount(precIds, segIds[i]);
      }
      assert res == SuccessorCounts();
      r := Masked(res, mask);
    }

    /** `get_branch_points(idx)`: of the segments `idx` selects, which have
        more than one successor, the counts being masked by `self.idx_vector`
        whatever `idx` is. A mask of another length raises IndexError. */
    function BranchPoints(idxOpt: Option<seq<bool>>): (r: Result<seq<bool>>)
      reads this
      requires Valid()
      ensures r.Ok? <==> |IdxOr(idxOpt)| == nSegments
    {
      var ns := NSuccessorsOf(idx).value;
      var mask := IdxOr(idxOpt);
      if |mask| != |ns| then Err(IndexError) else Ok(Above(Select(ns, mask), 1))
    }

    /** `get_n_branch_points(idx)`. */
    function NBranchPoints(idxOpt: Option<seq<bool>>): (r: Result<nat>)
      reads this
      requires Valid()
      ensures r.Ok? <==> |IdxOr(idxOpt)| == nSegments
      ensures r.Err? ==> r.error == IndexError
      ensures idxOpt.None? ==> r.Ok?
    {
      match BranchPoints(Some(IdxOr(idxOpt)))
      case Err(e) => Err(e)
      case Ok(b) => Ok(CountTrue(b))
    }

    /** `get_terminal_tips(idx)`: `(get_n_successors() == 0) * idx`. */
    function TerminalTips(idxOpt: Option<seq<bool>>): (r: Result<seq<bool>>)
      reads this
      requires Valid()
      ensures idxOpt.None? ==> r.Ok? && |r.value| == nSegments
    {
      Broadcast(Equals(NSuccessorsOf(idx).value, 0), IdxOr(idxOpt), (z: bool, b: bool) => z && b)
    }

    /** `get_n_terminal_tips(idx)`: `sum(get_terminal_tips()[idx])`. */
    function NTerminalTips(idxOpt: Option<seq<bool>>): (r: Result<nat>)
      reads this
      requires Valid()
      ensures r.Ok? <==> |IdxOr(idxOpt)| == nSegments
    {
      var tips := TerminalTips(None).value;
      var mask := IdxOr(idxOpt);
      if |mask| != |tips| then Err(IndexError) else Ok(CountTrue(Select(tips, mask)))
    }

    /** `get_subtree(sec)` with at most `depth` nested calls left before
        Python's recursion limit: None for -1, the segment alone when nothing
        follows it, otherwise the segment or-ed with the subtree of every
        successor, in index order. A successor with id -1 makes `+= None`
        raise TypeError. */
    function Subtree(sec: int, depth: nat): (r: Result<Option<seq<bool>>>)
      reads this
      requires Valid()
      ensures r.Ok? && r.value.Some? ==> |r.value.value| == nSegments
      decreases depth, nSegments + 1
    {
      if depth == 0 then Err(RuntimeError)
      else if sec == -1 then Ok(None)
      else if CountTrue(SegSuccessors(sec)) == 0 then Ok(Some(Indicator(ids, sec)))
      else match SubtreeUnion(sec, depth - 1, 0, Indicator(ids, sec))
        case Err(e) => Err(e)
        case Ok(v) => Ok(Some(v))
    }

    /** `get_subtree(sec)` as its docstring describes it: -1, the root compartment,
        stands for every segment. */
    function FixedSubtree(sec: int, depth: nat): (r: Result<Option<seq<bool>>>)
      reads this
      requires Valid()
      ensures r.Ok? && r.value.Some? ==> |r.value.value| == nSegments
    {
      if sec == -1 then Ok(Some(seq(nSegments, _ => true))) else Subtree(sec, depth)
    }

    /** The loop of `get_subtree` over the successors from index `j` on. */
    function SubtreeUnion(sec: int, depth: nat, j: nat, acc: seq<bool>): (r: Result<seq<bool>>)
      reads this
      requires Valid() && j <= nSegments && |acc| == nSegments
      ensures r.Ok? ==> |r.value| == nSegments
      decreases depth + 1, nSegments - j
    {
      if j == nSegments then Ok(acc)
      else if precIds[j] != sec then SubtreeUnion(sec, depth, j + 1, acc)
      else match Subtree(ids[j], depth)
        case Err(e) => Err(e)
        case Ok(None) => Err(TypeError)
        case Ok(Some(v)) => SubtreeUnion(sec, depth, j + 1, Or(acc, v))
    }

    /** The result of `get_terminal_degrees(idx)` for the ranking `level`. */
    ghost function DegreesOf(mask: seq<bool>, level: seq<nat>): Result<seq<int>>
      reads this
      requires Valid() && Ranked(ids, precIds, level)
    {
      DegreesFrom(ids, precIds, level, TerminalTips(None).value, mask)
    }

    /** `get_terminal_degrees`: every tip starts at 1; the walk from each tip
        adds 1 to every segment up to one whose parent is -1; the result is
        masked by the index vector. The parent links must have no cycle
        (`level` ranks them), since the source's walk never ends on one. */
    method TerminalDegrees(idxOpt: Option<seq<bool>>, ghost level: seq<nat>) returns (r: Result<seq<int>>)
      requires Valid() && Ranked(ids, precIds, level)
      ensures r == DegreesOf(IdxOr(idxOpt), level)
    {
      var mask := if idxOpt.Some? then idxOpt.value else idx;
      var tips := TerminalTips(None).value;
      var degrees := ClimbAll(ids, precIds, level, Ints(tips), TrueIndices(tips));
      r := if degrees.Err? then Err(degrees.error) else Masked(degrees.value, mask);
    }
  }

  /** The loop of `get_terminal_degrees` over the tips `ts`, each walked up to
      a root. */
  method ClimbAll(ids: seq<int>, precIds: seq<int>, ghost level: seq<nat>, start: seq<int>, ts: seq<nat>)
    returns (r: Result<seq<int>>)
    requires Ranked(ids, precIds, level) && |start| == |ids|
    requires forall t :: 0 <= t < |ts| ==> ts[t] < |ids|
    ensures r == Climbs(ids, precIds, level, start, ts)
  {
    var vec := start;
    var t := 0;
    while t < |ts|
      invariant t <= |ts| && |vec| == |ids|
      invariant Climbs(ids, precIds, level, start, ts) == Climbs(ids, precIds, level, vec, ts[t..])
    {
      assert ts[t..][1..] == ts[t + 1..];
      var walked := Walk(ids, precIds, level, vec, ts[t]);
      if walked.Err? {
        return Err(walked.error);
      }
      vec := walked.value;
      t := t + 1;
    }
    r := Ok(vec);
  }

  /** The `while True` loop of `get_terminal_degrees` from the tip at index
      `s`: 1 is added at each index the walk visits. */
  method Walk(ids: seq<int>, precIds: seq<int>, ghost level: seq<nat>, vec: seq<int>, s: nat)
    returns (r: Result<seq<int>>)
    requires Ranked(ids, precIds, level) && |vec| == |ids| && s < |ids|
    ensures Chain(ids, precIds, level, s).Err? ==> r == Err(Chain(ids, precIds, level, s).error)
    ensures Chain(ids, precIds, level, s).Ok? ==> r == Ok(AddChain(vec, Chain(ids, precIds, level, s).value))
  {
    var cur: nat := s;
    var out := vec;
    ghost var visited: seq<nat> := [];
    ThenNothing(Chain(ids, precIds, level, s));
    while true
      invariant cur < |ids| && |out| == |ids|
      invariant out == AddChain(vec, visited)
      invariant Chain(ids, precIds, level, s) == Then(visited, Chain(ids, precIds, level, cur))
      invariant forall x :: x in visited ==> x < |ids| && (x == cur || level[x] > level[cur])
      decreases level[cur]
    {
      var p := FirstIndex(ids, precIds[cur]);
      if p.None? {
        return Err(IndexError);
      }
      var k := p.value;
      WalkStep(ids, precIds, level, vec, visited, cur, out, k);
      out := out[k := out[k] + 1];
      visited := visited + [k];
      if precIds[k] == -1 {
        break;
      }
      cur := k;
    }
    r := Ok(out);
  }

  /** Terminal degrees from the tip flags `tips`, masked by `mask`. */
  ghost function DegreesFrom(ids: seq<int>, precIds: seq<int>, level: seq<nat>, tips: seq<bool>, mask: seq<bool>)
    : Result<seq<int>>
    requires Ranked(ids, precIds, level) && |tips| == |ids|
  {
    match Climbs(ids, precIds, level, Ints(tips), TrueIndices(tips))
    case Err(e) => Err(e)
    case Ok(v) => Masked(v, mask)
  }

  /** Successor counts over the columns: the segments whose parent id is each
      segment's id. */
  function Counts(ids: seq<int>, precIds: seq<int>): seq<int>
  {
    seq(|ids|, i requires 0 <= i < |ids| => CountOf(precIds, ids[i]))
  }

  /** The preceding-value column for `vals`. */
  function PrecedingColumn<T>(ids: seq<int>, precIds: seq<int>, vals: seq<T>): seq<T>
    requires |vals| == |ids| == |precIds| && AllResolve(ids, precIds)
  {
    seq(|ids|, i requires 0 <= i < |ids| => PrecedingOf(ids, precIds, vals, i))
  }

  // ---------------------------------------------------------------------------
  // What the queries state

  /** The number of successors `get_seg_successors(s)` marks is the number of
      segments whose parent id is `s`. */
  lemma SuccessorsCount(m: Morph, s: int)
    ensures CountTrue(m.SegSuccessors(s)) == CountOf(m.precIds, s)
  {
    EqualsCount(m.precIds, s);
  }

  /** `v > n` commutes with selecting by a mask. */
  lemma {:induction false} SelectAbove(v: seq<int>, mask: seq<bool>, n: int)
    requires |v| == |mask|
    ensures Above(Select(v, mask), n) == Select(Above(v, n), mask)
    decreases |v|
  {
    if v != [] {
      var l := |v| - 1;
      SelectAbove(v[..l], mask[..l], n);
      assert Above(v, n)[..l] == Above(v[..l], n);
      var s := Select(v[..l], mask[..l]);
      if mask[l] {
        assert Above(s + [v[l]], n) == Above(s, n) + [v[l] > n];
      } else {
        assert s + [] == s;
      }
    }
  }

  /** The flags `get_n_branch_points` counts: selected, indexed by the object's
      own index vector, and with more than one successor. */
  function BranchFlags(mask: seq<bool>, own: seq<bool>, ids: seq<int>, precIds: seq<int>): seq<bool>
    requires |mask| == |ids| && |own| == |ids|
  {
    seq(|ids|, k requires 0 <= k < |ids| => mask[k] && own[k] && CountOf(precIds, ids[k]) > 1)
  }

  /** `get_n_branch_points(idx)` counts the segments `idx` selects that the
      object's index vector also holds and that have more than one successor. */
  lemma BranchPointsCount(m: Morph, idxOpt: Option<seq<bool>>)
    requires m.Valid() && |m.IdxOr(idxOpt)| == m.nSegments
    ensures m.NBranchPoints(idxOpt) == Ok(CountTrue(BranchFlags(m.IdxOr(idxOpt), m.idx, m.ids, m.precIds)))
  {
    var mask := m.IdxOr(idxOpt);
    var ns := m.NSuccessorsOf(m.idx).value;
    SelectAbove(ns, mask, 1);
    SelectCount(Above(ns, 1), mask, BranchFlags(mask, m.idx, m.ids, m.precIds));
  }

  /** The flags `get_n_terminal_tips` counts: selected, indexed, and with no
      successor. */
  function TipFlags(mask: seq<bool>, own: seq<bool>, ids: seq<int>, precIds: seq<int>): seq<bool>
    requires |mask| == |ids| && |own| == |ids|
  {
    seq(|ids|, k requires 0 <= k < |ids| => mask[k] && own[k] && CountOf(precIds, ids[k]) == 0)
  }

  /** `get_terminal_tips(idx)` marks the segments `idx` selects that are not
      indexed by the object's own vector or that no segment names as parent. */
  lemma TerminalTipsMeaning(m: Morph, idxOpt: Option<seq<bool>>)
    requires m.Valid() && |m.IdxOr(idxOpt)| == m.nSegments
    ensures m.TerminalTips(idxOpt).Ok? && |m.TerminalTips(idxOpt).value| == m.nSegments
    ensures forall k :: 0 <= k < m.nSegments ==>
      (m.TerminalTips(idxOpt).value[k] <==>
        m.IdxOr(idxOpt)[k] && (!m.idx[k] || forall j :: 0 <= j < m.nSegments ==> m.precIds[j] != m.ids[k]))
  {
    forall k | 0 <= k < m.nSegments {
      CountOfZero(m.precIds, m.ids[k]);
    }
  }

  /** `get_n_terminal_tips(idx)` counts the segments `idx` selects that are
      indexed and have no successor. */
  lemma TerminalTipsCount(m: Morph, idxOpt: Option<seq<bool>>)
    requires m.Valid() && |m.IdxOr(idxOpt)| == m.nSegments
    ensures m.NTerminalTips(idxOpt) == Ok(CountTrue(TipFlags(m.IdxOr(idxOpt), m.idx, m.ids, m.precIds)))
  {
    var tips := m.TerminalTips(None).value;
    SelectCount(tips, m.IdxOr(idxOpt), TipFlags(m.IdxOr(idxOpt), m.idx, m.ids, m.precIds));
  }

  /** The subtree of child `c` with `depth` calls left holds segment index `k`. */
  ghost predicate InChild(m: Morph, c: int, depth: nat, k: int)
    reads m
    requires m.Valid()
  {
    var r := m.Subtree(c, depth);
    r.Ok? && r.value.Some? && 0 <= k < |r.value.value| && r.value.value[k]
  }

  /** The subtree of child `c` is computed without error and is not None. */
  ghost predicate ChildOk(m: Morph, c: int, depth: nat)
    reads m
    requires m.Valid()
  {
    m.Subtree(c, depth).Ok? && m.Subtree(c, depth).value.Some?
  }

  /** The loop over the successors from index `j` on succeeds exactly when
      every such successor's subtree does, and or-s them into `acc`. */
  lemma {:induction false} UnionMeaning(m: Morph, sec: int, depth: nat, j: nat, acc: seq<bool>)
    requires m.Valid() && j <= m.nSegments && |acc| == m.nSegments
    ensures m.SubtreeUnion(sec, depth, j, acc).Ok? <==>
      forall jj :: j <= jj < m.nSegments && m.precIds[jj] == sec ==> ChildOk(m, m.ids[jj], depth)
    ensures m.SubtreeUnion(sec, depth, j, acc).Ok? ==> forall k :: 0 <= k < m.nSegments ==>
      (m.SubtreeUnion(sec, depth, j, acc).value[k] <==>
        acc[k] || exists jj :: j <= jj < m.nSegments && m.precIds[jj] == sec && InChild(m, m.ids[jj], depth, k))
    decreases m.nSegments - j
  {
    if j < m.nSegments {
      if m.precIds[j] != sec {
        UnionMeaning(m, sec, depth, j + 1, acc);
      } else {
        var c := m.Subtree(m.ids[j], depth);
        if c.Ok? && c.value.Some? {
          UnionMeaning(m, sec, depth, j + 1, Or(acc, c.value.value));
        }
      }
    }
  }

  /** `get_subtree(sec)` for a segment id: it succeeds exactly when the
      subtree of every successor does, and then marks the segments with id
      `sec` and those in a successor's subtree; with no successor, only the
      segments with id `sec`. */
  lemma SubtreeMeaning(m: Morph, sec: int, depth: nat)
    requires m.Valid() && depth > 0 && sec != -1
    ensures m.Subtree(sec, depth).Ok? <==>
      forall j :: 0 <= j < m.nSegments && m.precIds[j] == sec ==> ChildOk(m, m.ids[j], depth - 1)
    ensures m.Subtree(sec, depth).Ok? ==> (m.Subtree(sec, depth).value.Some? &&
      forall k :: 0 <= k < m.nSegments ==>
        (m.Subtree(sec, depth).value.value[k] <==>
          m.ids[k] == sec || exists j :: 0 <= j < m.nSegments && m.precIds[j] == sec && InChild(m, m.ids[j], depth - 1, k)))
  {
    SuccessorsCount(m, sec);
    CountOfZero(m.precIds, sec);
    UnionMeaning(m, sec, depth - 1, 0, Indicator(m.ids, sec));
  }

  /** `get_subtree(-1)` returns None. */
  lemma SubtreeOfRoot(m: Morph, depth: nat)
    requires m.Valid() && depth > 0
    ensures m.Subtree(-1, depth) == Ok(None)
  {
  }

  /** With the fix, the subtree of -1 marks every segment, and any other id's
      subtree is the one `get_subtree` computes. */
  lemma FixedSubtreeOfRoot(m: Morph, sec: int, depth: nat)
    requires m.Valid() && depth > 0
    ensures m.FixedSubtree(-1, depth).Ok? && m.FixedSubtree(-1, depth).value.Some?
    ensures forall k :: 0 <= k < m.nSegments ==> m.FixedSubtree(-1, depth).value.value[k]
    ensures sec != -1 ==> m.FixedSubtree(sec, depth) == m.Subtree(sec, depth)
  {
  }

  /** An indexed segment with parent -1 and no successor is a tip, and the walk
      from it looks up the id -1 at once: when no segment has that id, the call
      raises, although the docstring gives a tip the degree one. */
  lemma RootTipRaises(m: Morph, mask: seq<bool>, level: seq<nat>, i: int)
    requires m.Valid() && Ranked(m.ids, m.precIds, level) && |mask| == m.nSegments
    requires 0 <= i < m.nSegments && m.idx[i] && m.precIds[i] == -1
    requires forall j :: 0 <= j < m.nSegments ==> m.precIds[j] != m.ids[i]
    requires forall j :: 0 <= j < m.nSegments ==> m.ids[j] != -1
    ensures m.DegreesOf(mask, level).Err?
  {
    var tips := m.TerminalTips(None).value;
    TerminalTipsMeaning(m, None);
    assert tips[i];
    var ts := TrueIndices(tips);
    assert i in ts;
    var t :| 0 <= t < |ts| && ts[t] == i;
    assert Chain(m.ids, m.precIds, level, i).Err?;
    DegreesFromMeaning(m.ids, m.precIds, level, tips, mask);
  }

  /** Terminal degrees: they are computed exactly when the walk from every
      tip reaches a root, and then each selected segment gets 1 if it is a
      tip, plus the number of tips whose walk passes through it; unselected
      segments get 0. */
  lemma DegreesFromMeaning(ids: seq<int>, precIds: seq<int>, level: seq<nat>, tips: seq<bool>, mask: seq<bool>)
    requires Ranked(ids, precIds, level) && |tips| == |ids| && |mask| == |ids|
    ensures DegreesFrom(ids, precIds, level, tips, mask).Ok? ==>
      forall t :: 0 <= t < |TrueIndices(tips)| ==> Chain(ids, precIds, level, TrueIndices(tips)[t]).Ok?
    ensures (forall t :: 0 <= t < |TrueIndices(tips)| ==> Chain(ids, precIds, level, TrueIndices(tips)[t]).Ok?) ==>
      DegreesFrom(ids, precIds, level, tips, mask).Ok?
    ensures DegreesFrom(ids, precIds, level, tips, mask).Ok? ==> (|DegreesFrom(ids, precIds, level, tips, mask).value| == |ids| &&
      forall i :: 0 <= i < |ids| ==> (DegreesFrom(ids, precIds, level, tips, mask).value[i] ==
        if mask[i] then (if tips[i] then 1 else 0) + Through(ids, precIds, level, TrueIndices(tips), i) else 0))
  {
    var ts := TrueIndices(tips);
    ClimbsAdd(ids, precIds, level, Ints(tips), ts);
    var c := Climbs(ids, precIds, level, Ints(tips), ts);
    assert |Ints(tips)| == |ids|;
    if c.Ok? {
      var d := Masked(c.value, mask);
      assert DegreesFrom(ids, precIds, level, tips, mask) == d;
      assert |c.value| == |mask|;
      assert d.Ok?;
      assert forall t :: 0 <= t < |ts| ==> Chain(ids, precIds, level, ts[t]).Ok?;
      forall i | 0 <= i < |ids|
        ensures d.value[i] == if mask[i] then (if tips[i] then 1 else 0) + Through(ids, precIds, level, ts, i) else 0
      {
        assert Ints(tips)[i] == if tips[i] then 1 else 0;
      }
    }
  }

  /** `get_terminal_degrees(idx)` on the object's own tips. */
  lemma DegreesMeaning(m: Morph, mask: seq<bool>, level: seq<nat>)
    requires m.Valid() && Ranked(m.ids, m.precIds, level) && |mask| == m.nSegments
    ensures var tips := m.TerminalTips(None).value;
      m.DegreesOf(mask, level).Ok? ==>
        forall t :: 0 <= t < |TrueIndices(tips)| ==> Chain(m.ids, m.precIds, level, TrueIndices(tips)[t]).Ok?
    ensures var tips := m.TerminalTips(None).value;
      (forall t :: 0 <= t < |TrueIndices(tips)| ==> Chain(m.ids, m.precIds, level, TrueIndices(tips)[t]).Ok?) ==>
        m.DegreesOf(mask, level).Ok?
    ensures var tips := m.TerminalTips(None).value;
      m.DegreesOf(mask, level).Ok? ==> (|m.DegreesOf(mask, level).value| == m.nSegments &&
        forall i :: 0 <= i < m.nSegments ==> (m.DegreesOf(mask, level).value[i] ==
          if mask[i] then (if tips[i] then 1 else 0) + Through(m.ids, m.precIds, level, TrueIndices(tips), i) else 0))
  {
    DegreesFromMeaning(m.ids, m.precIds, level, m.TerminalTips(None).value, mask);
  }

  /** A selected terminal tip has terminal degree one: no walk passes through
      a segment that has no successor. */
  lemma TipDegreeOne(m: Morph, mask: seq<bool>, level: seq<nat>, i: int)
    requires m.Valid() && Ranked(m.ids, m.precIds, level) && |mask| == m.nSegments
    requires 0 <= i < m.nSegments && mask[i] && m.TerminalTips(None).value[i]
    requires m.DegreesOf(mask, level).Ok?
    ensures m.DegreesOf(mask, level).value[i] == 1
  {
    var tips := m.TerminalTips(None).value;
    DegreesMeaning(m, mask, level);
    TerminalTipsMeaning(m, None);
    CountOfZero(m.precIds, m.ids[i]);
    ThroughLeaf(m.ids, m.precIds, level, TrueIndices(tips), i);
  }
}
