/** The rankings view: the editable analyst percentiles, the thirteen
    groups with their rank and share, the replace-by-id edit handlers, and
    the top-five leaderboard sorted by rank. */
module Rankings {
  import opened Wrappers
  import opened Numerals

  // ---------------------------------------------------------------------
  // Analysts and their percentile inputs

  datatype Analyst = Analyst(id: int, name: string, role: string, percentile: int, initial: string, color: string)

  const InitialAnalysts: seq<Analyst> := [
    Analyst(1, "Peidong (沛东)", "策略研究", 15, "P", "bg-primary/10 text-primary"),
    Analyst(2, "Xu Ya (徐雅)", "策略研究", 22, "X", "bg-purple-100 text-purple-600"),
    Analyst(3, "Xiaoxi (晓希)", "策略研究", 45, "X", "bg-blue-100 text-blue-600"),
    Analyst(4, "Tianran (天然)", "策略研究", 55, "T", "bg-orange-100 text-orange-600")
  ]

  /** `handleAnalystChange(id, val)`: the analyst with that id gets the parsed
      percentile (0 when the text holds no number); everyone else, and every
      other field, stays as it was, in the same order. */
  function HandleAnalystChange(analysts: seq<Analyst>, id: int, val: string): (r: seq<Analyst>)
    ensures |r| == |analysts|
    ensures forall i :: 0 <= i < |analysts| && analysts[i].id != id ==> r[i] == analysts[i]
    ensures forall i :: 0 <= i < |analysts| && analysts[i].id == id ==>
      r[i].percentile == ParseIntOrZero(val) && r[i].(percentile := analysts[i].percentile) == analysts[i]
  {
    var num := ParseIntOrZero(val);
    seq(|analysts|, i requires 0 <= i < |analysts| =>
      if analysts[i].id == id then analysts[i].(percentile := num) else analysts[i])
  }

  // ---------------------------------------------------------------------
  // Groups and their edits

  /** A group of the institute ranking. The share is kept as the text the
      view shows. */
  datatype Group = Group(id: int, name: string, rank: int, share: string)

  function GroupName(i: nat): string
  {
    if i == 0 then "金融组 (我组)"
    else if i == 1 then "互联网传媒"
    else if i == 2 then "大健康医药"
    else "第 " + Decimal(i + 1) + " 组"
  }

  /** The thirteen groups the view starts with. Our group (id 1) ranks 6 with
      share 5.2; group i + 1 ranks i + 1. The other twelve shares are random
      in the view and are taken here as a parameter. */
  function InitialGroups(randomShares: seq<string>): (gs: seq<Group>)
    requires |randomShares| == 12
    ensures |gs| == 13
    ensures forall i :: 0 <= i < 13 ==> gs[i].id == i + 1 && gs[i].rank == (if i == 0 then 6 else i + 1)
    ensures gs[0].share == "5.2" && forall i :: 1 <= i < 13 ==> gs[i].share == randomShares[i - 1]
  {
    seq(13, i requires 0 <= i < 13 =>
      Group(i + 1, GroupName(i), if i == 0 then 6 else i + 1, if i == 0 then "5.2" else randomShares[i - 1]))
  }

  /** The field an edit replaces, with its new value. */
  datatype GroupEdit = RankEdit(rank: int) | ShareEdit(share: string)

  /** `handleGroupChange(id, field, val)`: only the named field of the group
      with that id changes; every other group and every other field stays. */
  function HandleGroupChange(groups: seq<Group>, id: int, edit: GroupEdit): (r: seq<Group>)
    ensures |r| == |groups|
    ensures forall i :: 0 <= i < |groups| && groups[i].id != id ==> r[i] == groups[i]
    ensures forall i :: 0 <= i < |groups| && groups[i].id == id ==>
      && r[i].id == groups[i].id && r[i].name == groups[i].name
      && r[i].rank == (if edit.RankEdit? then edit.rank else groups[i].rank)
      && r[i].share == (if edit.ShareEdit? then edit.share else groups[i].share)
  {
    seq(|groups|, i requires 0 <= i < |groups| =>
      var g := groups[i];
      if g.id != id then g
      else match edit
        case RankEdit(k) => g.(rank := k)
        case ShareEdit(s) => g.(share := s))
  }

  /** `myGroup = groups[0]`; undefined on an empty list. */
  function MyGroup(groups: seq<Group>): Option<Group>
  {
    if groups == [] then None else Some(groups[0])
  }

  /** A run of edits applied one after another. */
  function ApplyEdits(groups: seq<Group>, edits: seq<(int, GroupEdit)>): seq<Group>
    decreases |edits|
  {
    if edits == [] then groups
    else ApplyEdits(HandleGroupChange(groups, edits[0].0, edits[0].1), edits[1..])
  }

  /** Whatever edits are made, the list keeps its ids in order, so "my group"
      is still the first entry, group 1 with its name, whatever the ranks. */
  lemma {:induction false} EditsKeepMyGroup(randomShares: seq<string>, edits: seq<(int, GroupEdit)>)
    requires |randomShares| == 12
    ensures var gs := ApplyEdits(InitialGroups(randomShares), edits);
      |gs| == 13 && MyGroup(gs).Some? && MyGroup(gs).value.id == 1 && MyGroup(gs).value.name == GroupName(0)
  {
    EditsKeepIds(InitialGroups(randomShares), edits);
  }

  lemma {:induction false} EditsKeepIds(groups: seq<Group>, edits: seq<(int, GroupEdit)>)
    ensures |ApplyEdits(groups, edits)| == |groups|
    ensures forall i :: 0 <= i < |groups| ==>
      ApplyEdits(groups, edits)[i].id == groups[i].id && ApplyEdits(groups, edits)[i].name == groups[i].name
    decreases |edits|
  {
    if edits != [] {
      EditsKeepIds(HandleGroupChange(groups, edits[0].0, edits[0].1), edits[1..]);
    }
  }

  // ---------------------------------------------------------------------
  // Ordering by rank

  predicate SortedByRank(s: seq<Group>)
  {
    forall i, j :: 0 <= i < j < |s| ==> s[i].rank <= s[j].rank
  }

  /** The groups of rank k, in their order in s. */
  function WithRank(s: seq<Group>, k: int): seq<Group>
  {
    if s == [] then [] else (if s[0].rank == k then [s[0]] else []) + WithRank(s[1..], k)
  }

  /** s and t hold the same groups of every rank, in the same relative order. */
  ghost predicate SameRankRuns(s: seq<Group>, t: seq<Group>)
  {
    forall k :: WithRank(s, k) == WithRank(t, k)
  }

  lemma {:induction false} WithRankConcat(s: seq<Group>, t: seq<Group>, k: int)
    ensures WithRank(s + t, k) == WithRank(s, k) + WithRank(t, k)
  {
    if s == [] {
      assert s + t == t;
    } else {
      var head := if s[0].rank == k then [s[0]] else [];
      assert (s + t)[0] == s[0];
      assert (s + t)[1..] == s[1..] + t;
      assert WithRank(s + t, k) == head + WithRank(s[1..] + t, k);
      WithRankConcat(s[1..], t, k);
      assert WithRank(s, k) == head + WithRank(s[1..], k);
      assert head + (WithRank(s[1..], k) + WithRank(t, k)) == (head + WithRank(s[1..], k)) + WithRank(t, k);
    }
  }

  /** `x` moved in front of all elements of `s` of greater or equal rank,
      behind the smaller ones. */
  function Insert(x: Group, s: seq<Group>): (r: seq<Group>)
    ensures |r| == |s| + 1
  {
    if s == [] || x.rank <= s[0].rank then [x] + s else [s[0]] + Insert(x, s[1..])
  }

  /** The order a stable sort by ascending rank produces. */
  function RankOrder(s: seq<Group>): (r: seq<Group>)
    ensures |r| == |s|
  {
    if s == [] then [] else Insert(s[0], RankOrder(s[1..]))
  }

  lemma {:induction false} InsertFacts(x: Group, s: seq<Group>)
    requires SortedByRank(s)
    ensures SortedByRank(Insert(x, s))
    ensures SameRankRuns(Insert(x, s), [x] + s)
  {
    InsertSorted(x, s);
    InsertRuns(x, s);
  }

  lemma {:induction false} InsertSorted(x: Group, s: seq<Group>)
    requires SortedByRank(s)
    ensures SortedByRank(Insert(x, s))
    ensures forall i :: 0 <= i < |Insert(x, s)| ==> Insert(x, s)[i] == x || Insert(x, s)[i] in s
  {
    if s != [] && x.rank > s[0].rank {
      InsertSorted(x, s[1..]);
      var r := Insert(x, s[1..]);
      assert Insert(x, s) == [s[0]] + r;
      forall i | 0 <= i < |r| ensures s[0].rank <= r[i].rank {
        if r[i] != x {
          var m :| 0 <= m < |s[1..]| && s[1..][m] == r[i];
          assert s[m + 1] == r[i];
        }
      }
    }
  }

  lemma {:induction false} InsertRuns(x: Group, s: seq<Group>)
    ensures SameRankRuns(Insert(x, s), [x] + s)
  {
    if s != [] && x.rank > s[0].rank {
      InsertRuns(x, s[1..]);
      var r := Insert(x, s[1..]);
      assert Insert(x, s) == [s[0]] + r;
      forall k ensures WithRank(Insert(x, s), k) == WithRank([x] + s, k) {
        assert ([s[0]] + r)[1..] == r;
        assert ([x] + s[1..])[1..] == s[1..];
        assert ([x] + s)[1..] == s;
        assert WithRank(r, k) == WithRank([x] + s[1..], k);
      }
    }
  }

  /** The stable order is sorted by rank, keeps the groups of each rank in
      their original order, and is a permutation of its input. */
  lemma {:induction false} RankOrderFacts(s: seq<Group>)
    ensures SortedByRank(RankOrder(s))
    ensures SameRankRuns(RankOrder(s), s)
    ensures multiset(RankOrder(s)) == multiset(s)
  {
    if s != [] {
      RankOrderFacts(s[1..]);
      InsertFacts(s[0], RankOrder(s[1..]));
      forall k ensures WithRank(RankOrder(s), k) == WithRank(s, k) {
        assert ([s[0]] + RankOrder(s[1..]))[1..] == RankOrder(s[1..]);
      }
    }
    RunsPermute(RankOrder(s), s);
  }

  /** Sorted by rank with the same runs of each rank determines the sequence:
      a stable sort has only one possible result. */
  lemma {:induction false} SortedRunsUnique(s: seq<Group>, t: seq<Group>)
    requires |s| == |t|
    requires SortedByRank(s) && SortedByRank(t) && SameRankRuns(s, t)
    ensures s == t
  {
    if s != [] {
      var k, k' := s[0].rank, t[0].rank;
      assert WithRank(s, k) != [] && WithRank(t, k') != [];
      assert WithRank(s, k') == WithRank(t, k') && WithRank(t, k) == WithRank(s, k);
      LeastRankFirst(s, k');
      LeastRankFirst(t, k);
      assert k == k';
      assert WithRank(s, k) == [s[0]] + WithRank(s[1..], k);
      assert WithRank(t, k) == [t[0]] + WithRank(t[1..], k);
      assert s[0] == WithRank(s, k)[0] == WithRank(t, k)[0] == t[0];
      forall j ensures WithRank(s[1..], j) == WithRank(t[1..], j) {
        var head := if s[0].rank == j then [s[0]] else [];
        assert WithRank(s, j) == head + WithRank(s[1..], j);
        assert WithRank(t, j) == head + WithRank(t[1..], j);
        assert (head + WithRank(s[1..], j))[|head|..] == WithRank(s[1..], j);
        assert (head + WithRank(t[1..], j))[|head|..] == WithRank(t[1..], j);
      }
      SortedRunsUnique(s[1..], t[1..]);
      assert s == [s[0]] + s[1..] && t == [t[0]] + t[1..];
    }
  }

  /** In a sorted non-empty sequence, any rank that occurs is at least the first one. */
  lemma {:induction false} LeastRankFirst(s: seq<Group>, k: int)
    requires SortedByRank(s) && s != []
    requires WithRank(s, k) != []
    ensures s[0].rank <= k
  {
    if s[0].rank != k {
      assert WithRank(s[1..], k) != [];
      assert s[1..] != [];
      LeastRankFirst(s[1..], k);
    }
  }

  lemma {:induction false} CountInRun(s: seq<Group>, x: Group)
    ensures multiset(s)[x] == multiset(WithRank(s, x.rank))[x]
  {
    if s != [] {
      CountInRun(s[1..], x);
      assert s == [s[0]] + s[1..];
    }
  }

  /** Sequences with the same runs of every rank are permutations of each other. */
  lemma RunsPermute(s: seq<Group>, t: seq<Group>)
    requires SameRankRuns(s, t)
    ensures multiset(s) == multiset(t)
  {
    forall x ensures multiset(s)[x] == multiset(t)[x] {
      CountInRun(s, x);
      CountInRun(t, x);
    }
  }

  /** Swapping neighbours of different rank keeps every run. */
  lemma SwapKeepsRuns(s: seq<Group>, j: int)
    requires 0 < j < |s| && s[j - 1].rank != s[j].rank
    ensures SameRankRuns(s[j - 1 := s[j]][j := s[j - 1]], s)
  {
    var t := s[j - 1 := s[j]][j := s[j - 1]];
    assert s == s[..j - 1] + [s[j - 1], s[j]] + s[j + 1..];
    assert t == s[..j - 1] + [s[j], s[j - 1]] + s[j + 1..];
    forall k ensures WithRank(t, k) == WithRank(s, k) {
      WithRankConcat(s[..j - 1] + [s[j - 1], s[j]], s[j + 1..], k);
      WithRankConcat(s[..j - 1] + [s[j], s[j - 1]], s[j + 1..], k);
      WithRankConcat(s[..j - 1], [s[j - 1], s[j]], k);
      WithRankConcat(s[..j - 1], [s[j], s[j - 1]], k);
      assert [s[j - 1], s[j]][1..] == [s[j]];
      assert [s[j], s[j - 1]][1..] == [s[j - 1]];
    }
  }

  /** `copy.sort((a, b) => a.rank - b.rank)`: a stable sort, here by insertion
      through swaps of out-of-order neighbours. */
  method SortByRank(a: array<Group>)
    modifies a
    ensures SortedByRank(a[..])
    ensures SameRankRuns(a[..], old(a[..]))
    ensures multiset(a[..]) == multiset(old(a[..]))
  {
    for i := 0 to a.Length
      invariant SortedByRank(a[..i])
      invariant SameRankRuns(a[..], old(a[..]))
    {
      SinkLast(a, i);
    }
    assert a[..a.Length] == a[..];
    RunsPermute(a[..], old(a[..]));
  }

  /** The state of one insertion step: the element at `j` is the one being
      moved down; without it, positions 0..i are sorted, and it ranks
      strictly below everything after it up to `i`. */
  ghost predicate Sinking(s: seq<Group>, i: int, j: int)
  {
    && 0 <= j <= i < |s|
    && (forall p, q :: 0 <= p < q <= i && p != j && q != j ==> s[p].rank <= s[q].rank)
    && (forall q :: j < q <= i ==> s[j].rank < s[q].rank)
  }

  lemma SinkStart(s: seq<Group>, i: int)
    requires 0 <= i < |s| && SortedByRank(s[..i])
    ensures Sinking(s, i, i)
  {
    forall p, q | 0 <= p < q <= i && p != i && q != i ensures s[p].rank <= s[q].rank {
      assert s[p] == s[..i][p] && s[q] == s[..i][q];
    }
  }

  /** Swapping the moving element with a higher-ranked left neighbour. */
  lemma SinkStep(s: seq<Group>, i: int, j: int)
    requires Sinking(s, i, j) && j > 0 && s[j - 1].rank > s[j].rank
    ensures Sinking(s[j - 1 := s[j]][j := s[j - 1]], i, j - 1)
    ensures SameRankRuns(s[j - 1 := s[j]][j := s[j - 1]], s)
  {
    SwapKeepsRuns(s, j);
  }

  /** The moving element has stopped: positions 0..i are sorted. */
  lemma SinkDone(s: seq<Group>, i: int, j: int)
    requires Sinking(s, i, j) && (j == 0 || s[j - 1].rank <= s[j].rank)
    ensures SortedByRank(s[..i + 1])
  {
    forall p, q | 0 <= p < q <= i ensures s[p].rank <= s[q].rank {
      if q == j && p < j - 1 {
        assert s[p].rank <= s[j - 1].rank;
      } else if p == j && q > j {
      }
    }
  }

  /** One pass of insertion sort: moves `a[i]` down past every higher rank. */
  /** One insertion step: the group at index i moves left past the groups of
      greater rank in the sorted part before it; the groups after index i
      stay where they are. */
  method SinkLast(a: array<Group>, i: nat)
    requires i < a.Length && SortedByRank(a[..i])
    modifies a
    ensures SortedByRank(a[..i + 1])
    ensures SameRankRuns(a[..], old(a[..]))
    ensures a[i + 1..] == old(a[i + 1..])
  {
    SinkStart(a[..], i);
    var j := i;
    while j > 0 && a[j - 1].rank > a[j].rank
      invariant Sinking(a[..], i, j)
      invariant SameRankRuns(a[..], old(a[..]))
      invariant a[i + 1..] == old(a[i + 1..])
    {
      ghost var before := a[..];
      SinkStep(before, i, j);
      a[j - 1], a[j] := a[j], a[j - 1];
      assert a[..] == before[j - 1 := before[j]][j := before[j - 1]];
      j := j - 1;
    }
    SinkDone(a[..], i, j);
  }

  /** The first n groups of the stable order are sorted and drawn from the groups. */
  lemma RankOrderPrefix(groups: seq<Group>, n: nat)
    requires n <= |groups|
    ensures |RankOrder(groups)| == |groups|
    ensures SortedByRank(RankOrder(groups)[..n])
    ensures multiset(RankOrder(groups)[..n]) <= multiset(groups)
  {
    var r := RankOrder(groups);
    RankOrderFacts(groups);
    assert r == r[..n] + r[n..];
  }

  /** A sorted arrangement with the groups of every rank in their original
      order is the stable order. */
  lemma SortedRunsAreRankOrder(s: seq<Group>, groups: seq<Group>)
    requires |s| == |groups| && SortedByRank(s) && SameRankRuns(s, groups)
    ensures s == RankOrder(groups)
  {
    RankOrderFacts(groups);
    SortedRunsUnique(s, RankOrder(groups));
  }

  /** The leaderboard: a copy of the groups sorted by rank, then its first five. */
  method Leaderboard(groups: seq<Group>) returns (top: seq<Group>)
    ensures |top| == if |groups| < 5 then |groups| else 5
    ensures top == RankOrder(groups)[..|top|]
    ensures SortedByRank(top) && multiset(top) <= multiset(groups)
  {
    var copy := new Group[|groups|](i requires 0 <= i < |groups| => groups[i]);
    assert copy[..] == groups;
    SortByRank(copy);
    SortedRunsAreRankOrder(copy[..], groups);
    var n := if copy.Length < 5 then copy.Length else 5;
    top := copy[..n];
    RankOrderPrefix(groups, n);
  }

  /** A sequence already in rank order is its own stable order. */
  lemma SortedIsOwnOrder(s: seq<Group>)
    requires SortedByRank(s)
    ensures RankOrder(s) == s
  {
    RankOrderFacts(s);
    SortedRunsUnique(RankOrder(s), s);
  }

  /** Inserting behind the first p groups, which all rank strictly better. */
  lemma {:induction false} InsertAt(x: Group, s: seq<Group>, p: nat)
    requires p <= |s|
    requires forall i :: 0 <= i < p ==> s[i].rank < x.rank
    requires p < |s| ==> x.rank <= s[p].rank
    ensures Insert(x, s) == s[..p] + [x] + s[p..]
  {
    if p > 0 {
      InsertAt(x, s[1..], p - 1);
      assert s[..p] == [s[0]] + s[1..][..p - 1];
    }
  }

  /** With the initial ranks the leaderboard shows groups 2, 3, 4, 5 and then
      our group 1, which precedes group 6 on the shared rank 6. */
  lemma InitialLeaderboard(randomShares: seq<string>)
    requires |randomShares| == 12
    ensures var order := RankOrder(InitialGroups(randomShares));
      && order[0].id == 2 && order[1].id == 3 && order[2].id == 4 && order[3].id == 5
      && order[4].id == 1 && order[5].id == 6
  {
    var gs := InitialGroups(randomShares);
    var tail := gs[1..];
    SortedIsOwnOrder(tail);
    InsertAt(gs[0], tail, 4);
  }

  /** Ranks 2, 1, 1 for ids 1, 2, 3 come out as ids 2, 3, 1: the tie keeps its order. */
  lemma TieKeepsOrder()
    ensures RankOrder([Group(1, "", 2, ""), Group(2, "", 1, ""), Group(3, "", 1, "")])
         == [Group(2, "", 1, ""), Group(3, "", 1, ""), Group(1, "", 2, "")]
  {
    var s := [Group(1, "", 2, ""), Group(2, "", 1, ""), Group(3, "", 1, "")];
    assert s[1..][1..] == [Group(3, "", 1, "")];
    assert s[1..][1..][1..] == [];
  }
}
